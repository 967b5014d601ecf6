/**
 * The stage/copy selector: turns "seconds elapsed in the session" into a
 * stage, a randomised delay before the next reminder, and the reminder's
 * text with its placeholders filled in.
 *
 * The random draws of `Int.random(in:)` and `randomElement()` are oracle
 * parameters `pick`: an offset into the range drawn from, clamped to its
 * last value, so every result is one the source can produce and every value
 * of the range is reachable. Probabilities are not modelled.
 */
module Copy {
  import opened Wrappers
  import opened Text

  datatype Interval = Interval(min: int, max: int)

  datatype Message = Message(id: string, title: string, body: string)

  datatype Stage = Stage(id: Option<string>, startAfterSeconds: int, intervalSeconds: Interval, messages: seq<Message>)

  /** What `makeMessage` returns. */
  datatype Composed = Composed(title: string, body: string, copyId: string)

  /** The result for a stage without messages. */
  const MissingMessage := Composed("…", "…", "missing_message")

  predicate SortedByStart(stages: seq<Stage>) {
    forall i, j :: 0 <= i < j < |stages| ==> stages[i].startAfterSeconds <= stages[j].startAfterSeconds
  }

  // ---------------------------------------------------------------------------
  // The engine and its sorted stage list

  /** The engine after loading: its stages, kept in ascending threshold order. */
  datatype Engine = Engine(stagesSorted: seq<Stage>)

  /** Puts `x` in front of the first stage whose threshold is not smaller than its own. */
  function InsertByStart(x: Stage, sorted: seq<Stage>): (r: seq<Stage>)
    requires SortedByStart(sorted)
    ensures SortedByStart(r)
    ensures multiset(r) == multiset(sorted) + multiset{x}
    ensures |r| == |sorted| + 1
    ensures r[0] == x || (sorted != [] && r[0] == sorted[0])
    decreases |sorted|
  {
    if sorted == [] || x.startAfterSeconds <= sorted[0].startAfterSeconds then [x] + sorted
    else
      var tail := InsertByStart(x, sorted[1..]);
      assert sorted == [sorted[0]] + sorted[1..];
      assert multiset([sorted[0]] + tail) == multiset{sorted[0]} + multiset(tail);
      SortedCons(sorted[0], tail);
      [sorted[0]] + tail
  }

  /** A stage not above the head of a sorted list can go in front of it. */
  lemma SortedCons(h: Stage, t: seq<Stage>)
    requires SortedByStart(t) && (t == [] || h.startAfterSeconds <= t[0].startAfterSeconds)
    ensures SortedByStart([h] + t)
  {
    var r := [h] + t;
    forall i, j | 0 <= i < j < |r|
      ensures r[i].startAfterSeconds <= r[j].startAfterSeconds
    {
      if i == 0 && j > 1 {
        assert r[j] == t[j - 1];
        assert t[0].startAfterSeconds <= t[j - 1].startAfterSeconds;
      }
    }
  }

  /** Orders the decoded stages by ascending `startAfterSeconds`, as the engine does once at start-up. */
  function SortByStart(stages: seq<Stage>): (r: seq<Stage>)
    ensures SortedByStart(r)
    ensures multiset(r) == multiset(stages)
    ensures |r| == |stages|
    decreases |stages|
  {
    if stages == [] then []
    else
      assert stages == [stages[0]] + stages[1..];
      InsertByStart(stages[0], SortByStart(stages[1..]))
  }

  /** The engine built from the decoded stage list. */
  function NewEngine(stages: seq<Stage>): (e: Engine)
    ensures SortedByStart(e.stagesSorted)
    ensures multiset(e.stagesSorted) == multiset(stages)
  {
    Engine(SortByStart(stages))
  }

  // ---------------------------------------------------------------------------
  // Stage selection

  /** The index of the last stage whose threshold has been reached, if any. */
  function LastReached(stages: seq<Stage>, elapsed: int): Option<nat>
    decreases |stages|
  {
    if stages == [] then None
    else if stages[|stages| - 1].startAfterSeconds <= elapsed then Some(|stages| - 1)
    else LastReached(stages[..|stages| - 1], elapsed)
  }

  /**
   * A found index is a reached stage after which no stage is reached; nothing
   * is found exactly when no stage is reached.
   */
  lemma {:induction false} LastReachedIsLast(stages: seq<Stage>, elapsed: int)
    ensures var r := LastReached(stages, elapsed);
            (r.Some? ==> r.value < |stages| && stages[r.value].startAfterSeconds <= elapsed) &&
            (r.Some? ==> forall j :: r.value < j < |stages| ==> stages[j].startAfterSeconds > elapsed) &&
            (r.None? <==> forall j :: 0 <= j < |stages| ==> stages[j].startAfterSeconds > elapsed)
    decreases |stages|
  {
    if stages != [] && stages[|stages| - 1].startAfterSeconds > elapsed {
      var init := stages[..|stages| - 1];
      LastReachedIsLast(init, elapsed);
      assert forall j :: 0 <= j < |init| ==> init[j] == stages[j];
    }
  }

  /**
   * The index of the stage for `elapsed`: the last stage reached, or the
   * first stage when none is. The list must not be empty (the source
   * force-unwraps its first element).
   */
  function StageIndex(engine: Engine, elapsed: int): (i: nat)
    requires |engine.stagesSorted| > 0
    ensures i < |engine.stagesSorted|
  {
    LastReachedIsLast(engine.stagesSorted, elapsed);
    LastReached(engine.stagesSorted, elapsed).GetOr(0)
  }

  function StageFor(engine: Engine, elapsed: int): Stage
    requires |engine.stagesSorted| > 0
  {
    engine.stagesSorted[StageIndex(engine, elapsed)]
  }

  /**
   * Over sorted stages, the stage chosen is the one with the greatest
   * threshold not above `elapsed`; a threshold equal to `elapsed` counts as
   * reached.
   */
  lemma StageIsGreatestReached(engine: Engine, elapsed: int, j: nat)
    requires |engine.stagesSorted| > 0 && SortedByStart(engine.stagesSorted)
    requires j < |engine.stagesSorted| && engine.stagesSorted[j].startAfterSeconds <= elapsed
    ensures StageFor(engine, elapsed).startAfterSeconds <= elapsed
    ensures engine.stagesSorted[j].startAfterSeconds <= StageFor(engine, elapsed).startAfterSeconds
    ensures j <= StageIndex(engine, elapsed)
  {
    LastReachedIsLast(engine.stagesSorted, elapsed);
    var r := LastReached(engine.stagesSorted, elapsed);
    assert r.Some?;
  }

  /** When no threshold has been reached, the first stage is chosen. */
  lemma StageFallsBackToFirst(engine: Engine, elapsed: int)
    requires |engine.stagesSorted| > 0
    requires forall j :: 0 <= j < |engine.stagesSorted| ==> engine.stagesSorted[j].startAfterSeconds > elapsed
    ensures StageIndex(engine, elapsed) == 0
  {
    LastReachedIsLast(engine.stagesSorted, elapsed);
    assert LastReached(engine.stagesSorted, elapsed).None?;
  }

  /** A later elapsed time never selects an earlier stage. */
  lemma StageIndexMonotone(engine: Engine, e1: int, e2: int)
    requires |engine.stagesSorted| > 0
    requires e1 <= e2
    ensures StageIndex(engine, e1) <= StageIndex(engine, e2)
  {
    LastReachedIsLast(engine.stagesSorted, e1);
    LastReachedIsLast(engine.stagesSorted, e2);
    var r1 := LastReached(engine.stagesSorted, e1);
    if r1.Some? {
      assert engine.stagesSorted[r1.value].startAfterSeconds <= e2;
      assert LastReached(engine.stagesSorted, e2).Some?;
    }
  }

  // ---------------------------------------------------------------------------
  // Next interval

  /** A delay drawn from the stage's interval, whichever way round its bounds are given. */
  function NextInterval(engine: Engine, elapsed: int, pick: nat): (d: int)
    requires |engine.stagesSorted| > 0
    ensures var iv := StageFor(engine, elapsed).intervalSeconds;
            Min(iv.min, iv.max) <= d <= Max(iv.min, iv.max)
  {
    var iv := StageFor(engine, elapsed).intervalSeconds;
    var lo := Min(iv.min, iv.max);
    var hi := Max(iv.min, iv.max);
    Min(lo + pick, hi)
  }

  /** Every value of the stage's interval can be drawn. */
  lemma NextIntervalReachesAll(engine: Engine, elapsed: int, v: int)
    requires |engine.stagesSorted| > 0
    requires var iv := StageFor(engine, elapsed).intervalSeconds;
             Min(iv.min, iv.max) <= v <= Max(iv.min, iv.max)
    ensures exists pick: nat :: NextInterval(engine, elapsed, pick) == v
  {
    var iv := StageFor(engine, elapsed).intervalSeconds;
    var pick: nat := v - Min(iv.min, iv.max);
    assert NextInterval(engine, elapsed, pick) == v;
  }

  // ---------------------------------------------------------------------------
  // Placeholders

  /** The placeholder token for a key: `{key}`. */
  function Token(key: string): (t: string)
    ensures |t| == |key| + 2 && t[0] == '{'
  {
    "{" + key + "}"
  }

  /** The three built-in placeholders with their values for `elapsed`, replaced in this order. */
  function BuiltInValues(elapsed: int): seq<(string, string)> {
    [("elapsedSeconds", IntToDecimal(elapsed)),
     ("elapsedMinutes", IntToDecimal(SwiftDiv(elapsed, 60))),
     ("elapsedHours", IntToDecimal(SwiftDiv(elapsed, 3600)))]
  }

  /** The built-in placeholders replaced, seconds first, then minutes, then hours. */
  function BuiltIns(text: string, elapsed: int): string {
    ApplyReplacements(text, BuiltInValues(elapsed))
  }

  /** The caller's replacements, applied one after another in sequence order. */
  function ApplyReplacements(text: string, replacements: seq<(string, string)>): string
    decreases |replacements|
  {
    if replacements == [] then text
    else
      var last := replacements[|replacements| - 1];
      ReplaceAll(ApplyReplacements(text, replacements[..|replacements| - 1]), Token(last.0), last.1)
  }

  lemma BuiltInTokens()
    ensures Token("elapsedSeconds") == "{elapsedSeconds}"
    ensures Token("elapsedMinutes") == "{elapsedMinutes}"
    ensures Token("elapsedHours") == "{elapsedHours}"
  {
  }

  /** The built-ins are three `replacingOccurrences` calls: seconds, then minutes, then hours. */
  lemma BuiltInsInOrder(text: string, elapsed: int)
    ensures BuiltIns(text, elapsed)
         == ReplaceAll(ReplaceAll(ReplaceAll(text, "{elapsedSeconds}", IntToDecimal(elapsed)),
                                  "{elapsedMinutes}", IntToDecimal(SwiftDiv(elapsed, 60))),
                       "{elapsedHours}", IntToDecimal(SwiftDiv(elapsed, 3600)))
  {
    var v := BuiltInValues(elapsed);
    BuiltInTokens();
    var s1 := ApplyReplacements(text, v[..1]);
    assert v[..1][..0] == [] && v[..1][0] == v[0];
    assert ApplyReplacements(text, v[..1][..0]) == text;
    assert s1 == ReplaceAll(text, "{elapsedSeconds}", IntToDecimal(elapsed));
    var s2 := ApplyReplacements(text, v[..2]);
    assert v[..2][..1] == v[..1] && v[..2][1] == v[1];
    assert s2 == ReplaceAll(s1, "{elapsedMinutes}", IntToDecimal(SwiftDiv(elapsed, 60)));
    assert v[..2] == v[..|v| - 1];
  }

  /** Placeholder substitution: the built-ins first, then the caller's replacements. */
  function Placeholders(text: string, elapsed: int, replacements: seq<(string, string)>): string {
    ApplyReplacements(BuiltIns(text, elapsed), replacements)
  }

  /** Replaces the placeholders of `text` step by step, as the engine does. */
  method ReplacePlaceholders(text: string, elapsedSeconds: int, replacements: seq<(string, string)>)
    returns (result: string)
    ensures result == Placeholders(text, elapsedSeconds, replacements)
  {
    result := text;
    var minutes := SwiftDiv(elapsedSeconds, 60);
    var hours := SwiftDiv(elapsedSeconds, 3600);
    result := ReplaceAll(result, "{elapsedSeconds}", IntToDecimal(elapsedSeconds));
    result := ReplaceAll(result, "{elapsedMinutes}", IntToDecimal(minutes));
    result := ReplaceAll(result, "{elapsedHours}", IntToDecimal(hours));
    ghost var builtIns := result;
    BuiltInsInOrder(text, elapsedSeconds);
    for i := 0 to |replacements|
      invariant result == ApplyReplacements(builtIns, replacements[..i])
    {
      var (key, value) := replacements[i];
      assert replacements[..i + 1][..i] == replacements[..i];
      result := ReplaceAll(result, Token(key), value);
    }
    assert replacements[..|replacements|] == replacements;
  }

  /** Digits and a minus sign never start a placeholder. */
  lemma DecimalHasNoBrace(i: int)
    ensures forall k :: 0 <= k < |IntToDecimal(i)| ==> IntToDecimal(i)[k] != '{'
  {
  }

  /** Text without `{` has no placeholder and comes back unchanged. */
  lemma {:induction false} PlaceholdersWithoutBrace(text: string, elapsed: int, replacements: seq<(string, string)>)
    requires forall k :: 0 <= k < |text| ==> text[k] != '{'
    ensures Placeholders(text, elapsed, replacements) == text
    decreases |replacements|
  {
    BuiltInsInOrder(text, elapsed);
    ReplaceAllUntouched(text, "{elapsedSeconds}", IntToDecimal(elapsed));
    ReplaceAllUntouched(text, "{elapsedMinutes}", IntToDecimal(SwiftDiv(elapsed, 60)));
    ReplaceAllUntouched(text, "{elapsedHours}", IntToDecimal(SwiftDiv(elapsed, 3600)));
    if replacements != [] {
      var last := replacements[|replacements| - 1];
      PlaceholdersWithoutBrace(text, elapsed, replacements[..|replacements| - 1]);
      assert Token(last.0)[0] == '{';
      ReplaceAllUntouched(text, Token(last.0), last.1);
    }
  }

  /** The seconds token does not occur in the minutes token. */
  lemma MinutesTokenSurvivesSeconds(value: string)
    ensures ReplaceAll("{elapsedMinutes}", "{elapsedSeconds}", value) == "{elapsedMinutes}"
  {
    var t := "{elapsedMinutes}";
    assert t[..|"{elapsedSeconds}"|] != "{elapsedSeconds}" by {
      assert t[8] != "{elapsedSeconds}"[8];
    }
    assert |t[1..]| < |"{elapsedSeconds}"|;
  }

  /** `{elapsedMinutes}` becomes the whole minutes elapsed (Swift's truncating `/ 60`). */
  lemma MinutesPlaceholder(elapsed: int)
    ensures Placeholders("{elapsedMinutes}", elapsed, []) == IntToDecimal(SwiftDiv(elapsed, 60))
  {
    var m := IntToDecimal(SwiftDiv(elapsed, 60));
    var t := "{elapsedMinutes}";
    BuiltInsInOrder(t, elapsed);
    MinutesTokenSurvivesSeconds(IntToDecimal(elapsed));
    ReplaceAllWhole(t, m);
    DecimalHasNoBrace(SwiftDiv(elapsed, 60));
    ReplaceAllUntouched(m, "{elapsedHours}", IntToDecimal(SwiftDiv(elapsed, 3600)));
  }

  /** `{elapsedHours}` becomes the whole hours elapsed (Swift's truncating `/ 3600`). */
  lemma HoursPlaceholder(elapsed: int)
    ensures Placeholders("{elapsedHours}", elapsed, []) == IntToDecimal(SwiftDiv(elapsed, 3600))
  {
    var h := IntToDecimal(SwiftDiv(elapsed, 3600));
    var t := "{elapsedHours}";
    BuiltInsInOrder(t, elapsed);
    assert ReplaceAll(t, "{elapsedSeconds}", IntToDecimal(elapsed)) == t;
    assert ReplaceAll(t, "{elapsedMinutes}", IntToDecimal(SwiftDiv(elapsed, 60))) == t;
    ReplaceAllWhole(t, h);
  }

  /** No character of `s` can open a placeholder. */
  predicate NoBrace(s: string) {
    forall k :: 0 <= k < |s| ==> s[k] != '{'
  }

  /**
   * In text whose only `{` opens `t`, a token `pat` that differs from `t` at
   * some position `k` finds no occurrence, so replacing it changes nothing.
   */
  lemma OtherTokenUntouched(a: string, t: string, b: string, pat: string, rep: string, k: nat)
    requires |pat| > 0 && pat[0] == '{'
    requires NoBrace(a) && NoBrace(b) && |t| > 0 && NoBrace(t[1..])
    requires k < |t| && k < |pat| && t[k] != pat[k]
    ensures ReplaceAll(a + t + b, pat, rep) == a + t + b
  {
    var s := t + b;
    assert a + t + b == a + s;
    ReplaceAllPrefix(a, s, pat, rep);
    if |s| >= |pat| {
      assert s[..|pat|][k] == t[k];
      assert s[1..] == t[1..] + b;
      ReplaceAllUntouched(s[1..], pat, rep);
      assert [s[0]] + s[1..] == s;
    }
  }

  /** A token replaced by a value without `{`, between two texts without `{`. */
  lemma TokenReplaced(a: string, t: string, b: string, rep: string)
    requires |t| > 0 && t[0] == '{' && NoBrace(a) && NoBrace(b)
    ensures ReplaceAll(a + t + b, t, rep) == a + rep + b
  {
    assert a + t + b == a + (t + b);
    ReplaceAllPrefix(a, t + b, t, rep);
    ReplaceAllLeading(b, t, rep);
    ReplaceAllUntouched(b, t, rep);
    assert a + (rep + b) == a + rep + b;
  }

  /** After its opening brace, no built-in token has another `{`. */
  lemma BuiltInTokenTails()
    ensures NoBrace("{elapsedMinutes}"[1..]) && NoBrace("{elapsedHours}"[1..])
  {
  }

  /**
   * `{elapsedMinutes}` inside a message becomes the whole minutes elapsed;
   * the text around it is kept.
   */
  lemma MinutesPlaceholderInText(a: string, b: string, elapsed: int)
    requires NoBrace(a) && NoBrace(b)
    ensures Placeholders(a + "{elapsedMinutes}" + b, elapsed, [])
         == a + IntToDecimal(SwiftDiv(elapsed, 60)) + b
  {
    var t := "{elapsedMinutes}";
    var x := a + t + b;
    var m := IntToDecimal(SwiftDiv(elapsed, 60));
    BuiltInsInOrder(x, elapsed);
    BuiltInTokenTails();
    OtherTokenUntouched(a, t, b, "{elapsedSeconds}", IntToDecimal(elapsed), 8);
    TokenReplaced(a, t, b, m);
    var y := a + m + b;
    DecimalHasNoBrace(SwiftDiv(elapsed, 60));
    assert NoBrace(y);
    ReplaceAllUntouched(y, "{elapsedHours}", IntToDecimal(SwiftDiv(elapsed, 3600)));
  }

  /**
   * `{elapsedHours}` inside a message becomes the whole hours elapsed; the
   * text around it is kept.
   */
  lemma HoursPlaceholderInText(a: string, b: string, elapsed: int)
    requires NoBrace(a) && NoBrace(b)
    ensures Placeholders(a + "{elapsedHours}" + b, elapsed, [])
         == a + IntToDecimal(SwiftDiv(elapsed, 3600)) + b
  {
    var t := "{elapsedHours}";
    var x := a + t + b;
    BuiltInsInOrder(x, elapsed);
    var s := IntToDecimal(elapsed);
    var m := IntToDecimal(SwiftDiv(elapsed, 60));
    var h := IntToDecimal(SwiftDiv(elapsed, 3600));
    BuiltInTokenTails();
    OtherTokenUntouched(a, t, b, "{elapsedSeconds}", s, 8);
    OtherTokenUntouched(a, t, b, "{elapsedMinutes}", m, 8);
    TokenReplaced(a, t, b, h);
  }

  /**
   * The built-ins are replaced before the caller's replacements: a caller
   * value for the key `elapsedMinutes` never reaches the text.
   */
  lemma BuiltInsWinOverCallerKeys(elapsed: int, value: string)
    ensures Placeholders("{elapsedMinutes}", elapsed, [("elapsedMinutes", value)])
         == IntToDecimal(SwiftDiv(elapsed, 60))
  {
    MinutesPlaceholder(elapsed);
    var m := IntToDecimal(SwiftDiv(elapsed, 60));
    var reps := [("elapsedMinutes", value)];
    assert reps[..0] == [];
    assert ApplyReplacements(BuiltIns("{elapsedMinutes}", elapsed), reps[..0]) == m;
    DecimalHasNoBrace(SwiftDiv(elapsed, 60));
    ReplaceAllUntouched(m, Token("elapsedMinutes"), value);
  }

  // ---------------------------------------------------------------------------
  // Messages

  /**
   * The reminder for `elapsed`: a message of the stage, chosen by `pick`, with
   * its placeholders filled in; the sentinel when the stage has no messages.
   */
  function MakeMessageWith(engine: Engine, elapsed: int, replacements: seq<(string, string)>, pick: nat): Composed
    requires |engine.stagesSorted| > 0
  {
    var messages := StageFor(engine, elapsed).messages;
    if messages == [] then MissingMessage
    else
      var msg := messages[Min(pick, |messages| - 1)];
      Composed(Placeholders(msg.title, elapsed, replacements), Placeholders(msg.body, elapsed, replacements), msg.id)
  }

  /**
   * A stage without messages gives the sentinel; otherwise the reminder is
   * one of the stage's messages, with title and body filled in and its own id.
   */
  lemma MakeMessageChoice(engine: Engine, elapsed: int, replacements: seq<(string, string)>, pick: nat)
    requires |engine.stagesSorted| > 0
    ensures var m := MakeMessageWith(engine, elapsed, replacements, pick);
            var messages := StageFor(engine, elapsed).messages;
            (messages == [] ==> m == MissingMessage) &&
            (messages != [] ==>
               exists k :: 0 <= k < |messages| &&
                 m == Composed(Placeholders(messages[k].title, elapsed, replacements),
                               Placeholders(messages[k].body, elapsed, replacements), messages[k].id))
  {
    var messages := StageFor(engine, elapsed).messages;
    if messages != [] {
      var k := Min(pick, |messages| - 1);
      assert MakeMessageWith(engine, elapsed, replacements, pick) ==
             Composed(Placeholders(messages[k].title, elapsed, replacements),
                      Placeholders(messages[k].body, elapsed, replacements), messages[k].id);
    }
  }

  /** `makeMessage(elapsedSeconds:)`: the same choice with no caller replacements. */
  function MakeMessage(engine: Engine, elapsed: int, pick: nat): Composed
    requires |engine.stagesSorted| > 0
  {
    MakeMessageWith(engine, elapsed, [], pick)
  }

  /**
   * Without caller replacements, a stage without messages gives the
   * sentinel, and otherwise the copy id is the id of one of the stage's
   * messages.
   */
  lemma MakeMessageCopyId(engine: Engine, elapsed: int, pick: nat)
    requires |engine.stagesSorted| > 0
    ensures var m := MakeMessage(engine, elapsed, pick);
            var messages := StageFor(engine, elapsed).messages;
            (messages == [] ==> m == MissingMessage) &&
            (messages != [] ==> exists k :: 0 <= k < |messages| && m.copyId == messages[k].id)
  {
    MakeMessageChoice(engine, elapsed, [], pick);
  }

  /** Every message of the stage can be chosen. */
  lemma MakeMessageReachesAll(engine: Engine, elapsed: int, replacements: seq<(string, string)>, k: nat)
    requires |engine.stagesSorted| > 0
    requires k < |StageFor(engine, elapsed).messages|
    ensures var msg := StageFor(engine, elapsed).messages[k];
            MakeMessageWith(engine, elapsed, replacements, k)
              == Composed(Placeholders(msg.title, elapsed, replacements),
                          Placeholders(msg.body, elapsed, replacements), msg.id)
  {
  }
}
