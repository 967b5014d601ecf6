/**
 * The home screen's logic: the main button's title in each phase, what a tap
 * on it does, and how a number of seconds is shown as a clock duration.
 * The rendering of the screen itself is not modelled.
 */
module Home {
  import opened Wrappers
  import opened Text
  import opened Domain
  import opened Scheduler
  import opened Controller

  // ---------------------------------------------------------------------------
  // `formatDuration`

  /** The hours, minutes and seconds of a duration; a negative duration counts as zero. */
  function Components(totalSeconds: int): (hms: (nat, nat, nat))
    ensures hms.0 * 3600 + hms.1 * 60 + hms.2 == Max(0, totalSeconds)
    ensures hms.1 < 60 && hms.2 < 60
  {
    var s := Max(0, totalSeconds);
    (s / 3600, (s % 3600) / 60, s % 60)
  }

  /** `%02d` for a value below 100: two digits, a leading zero below ten. */
  function Pad2(n: nat): (r: string)
    requires n < 100
    ensures |r| == 2 && AllDigits(r) && DecimalValue(r) == n
  {
    var d := NatToDecimal(n);
    DecimalLength(n);
    DecimalRoundTrip(n);
    LeadingZero(d);
    if n < 10 then "0" + d else d
  }

  /** `formatDuration`: `H:MM:SS` when there is at least an hour, `M:SS` otherwise. */
  function FormatDuration(totalSeconds: int): string {
    var (hours, minutes, seconds) := Components(totalSeconds);
    if hours > 0 then NatToDecimal(hours) + ":" + Pad2(minutes) + ":" + Pad2(seconds)
    else NatToDecimal(minutes) + ":" + Pad2(seconds)
  }

  /**
   * Reads a shown duration back: two or three colon-separated digit groups,
   * weighted as minutes and seconds or as hours, minutes and seconds.
   */
  function ParseDuration(text: string): Option<nat> {
    var pieces := Split(text, ':');
    if exists k :: 0 <= k < |pieces| && !AllDigits(pieces[k]) then None
    else if |pieces| == 3 then
      Some(DecimalValue(pieces[0]) * 3600 + DecimalValue(pieces[1]) * 60 + DecimalValue(pieces[2]))
    else if |pieces| == 2 then
      Some(DecimalValue(pieces[0]) * 60 + DecimalValue(pieces[1]))
    else None
  }

  predicate NoColon(s: string) {
    forall i :: 0 <= i < |s| ==> s[i] != ':'
  }

  lemma DigitsHaveNoColon(s: string)
    requires AllDigits(s)
    ensures NoColon(s)
  {
    forall i | 0 <= i < |s| ensures s[i] != ':' {
      assert IsDigit(s[i]);
    }
  }

  /** Three colon-free groups joined by colons split back into those groups. */
  lemma {:induction false} SplitThree(a: string, b: string, c: string)
    requires NoColon(a) && NoColon(b) && NoColon(c)
    ensures Split(a + ":" + b + ":" + c, ':') == [a, b, c]
  {
    assert a + ":" + b + ":" + c == a + [':'] + (b + [':'] + c);
    SplitAt(a, b + [':'] + c, ':');
    SplitAt(b, c, ':');
    SplitNone(c, ':');
  }

  /** Two colon-free groups joined by a colon split back into those groups. */
  lemma {:induction false} SplitTwo(a: string, b: string)
    requires NoColon(a) && NoColon(b)
    ensures Split(a + ":" + b, ':') == [a, b]
  {
    assert a + ":" + b == a + [':'] + b;
    SplitAt(a, b, ':');
    SplitNone(b, ':');
  }

  /**
   * The shape of a shown duration: three groups with two-digit minutes and
   * seconds from one hour on, two groups with two-digit seconds below it,
   * and the leading group never has a leading zero unless it is zero itself.
   */
  lemma {:induction false} FormatDurationShape(totalSeconds: int)
    ensures var pieces := Split(FormatDuration(totalSeconds), ':');
            var hours := Max(0, totalSeconds) / 3600;
            (hours > 0 ==> |pieces| == 3 && |pieces[1]| == 2 && |pieces[2]| == 2 && pieces[0][0] != '0') &&
            (hours == 0 ==> |pieces| == 2 && |pieces[1]| == 2 && |pieces[0]| <= 2)
  {
    var (hours, minutes, seconds) := Components(totalSeconds);
    var m, s := Pad2(minutes), Pad2(seconds);
    DigitsHaveNoColon(m);
    DigitsHaveNoColon(s);
    if hours > 0 {
      var h := NatToDecimal(hours);
      DigitsHaveNoColon(h);
      SplitThree(h, m, s);
    } else {
      var mm := NatToDecimal(minutes);
      DigitsHaveNoColon(mm);
      DecimalLength(minutes);
      SplitTwo(mm, s);
    }
  }

  /** Reading a shown duration back gives the number of seconds, clamped at zero. */
  lemma {:induction false} FormatDurationRoundTrip(totalSeconds: int)
    ensures ParseDuration(FormatDuration(totalSeconds)) == Some(Max(0, totalSeconds))
  {
    var (hours, minutes, seconds) := Components(totalSeconds);
    var m, s := Pad2(minutes), Pad2(seconds);
    DigitsHaveNoColon(m);
    DigitsHaveNoColon(s);
    if hours > 0 {
      var h := NatToDecimal(hours);
      DigitsHaveNoColon(h);
      SplitThree(h, m, s);
      DecimalRoundTrip(hours);
      var pieces := [h, m, s];
      assert forall k :: 0 <= k < |pieces| ==> AllDigits(pieces[k]);
    } else {
      var mm := NatToDecimal(minutes);
      DigitsHaveNoColon(mm);
      SplitTwo(mm, s);
      DecimalRoundTrip(minutes);
      var pieces := [mm, s];
      assert forall k :: 0 <= k < |pieces| ==> AllDigits(pieces[k]);
    }
  }

  /** A negative duration is shown as zero minutes and zero seconds. */
  lemma NegativeShowsZero(totalSeconds: int)
    requires totalSeconds < 0
    ensures FormatDuration(totalSeconds) == "0:00"
  {
    assert NatToDecimal(0) == "0";
  }

  // ---------------------------------------------------------------------------
  // The main button

  /** `mainButtonTitle`: the label of the one button, by phase. */
  function MainButtonTitle(phase: AppPhase): string {
    match phase
    case Idle => "Ready to disconnect."
    case Disconnecting(_) => "End disconnect"
    case Aftermath(_) => "Back home"
  }

  /** The title tells the phases apart: two phases share a title exactly when they share a kind. */
  lemma TitleNamesPhaseKind(p: AppPhase, q: AppPhase)
    ensures MainButtonTitle(p) == MainButtonTitle(q) <==>
              (p.Idle? && q.Idle?) || (p.Disconnecting? && q.Disconnecting?) || (p.Aftermath? && q.Aftermath?)
  {
    assert MainButtonTitle(Idle)[0] == 'R';
    assert "End disconnect"[0] == 'E' && "Back home"[0] == 'B';
  }

  /** The phase a tap on the main button leads to, at `now`, with `sessionId` for a new session. */
  function TappedPhase(phase: AppPhase, sessionId: Uuid, now: int): AppPhase {
    match phase
    case Idle => StartedPhase(sessionId, now)
    case Disconnecting(_) => StoppedPhase(phase, now)
    case Aftermath(_) => Idle
  }

  /**
   * Taps walk the three phases in a cycle: idle starts a session, a session
   * ends in its aftermath, and the aftermath returns home.
   */
  lemma TapCycles(phase: AppPhase, sessionId: Uuid, now: int)
    ensures var next := TappedPhase(phase, sessionId, now);
            (phase.Idle? ==> next.Disconnecting?) &&
            (phase.Disconnecting? ==> next.Aftermath?) &&
            (phase.Aftermath? ==> next.Idle?)
  {
  }

  /**
   * A whole session seen from the button: started at `t1`, ended at `t2`,
   * then dismissed; the aftermath reports the session and its clamped length.
   */
  lemma {:induction false} SessionRoundTrip(sessionId: Uuid, other: Uuid, t1: int, t2: int, t3: int)
    ensures var started := TappedPhase(Idle, sessionId, t1);
            var ended := TappedPhase(started, other, t2);
            started == Disconnecting(DisconnectSession(sessionId, t1, 0)) &&
            ended == Aftermath(AftermathSummary(sessionId, t1, t2, Max(0, t2 - t1))) &&
            ended.summary.totalSeconds >= 0 &&
            TappedPhase(ended, other, t3) == Idle
  {
    var started := TappedPhase(Idle, sessionId, t1);
    assert started == Disconnecting(DisconnectSession(sessionId, t1, 0));
  }

  /**
   * `handleMainButtonTap`: starts a session when idle, ends it while
   * disconnecting, and returns home from the aftermath. Starting needs the
   * oracle draws the scheduler consumes.
   */
  method HandleMainButtonTap(controller: DisconnectController, sessionId: Uuid, now: int, draws: Draws)
    requires controller.Valid()
    requires controller.state.phase.Idle? ==>
               Ready(Plan(controller.scheduler.copy, controller.scheduler.config, 0, controller.logStore.UnreadCount(), draws),
                     controller.scheduler.config.maxScheduled)
    modifies controller, controller.state, controller.scheduler
    ensures controller.Valid()
    ensures controller.state.phase == TappedPhase(old(controller.state.phase), sessionId, now)
    ensures controller.state.notificationLog == old(controller.state.notificationLog)
    ensures controller.state.badgeCount == old(controller.state.badgeCount)
    ensures old(controller.state.phase).Idle? ==>
              controller.timerRunning &&
              controller.scheduler.scheduledIdentifiers == draws.identifiers[..controller.scheduler.config.maxScheduled] &&
              controller.scheduler.issued == old(controller.scheduler.issued) +
                Cancellation(old(controller.scheduler.scheduledIdentifiers)) + controller.scheduler.lastBatch
    ensures old(controller.state.phase).Disconnecting? ==>
              !controller.timerRunning && controller.scheduler.scheduledIdentifiers == [] &&
              controller.scheduler.issued == old(controller.scheduler.issued) +
                Cancellation(old(controller.scheduler.scheduledIdentifiers))
    ensures old(controller.state.phase).Aftermath? ==>
              controller.timerRunning == old(controller.timerRunning) &&
              controller.scheduler.scheduledIdentifiers == old(controller.scheduler.scheduledIdentifiers) &&
              controller.scheduler.issued == old(controller.scheduler.issued)
  {
    match controller.state.phase {
      case Idle =>
        controller.StartDisconnect(sessionId, now, draws);
      case Disconnecting(_) =>
        controller.StopDisconnect(now);
      case Aftermath(_) =>
        controller.FinishAftermathAndReturnHome();
    }
  }
}
