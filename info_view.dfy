/**
 * The line-based markdown reader of the information screen
 * (`MarkdownBlocksView.parse`): the text is cut into lines, every line is
 * trimmed, and each line either closes the open paragraph (a blank line),
 * becomes a heading or bullet of its own, or is added to the open paragraph.
 *
 * `Blocks` is the specification, one classified line at a time; `Parse` is
 * the loop over the lines with its two pieces of mutable state, the block
 * list and the paragraph buffer, and is proved to compute `Document`.
 */
module Markdown {
  import opened Wrappers
  import opened Text

  /** `Block.Kind`: what one rendered block is, with its text. */
  datatype Kind = H1(text: string) | H2(text: string) | Bullet(text: string) | Paragraph(text: string)

  // ---------------------------------------------------------------------------
  // Trimming with `.whitespaces`

  /** Foundation's `.whitespaces`: the space separators (category Zs) and the tab. */
  predicate IsBlank(c: char) {
    c == ' ' || c == '\t' || c == '\U{00A0}' || c == '\U{1680}' ||
    ('\U{2000}' <= c <= '\U{200A}') || c == '\U{202F}' || c == '\U{205F}' || c == '\U{3000}'
  }

  predicate AllBlank(s: string) {
    forall k :: 0 <= k < |s| ==> IsBlank(s[k])
  }

  /** A trimmed, non-empty text: it neither starts nor ends with a blank. */
  predicate Clean(t: string) {
    t != [] && !IsBlank(t[0]) && !IsBlank(t[|t| - 1])
  }

  /** Drops the blank characters at the start of `s`. */
  function TrimStart(s: string): (r: string)
    ensures |r| <= |s|
    decreases |s|
  {
    if s != [] && IsBlank(s[0]) then TrimStart(s[1..]) else s
  }

  /** Drops the blank characters at the end of `s`. */
  function TrimEnd(s: string): (r: string)
    ensures |r| <= |s|
    decreases |s|
  {
    if s != [] && IsBlank(s[|s| - 1]) then TrimEnd(s[..|s| - 1]) else s
  }

  /** `TrimStart` keeps a suffix that does not start with a blank, and drops only blanks. */
  lemma {:induction false} TrimStartShape(s: string)
    ensures var r := TrimStart(s);
            r == s[|s| - |r|..] && (r != [] ==> !IsBlank(r[0])) && AllBlank(s[..|s| - |r|])
    decreases |s|
  {
    if s != [] && IsBlank(s[0]) {
      TrimStartShape(s[1..]);
      var n := |s| - |TrimStart(s)|;
      assert forall k :: 1 <= k < n ==> s[..n][k] == s[1..][..n - 1][k - 1];
    }
  }

  /** `TrimEnd` keeps a prefix that does not end with a blank, and drops only blanks. */
  lemma {:induction false} TrimEndShape(s: string)
    ensures var r := TrimEnd(s);
            r == s[..|r|] && (r != [] ==> !IsBlank(r[|r| - 1])) && AllBlank(s[|r|..])
    decreases |s|
  {
    if s != [] && IsBlank(s[|s| - 1]) {
      var front := s[..|s| - 1];
      TrimEndShape(front);
      var m := |TrimEnd(s)|;
      assert forall k :: 0 <= k < |s| - 1 - m ==> s[m..][k] == front[m..][k];
    }
  }

  /** `trimmingCharacters(in: .whitespaces)`. */
  function Trim(s: string): (r: string)
    ensures |r| <= |s|
    ensures r != [] ==> Clean(r)
  {
    var t := TrimStart(s);
    TrimStartShape(s);
    TrimEndShape(t);
    var r := TrimEnd(t);
    assert r != [] ==> r[0] == t[0];
    r
  }

  lemma {:induction false} AllBlankConcat(a: string, b: string)
    requires AllBlank(a) && AllBlank(b)
    ensures AllBlank(a + b)
  {
    forall k | 0 <= k < |a + b|
      ensures IsBlank((a + b)[k])
    {
      if k < |a| {
        assert (a + b)[k] == a[k];
      } else {
        assert (a + b)[k] == b[k - |a|];
      }
    }
  }

  /**
   * `Trim(s)` is `s` without the blanks at either end: `s` is a blank run,
   * then the trimmed text, then another blank run; and it is empty exactly
   * when `s` is all blank.
   */
  lemma TrimDropsOnlyBlanks(s: string)
    ensures var r := Trim(s);
            exists i :: 0 <= i <= |s| - |r| && s[i..i + |r|] == r &&
              AllBlank(s[..i]) && AllBlank(s[i + |r|..])
    ensures Trim(s) == [] <==> AllBlank(s)
  {
    var t := TrimStart(s);
    var r := Trim(s);
    var i := |s| - |t|;
    TrimStartShape(s);
    TrimEndShape(t);
    assert s[i..i + |r|] == r;
    assert s[i + |r|..] == t[|r|..];
    if r == [] {
      assert t[0..] == t;
      AllBlankConcat(s[..i], t);
      assert s[..i] + t == s;
    } else {
      assert r[0] == s[i] && !IsBlank(s[i]);
    }
  }

  /** A text that neither starts nor ends with a blank is its own trimmed form. */
  lemma TrimClean(t: string)
    requires Clean(t)
    ensures Trim(t) == t
  {
    assert TrimStart(t) == t;
    assert TrimEnd(t) == t;
  }

  /** Trimming a trimmed line changes nothing. */
  lemma TrimIdempotent(s: string)
    ensures Trim(Trim(s)) == Trim(s)
  {
    if Trim(s) != [] {
      TrimClean(Trim(s));
    }
  }

  predicate HasPrefix(s: string, p: string) {
    |p| <= |s| && s[..|p|] == p
  }

  // ---------------------------------------------------------------------------
  // Lines

  /** The text with `"\r\n"` normalised to `"\n"`, split at every `"\n"` keeping empty lines. */
  function Lines(md: string): (lines: seq<string>)
    ensures |lines| > 0
    ensures Join(lines, '\n') == ReplaceAll(md, "\r\n", "\n")
  {
    var normalized := ReplaceAll(md, "\r\n", "\n");
    SplitJoin(normalized, '\n');
    Split(normalized, '\n')
  }

  /** A line that contains no line-break character. */
  predicate IsLineText(a: string) {
    forall i :: 0 <= i < |a| ==> a[i] != '\r' && a[i] != '\n'
  }

  /** A line ended by `"\r\n"` and one ended by `"\n"` are read the same way. */
  lemma {:induction false} LineBreaksAgree(a: string, rest: string)
    requires IsLineText(a)
    ensures Lines(a + "\r\n" + rest) == Lines(a + "\n" + rest) == [a] + Lines(rest)
  {
    var pat, rep := "\r\n", "\n";
    var tail := ReplaceAll(rest, pat, rep);
    calc {
      ReplaceAll(a + "\r\n" + rest, pat, rep);
      { assert a + "\r\n" + rest == a + (pat + rest);
        ReplaceAllPrefix(a, pat + rest, pat, rep); }
      a + ReplaceAll(pat + rest, pat, rep);
      { ReplaceAllLeading(rest, pat, rep); }
      a + "\n" + tail;
    }
    calc {
      ReplaceAll(a + "\n" + rest, pat, rep);
      { ReplaceAllPrefix(a + "\n", rest, pat, rep); }
      a + "\n" + tail;
    }
    SplitAt(a, tail, '\n');
  }

  // ---------------------------------------------------------------------------
  // Paragraphs

  /** The buffered lines, trimmed, with the empty ones dropped. */
  function Cleaned(buffer: seq<string>): (parts: seq<string>)
    ensures |parts| <= |buffer|
    ensures forall k :: 0 <= k < |parts| ==> Clean(parts[k])
  {
    if buffer == [] then []
    else
      var last := Trim(buffer[|buffer| - 1]);
      Cleaned(buffer[..|buffer| - 1]) + (if last == [] then [] else [last])
  }

  /** The paragraph text `flushParagraph` builds: the non-empty trimmed lines joined by single spaces. */
  function ParagraphText(buffer: seq<string>): (text: string)
    ensures text == [] <==> Cleaned(buffer) == []
    ensures text != [] ==> Clean(text)
  {
    var parts := Cleaned(buffer);
    if parts == [] then []
    else
      var text := Join(parts, ' ');
      var first, last := parts[0], parts[|parts| - 1];
      JoinEnds(parts, ' ');
      assert Clean(first) && Clean(last);
      assert text[0] == text[..|first|][0] == first[0];
      assert text[|text| - 1] == text[|text| - |last|..][|last| - 1] == last[|last| - 1];
      text
  }

  /** The blocks `flushParagraph` appends: one paragraph, or none when its text is empty. */
  function Flushed(buffer: seq<string>): (blocks: seq<Kind>)
    ensures blocks == [] || (|blocks| == 1 && blocks[0].Paragraph? && Clean(blocks[0].text))
    ensures blocks == [] <==> Cleaned(buffer) == []
  {
    var text := ParagraphText(buffer);
    if text == [] then [] else [Paragraph(text)]
  }

  // ---------------------------------------------------------------------------
  // Headings and bullets

  /** The heading or bullet a trimmed line stands for, if it starts with `"# "`, `"## "` or `"- "`. */
  function Marker(line: string): (m: Option<Kind>)
    ensures m.Some? <==> HasPrefix(line, "# ") || HasPrefix(line, "## ") || HasPrefix(line, "- ")
    ensures m.Some? ==> !m.value.Paragraph? && HasPrefix(line, Prefix(m.value))
    ensures m.Some? ==> line == Prefix(m.value) + m.value.text
  {
    if HasPrefix(line, "# ") then Some(H1(line[2..]))
    else if HasPrefix(line, "## ") then Some(H2(line[3..]))
    else if HasPrefix(line, "- ") then Some(Bullet(line[2..]))
    else None
  }

  /** The markdown marker that introduces a block (none for a paragraph). */
  function Prefix(b: Kind): string {
    match b
    case H1(_) => "# "
    case H2(_) => "## "
    case Bullet(_) => "- "
    case Paragraph(_) => ""
  }

  // ---------------------------------------------------------------------------
  // The parser, as a specification

  /** What one line of the text is, once trimmed. */
  datatype Line = Blank | Marked(block: Kind) | Plain(text: string)

  /** Reads one raw line: blank, a heading or bullet, or plain paragraph text. */
  function Classify(raw: string): (l: Line)
    ensures l.Blank? <==> Trim(raw) == []
    ensures l.Plain? ==> l.text == Trim(raw) && Clean(l.text) && Marker(l.text).None?
    ensures l.Marked? ==> Marker(Trim(raw)) == Some(l.block) && !l.block.Paragraph?
  {
    var line := Trim(raw);
    if line == [] then Blank
    else
      match Marker(line)
      case Some(b) => Marked(b)
      case None => Plain(line)
  }

  /** Marked lines carry headings and bullets, never paragraphs. */
  predicate MarkersOnly(ls: seq<Line>) {
    forall k :: 0 <= k < |ls| && ls[k].Marked? ==> !ls[k].block.Paragraph?
  }

  function Classified(lines: seq<string>): (ls: seq<Line>)
    ensures |ls| == |lines| && forall k :: 0 <= k < |lines| ==> ls[k] == Classify(lines[k])
    ensures MarkersOnly(ls)
  {
    if lines == [] then [] else [Classify(lines[0])] + Classified(lines[1..])
  }

  /** The blocks one line appends when `buffer` holds the open paragraph. */
  function Emitted(l: Line, buffer: seq<string>): seq<Kind> {
    match l
    case Blank => Flushed(buffer)
    case Marked(b) => Flushed(buffer) + [b]
    case Plain(_) => []
  }

  /** The open paragraph after one line. */
  function Pending(l: Line, buffer: seq<string>): seq<string> {
    match l
    case Plain(t) => buffer + [t]
    case _ => []
  }

  /**
   * The blocks produced by the classified lines `ls` when `buffer` holds the
   * lines of the paragraph still open; the paragraph left open at the end is
   * flushed.
   */
  function Blocks(ls: seq<Line>, buffer: seq<string>): seq<Kind>
    decreases |ls|
  {
    if ls == [] then Flushed(buffer)
    else Emitted(ls[0], buffer) + Blocks(ls[1..], Pending(ls[0], buffer))
  }

  /** The blocks of a whole document. */
  function Document(md: string): seq<Kind> {
    Blocks(Classified(Lines(md)), [])
  }

  // ---------------------------------------------------------------------------
  // The parser, as the loop it is

  /** `parse`: walks the lines once, appending to the block list and the paragraph buffer. */
  method Parse(md: string) returns (blocks: seq<Kind>)
    ensures blocks == Document(md)
  {
    var lines := Lines(md);
    ghost var ls, document := Classified(lines), Document(md);
    blocks := [];
    var paragraphBuffer: seq<string> := [];
    assert ls[0..] == ls;
    for i := 0 to |lines|
      invariant blocks + Blocks(ls[i..], paragraphBuffer) == document
    {
      ghost var before, buffer, l := blocks, paragraphBuffer, Classify(lines[i]);
      ParseAdvance(ls, i, before, buffer, document);
      var line := Trim(lines[i]);
      if line == [] {
        assert l == Blank;
        blocks, paragraphBuffer := FlushParagraph(blocks, paragraphBuffer);
        assert Emitted(l, buffer) == Flushed(buffer);
      } else if HasPrefix(line, "# ") {
        assert l == Marked(H1(line[2..]));
        blocks, paragraphBuffer := FlushParagraph(blocks, paragraphBuffer);
        blocks := blocks + [H1(line[2..])];
        AppendStep(before, Flushed(buffer), [H1(line[2..])]);
      } else if HasPrefix(line, "## ") {
        assert l == Marked(H2(line[3..]));
        blocks, paragraphBuffer := FlushParagraph(blocks, paragraphBuffer);
        blocks := blocks + [H2(line[3..])];
        AppendStep(before, Flushed(buffer), [H2(line[3..])]);
      } else if HasPrefix(line, "- ") {
        assert l == Marked(Bullet(line[2..]));
        blocks, paragraphBuffer := FlushParagraph(blocks, paragraphBuffer);
        blocks := blocks + [Bullet(line[2..])];
        AppendStep(before, Flushed(buffer), [Bullet(line[2..])]);
      } else {
        assert l == Plain(line);
        paragraphBuffer := paragraphBuffer + [line];
        assert before + Emitted(l, buffer) == before + [];
      }
      assert blocks == before + Emitted(l, buffer);
      assert paragraphBuffer == Pending(l, buffer);
    }
    assert ls[|lines|..] == [];
    blocks, paragraphBuffer := FlushParagraph(blocks, paragraphBuffer);
  }

  /** One step of `Parse`: the line at `i` moves from the pending input to the output. */
  lemma ParseAdvance(ls: seq<Line>, i: nat, before: seq<Kind>, buffer: seq<string>, document: seq<Kind>)
    requires i < |ls|
    requires before + Blocks(ls[i..], buffer) == document
    ensures (before + Emitted(ls[i], buffer)) + Blocks(ls[i + 1..], Pending(ls[i], buffer)) == document
  {
    assert ls[i..][1..] == ls[i + 1..];
    var emitted, later := Emitted(ls[i], buffer), Blocks(ls[i + 1..], Pending(ls[i], buffer));
    assert Blocks(ls[i..], buffer) == emitted + later;
    assert before + (emitted + later) == (before + emitted) + later;
  }

  /** Regrouping used by each step of `Parse`. */
  lemma AppendStep(before: seq<Kind>, middle: seq<Kind>, after: seq<Kind>)
    ensures before + (middle + after) == (before + middle) + after
  {
  }

  /** `flushParagraph`: moves the open paragraph, if it has any text, onto the block list. */
  method FlushParagraph(blocks: seq<Kind>, paragraphBuffer: seq<string>)
    returns (blocks': seq<Kind>, paragraphBuffer': seq<string>)
    ensures paragraphBuffer' == []
    ensures blocks' == blocks + Flushed(paragraphBuffer)
    ensures |blocks'| <= |blocks| + 1
  {
    var text := ParagraphText(paragraphBuffer);
    blocks' := blocks;
    if text != [] {
      blocks' := blocks' + [Paragraph(text)];
    }
    paragraphBuffer' := [];
  }

  // ---------------------------------------------------------------------------
  // Properties

  /** Every paragraph produced has text, with no blank at either end. */
  lemma {:induction false} NoEmptyParagraph(ls: seq<Line>, buffer: seq<string>)
    requires MarkersOnly(ls)
    ensures forall b :: b in Blocks(ls, buffer) && b.Paragraph? ==> Clean(b.text)
    decreases |ls|
  {
    if ls != [] {
      NoEmptyParagraph(ls[1..], Pending(ls[0], buffer));
    }
  }

  /** The headings and bullets of a block list, in order. */
  function Markers(blocks: seq<Kind>): (ms: seq<Kind>)
    ensures |ms| <= |blocks|
    ensures forall b :: b in ms ==> b in blocks && !b.Paragraph?
  {
    if blocks == [] then []
    else (if blocks[0].Paragraph? then [] else [blocks[0]]) + Markers(blocks[1..])
  }

  lemma {:induction false} MarkersAppend(a: seq<Kind>, b: seq<Kind>)
    ensures Markers(a + b) == Markers(a) + Markers(b)
    decreases |a|
  {
    if a != [] {
      assert (a + b)[1..] == a[1..] + b;
      MarkersAppend(a[1..], b);
    } else {
      assert a + b == b;
    }
  }

  /** The heading or bullet of each marked line, in line order. */
  function MarkedLines(ls: seq<Line>): seq<Kind> {
    if ls == [] then []
    else (if ls[0].Marked? then [ls[0].block] else []) + MarkedLines(ls[1..])
  }

  /** A paragraph flush contributes no heading or bullet. */
  lemma FlushedHasNoMarkers(buffer: seq<string>)
    ensures Markers(Flushed(buffer)) == []
  {
    var flushed := Flushed(buffer);
    if flushed != [] {
      assert flushed[1..] == [];
    }
  }

  /** One line contributes its own heading or bullet, and no other. */
  lemma MarkersEmitted(l: Line, buffer: seq<string>)
    requires l.Marked? ==> !l.block.Paragraph?
    ensures Markers(Emitted(l, buffer)) == if l.Marked? then [l.block] else []
  {
    FlushedHasNoMarkers(buffer);
    if l.Marked? {
      MarkersAppend(Flushed(buffer), [l.block]);
      assert [l.block][1..] == [];
    }
  }

  /**
   * The headings and bullets of the output are exactly the marked lines, in
   * source-line order: paragraphs never swallow or reorder them.
   */
  lemma {:induction false} MarkersInLineOrder(ls: seq<Line>, buffer: seq<string>)
    requires MarkersOnly(ls)
    ensures Markers(Blocks(ls, buffer)) == MarkedLines(ls)
    decreases |ls|
  {
    if ls == [] {
      FlushedHasNoMarkers(buffer);
    } else {
      MarkersEmitted(ls[0], buffer);
      MarkersInLineOrder(ls[1..], Pending(ls[0], buffer));
      MarkersAppend(Emitted(ls[0], buffer), Blocks(ls[1..], Pending(ls[0], buffer)));
    }
  }

  /** The headings and bullets of a document are those of its marked lines, in order. */
  lemma DocumentMarkers(md: string)
    ensures Markers(Document(md)) == MarkedLines(Classified(Lines(md)))
  {
    MarkersInLineOrder(Classified(Lines(md)), []);
  }

  /** How many blocks are introduced by the marker `p`. */
  function CountBlocks(blocks: seq<Kind>, p: string): (n: nat)
    ensures n <= |blocks|
  {
    if blocks == [] then 0
    else (if Prefix(blocks[0]) == p then 1 else 0) + CountBlocks(blocks[1..], p)
  }

  /** How many lines start with the marker `p` once trimmed. */
  function CountLines(lines: seq<string>, p: string): (n: nat)
    ensures n <= |lines|
  {
    if lines == [] then 0
    else (if HasPrefix(Trim(lines[0]), p) then 1 else 0) + CountLines(lines[1..], p)
  }

  lemma {:induction false} CountBlocksAppend(a: seq<Kind>, b: seq<Kind>, p: string)
    ensures CountBlocks(a + b, p) == CountBlocks(a, p) + CountBlocks(b, p)
    decreases |a|
  {
    if a != [] {
      assert (a + b)[1..] == a[1..] + b;
      CountBlocksAppend(a[1..], b, p);
    } else {
      assert a + b == b;
    }
  }

  /** The three markers exclude one another, so a line counts for its own marker only. */
  lemma MarkerCountsOnce(raw: string, p: string)
    requires p in {"# ", "## ", "- "}
    ensures Classify(raw).Marked? ==> (Prefix(Classify(raw).block) == p <==> HasPrefix(Trim(raw), p))
    ensures !Classify(raw).Marked? ==> !HasPrefix(Trim(raw), p)
  {
    var line := Trim(raw);
    if HasPrefix(line, "## ") {
      assert line[1] == '#';
      assert !HasPrefix(line, "# ");
    }
    if HasPrefix(line, "# ") {
      assert line[0] == '#';
      assert !HasPrefix(line, "- ");
    }
  }

  /** A paragraph flush adds no heading or bullet. */
  lemma FlushedCountsNothing(buffer: seq<string>, p: string)
    requires p != ""
    ensures CountBlocks(Flushed(buffer), p) == 0
  {
    var flushed := Flushed(buffer);
    if flushed != [] {
      assert flushed[1..] == [];
    }
  }

  /** One raw line adds a block introduced by `p` exactly when it starts with `p` once trimmed. */
  lemma CountEmitted(raw: string, buffer: seq<string>, p: string)
    requires p in {"# ", "## ", "- "}
    ensures CountBlocks(Emitted(Classify(raw), buffer), p) == if HasPrefix(Trim(raw), p) then 1 else 0
  {
    var l := Classify(raw);
    MarkerCountsOnce(raw, p);
    FlushedCountsNothing(buffer, p);
    if l.Marked? {
      CountBlocksAppend(Flushed(buffer), [l.block], p);
      assert [l.block][1..] == [];
    }
  }

  /**
   * There are as many `h1` (`h2`, bullet) blocks as lines starting with
   * `"# "` (`"## "`, `"- "`) once trimmed.
   */
  lemma {:induction false} MarkerCounts(lines: seq<string>, buffer: seq<string>, p: string)
    requires p in {"# ", "## ", "- "}
    ensures CountBlocks(Blocks(Classified(lines), buffer), p) == CountLines(lines, p)
    decreases |lines|
  {
    var ls := Classified(lines);
    if lines == [] {
      var flushed := Flushed(buffer);
      if flushed != [] {
        assert flushed[1..] == [];
      }
    } else {
      assert ls[1..] == Classified(lines[1..]);
      var l := ls[0];
      CountEmitted(lines[0], buffer, p);
      MarkerCounts(lines[1..], Pending(l, buffer), p);
      CountBlocksAppend(Emitted(l, buffer), Blocks(ls[1..], Pending(l, buffer)), p);
    }
  }

  /** The texts of plain lines. */
  function Texts(ls: seq<Line>): (ts: seq<string>)
    requires forall k :: 0 <= k < |ls| ==> ls[k].Plain?
    ensures |ts| == |ls| && forall k :: 0 <= k < |ls| ==> ts[k] == ls[k].text
  {
    if ls == [] then [] else [ls[0].text] + Texts(ls[1..])
  }

  /** Plain lines are only collected: they produce no block until the paragraph closes. */
  lemma {:induction false} PlainLinesCollect(plain: seq<Line>, rest: seq<Line>, buffer: seq<string>)
    requires forall k :: 0 <= k < |plain| ==> plain[k].Plain?
    ensures Blocks(plain + rest, buffer) == Blocks(rest, buffer + Texts(plain))
    decreases |plain|
  {
    if plain == [] {
      assert plain + rest == rest;
      assert buffer + Texts(plain) == buffer;
    } else {
      var ls := plain + rest;
      assert ls[0] == plain[0];
      assert ls[1..] == plain[1..] + rest;
      PlainLinesCollect(plain[1..], rest, buffer + [plain[0].text]);
      assert buffer + [plain[0].text] + Texts(plain[1..]) == buffer + Texts(plain);
    }
  }

  /** Texts that are already trimmed and non-empty come through `Cleaned` unchanged. */
  lemma {:induction false} CleanedKeepsCleanTexts(ts: seq<string>)
    requires forall k :: 0 <= k < |ts| ==> Clean(ts[k])
    ensures Cleaned(ts) == ts
    decreases |ts|
  {
    if ts != [] {
      var n := |ts| - 1;
      var last := ts[n];
      TrimClean(last);
      calc {
        Cleaned(ts);
        Cleaned(ts[..n]) + [last];
        { CleanedKeepsCleanTexts(ts[..n]); }
        ts[..n] + [last];
        ts;
      }
    }
  }

  lemma TextsClean(plain: seq<Line>)
    requires forall k :: 0 <= k < |plain| ==> plain[k].Plain? && Clean(plain[k].text)
    ensures forall k :: 0 <= k < |Texts(plain)| ==> Clean(Texts(plain)[k])
  {
  }

  /** Consecutive plain lines, then a blank line, make one paragraph: their texts joined by single spaces. */
  lemma PlainLinesJoin(plain: seq<Line>, rest: seq<Line>)
    requires plain != []
    requires forall k :: 0 <= k < |plain| ==> plain[k].Plain? && Clean(plain[k].text)
    ensures Blocks(plain + [Blank] + rest, []) == [Paragraph(Join(Texts(plain), ' '))] + Blocks(rest, [])
  {
    TextsClean(plain);
    var ts := Texts(plain);
    FlushedCleanTexts(ts);
    assert plain + [Blank] + rest == plain + ([Blank] + rest);
    PlainLinesCollect(plain, [Blank] + rest, []);
    assert [] + ts == ts;
    assert ([Blank] + rest)[1..] == rest;
  }

  /** Plain lines at the end of the input make one paragraph, flushed when the input ends. */
  lemma PlainLinesAtEnd(plain: seq<Line>)
    requires plain != []
    requires forall k :: 0 <= k < |plain| ==> plain[k].Plain? && Clean(plain[k].text)
    ensures Blocks(plain, []) == [Paragraph(Join(Texts(plain), ' '))]
  {
    TextsClean(plain);
    var ts := Texts(plain);
    PlainLinesCollect(plain, [], []);
    assert plain + [] == plain;
    assert [] + ts == ts;
    FlushedCleanTexts(ts);
  }

  /** Clean texts flushed together make one paragraph: the texts joined by single spaces. */
  lemma FlushedCleanTexts(ts: seq<string>)
    requires ts != [] && forall k :: 0 <= k < |ts| ==> Clean(ts[k])
    ensures Flushed(ts) == [Paragraph(Join(ts, ' '))]
  {
    CleanedKeepsCleanTexts(ts);
  }

  /**
   * A blank line between two runs of plain lines closes the first paragraph:
   * two paragraphs come out (compare `PlainLinesAtEnd` on `a + b`, which
   * makes one).
   */
  lemma BlankLineSeparates(a: seq<Line>, b: seq<Line>)
    requires a != [] && b != []
    requires forall k :: 0 <= k < |a| ==> a[k].Plain? && Clean(a[k].text)
    requires forall k :: 0 <= k < |b| ==> b[k].Plain? && Clean(b[k].text)
    ensures Blocks(a + [Blank] + b, []) == [Paragraph(Join(Texts(a), ' ')), Paragraph(Join(Texts(b), ' '))]
  {
    PlainLinesJoin(a, b);
    PlainLinesAtEnd(b);
  }

  /** The last block is a paragraph whose text ends with `t`. */
  predicate EndsWithParagraphOf(blocks: seq<Kind>, t: string) {
    blocks != [] && blocks[|blocks| - 1].Paragraph? &&
    |t| <= |blocks[|blocks| - 1].text| &&
    blocks[|blocks| - 1].text[|blocks[|blocks| - 1].text| - |t|..] == t
  }

  lemma EndsWithParagraphAppend(front: seq<Kind>, tail: seq<Kind>, t: string)
    requires EndsWithParagraphOf(tail, t)
    ensures EndsWithParagraphOf(front + tail, t)
  {
    assert (front + tail)[|front + tail| - 1] == tail[|tail| - 1];
  }

  /** Flushing a paragraph whose last line is `t` gives a paragraph ending with `t`. */
  lemma FlushEndsWith(buffer: seq<string>, t: string)
    requires Clean(t)
    ensures EndsWithParagraphOf(Flushed(buffer + [t]), t)
  {
    var buf := buffer + [t];
    assert buf[..|buf| - 1] == buffer;
    TrimClean(t);
    var parts := Cleaned(buf);
    assert parts == Cleaned(buffer) + [t];
    JoinEnds(parts, ' ');
    assert Flushed(buf) == [Paragraph(Join(parts, ' '))];
  }

  /** The base case: a plain line alone ends the output with its paragraph. */
  lemma LastLinePlain(l: Line, buffer: seq<string>)
    requires l.Plain? && Clean(l.text)
    ensures EndsWithParagraphOf(Blocks([l], buffer), l.text)
  {
    assert [l][1..] == [];
    var flushed := Blocks([], buffer + [l.text]);
    assert Blocks([l], buffer) == [] + flushed;
    assert [] + flushed == flushed;
    FlushEndsWith(buffer, l.text);
  }

  /** When the last line is plain, the output ends with the paragraph that line closes at end of input. */
  lemma {:induction false} TrailingParagraphFlushed(ls: seq<Line>, buffer: seq<string>)
    requires ls != [] && ls[|ls| - 1].Plain? && Clean(ls[|ls| - 1].text)
    ensures EndsWithParagraphOf(Blocks(ls, buffer), ls[|ls| - 1].text)
    decreases |ls|
  {
    var t := ls[|ls| - 1].text;
    if |ls| == 1 {
      assert ls == [ls[0]];
      LastLinePlain(ls[0], buffer);
    } else {
      var tail := Blocks(ls[1..], Pending(ls[0], buffer));
      assert ls[1..][|ls[1..]| - 1] == ls[|ls| - 1];
      TrailingParagraphFlushed(ls[1..], Pending(ls[0], buffer));
      EndsWithParagraphAppend(Emitted(ls[0], buffer), tail, t);
    }
  }
}
