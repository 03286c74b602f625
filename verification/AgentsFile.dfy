/** The managed section of AGENTS.md: re-running the merge changes nothing more. */
module AgentsFile {
  import opened Text
  import opened Markers

  // The start marker, in pieces: "<" occurs in it only once, and it has no newline.
  const START_1: string := "!-- >>> rsry beads "
  const START_2: string := "(managed by `rsry init` "
  const START_3: string := "— edit outside "
  const START_4: string := "these markers) >>>"
  const MARKER_START: string := "<" + ((START_1 + START_2) + (START_3 + START_4))
  const MARKER_END: string := "<!-- <<< rsry beads <<< -->"
  const BD_START_1: string := "!-- BEGIN BEADS "
  const BD_START_2: string := "INTEGRATION -->"
  const BD_BLOCK_START: string := "<" + (BD_START_1 + BD_START_2)
  const BD_END_1: string := "!-- END BEADS "
  const BD_END_2: string := "INTEGRATION -->"
  const BD_BLOCK_END: string := "<" + (BD_END_1 + BD_END_2)

  datatype Outcome = Created | SectionUpdated | ReplacedBdBlock | AppendedSection | Unchanged

  /** What lies between the markers, newlines included; the embedded template is a parameter. */
  function Inside(template: string): string {
    "\n" + TrimEnd(template) + "\n"
  }

  function Block(template: string): string {
    MARKER_START + (Inside(template) + MARKER_END + "\n")
  }

  /** End of the span opened at `from`: just after the end marker and one newline, or the end of the text. */
  function SpanEnd(s: string, from: nat, endMarker: string): (e: nat)
    requires from <= |s|
    ensures from <= e <= |s|
  {
    match FindFrom(s, endMarker, from)
    case Some(i) =>
      var e := i + |endMarker|;
      if e < |s| && s[e] == '\n' then e + 1 else e
    case None => |s|
  }

  function Merged(template: string, existing: Option<string>): string {
    var block := Block(template);
    match existing
    case None => block
    case Some(s) =>
      match Find(s, MARKER_START)
      case Some(start) => s[..start] + (block + s[SpanEnd(s, start + |MARKER_START|, MARKER_END)..])
      case None =>
        match Find(s, BD_BLOCK_START)
        case Some(start) => s[..start] + (block + s[SpanEnd(s, start, BD_BLOCK_END)..])
        case None => Separated(s) + block
  }

  /** The text, ended by a newline, then a blank line. */
  function Separated(s: string): string {
    if s != "" && s[|s| - 1] == '\n' then s + "\n" else s + "\n" + "\n"
  }

  function OutcomeOf(template: string, existing: Option<string>): Outcome {
    match existing
    case None => Created
    case Some(s) =>
      if Find(s, MARKER_START).Some? then (if Merged(template, existing) == s then Unchanged else SectionUpdated)
      else if Find(s, BD_BLOCK_START).Some? then ReplacedBdBlock
      else AppendedSection
  }

  /** What the outcome says of the file that was there. */
  lemma OutcomeMeans(template: string, existing: Option<string>)
    ensures var o := OutcomeOf(template, existing);
            && (o == Created <==> existing.None?)
            && (o == Unchanged <==>
                  existing.Some? && Contains(existing.value, MARKER_START)
                  && Merged(template, existing) == existing.value)
            && (o == SectionUpdated <==>
                  existing.Some? && Contains(existing.value, MARKER_START)
                  && Merged(template, existing) != existing.value)
            && (o == ReplacedBdBlock <==>
                  existing.Some? && !Contains(existing.value, MARKER_START) && Contains(existing.value, BD_BLOCK_START))
  {
    if existing.Some? {
      FindSpec(existing.value, MARKER_START);
      FindSpec(existing.value, BD_BLOCK_START);
    }
  }

  /** The block is the template, trimmed at its end, on lines of its own between the markers. */
  lemma BlockReads(template: string)
    ensures Block(template) == MARKER_START + "\n" + TrimEnd(template) + "\n" + MARKER_END + "\n"
  {
    Regroup(MARKER_START, TrimEnd(template), MARKER_END);
  }

  lemma Regroup(head: string, inside: string, tail: string)
    ensures head + ("\n" + inside + "\n" + tail + "\n") == head + "\n" + inside + "\n" + tail + "\n"
  {
  }

  /** Appending leaves one empty line between the old text and the block. */
  lemma SeparatedReads(s: string)
    ensures s != "" && s[|s| - 1] == '\n' ==> Separated(s) == s + "\n"
    ensures s == "" || s[|s| - 1] != '\n' ==> Separated(s) == s + ("\n" + "\n")
  {
  }

  method ManagedBlock(template: string) returns (b: string)
    ensures b == Block(template)
  {
    b := MARKER_START;
    b := b + "\n";
    b := b + TrimEnd(template);
    b := b + "\n";
    b := b + MARKER_END;
    b := b + "\n";
    assert b == MARKER_START + (Inside(template) + MARKER_END + "\n");
  }

  method Splice(s: string, start: nat, tailStart: nat, block: string) returns (next: string)
    requires start <= |s| && tailStart <= |s|
    ensures next == s[..start] + (block + s[tailStart..])
  {
    next := s[..start];
    next := next + block;
    next := next + s[tailStart..];
    assert next == s[..start] + (block + s[tailStart..]);
  }

  method MergeAgents(template: string, existing: Option<string>) returns (next: string, outcome: Outcome)
    ensures next == Merged(template, existing) && outcome == OutcomeOf(template, existing)
  {
    var block := ManagedBlock(template);
    if existing == None {
      return block, Created;
    }
    var s := existing.value;
    var ours := Find(s, MARKER_START);
    if ours.Some? {
      var tailStart := SpanEnd(s, ours.value + |MARKER_START|, MARKER_END);
      next := Splice(s, ours.value, tailStart, block);
      outcome := if next == s then Unchanged else SectionUpdated;
      return;
    }
    var theirs := Find(s, BD_BLOCK_START);
    if theirs.Some? {
      var tailStart := SpanEnd(s, theirs.value, BD_BLOCK_END);
      BlockTrims(template);
      next := Splice(s, theirs.value, tailStart, TrimEnd(block) + "\n");
      return next, ReplacedBdBlock;
    }
    next := s;
    if next == "" || next[|next| - 1] != '\n' {
      next := next + "\n";
    }
    next := next + "\n";
    next := next + block;
    outcome := AppendedSection;
  }

  lemma BlockTrims(template: string)
    ensures TrimEnd(Block(template)) + "\n" == Block(template)
  {
    var body := MARKER_START + (Inside(template) + MARKER_END);
    assert Block(template) == body + "\n";
    assert body[|body| - 1] == MARKER_END[|MARKER_END| - 1] == '>';
    assert (body + "\n")[..|body + "\n"| - 1] == body;
    assert TrimEnd(body) == body;
  }

  // ----- The section is first and whole after a merge -----

  lemma MarkerShapes()
    ensures MARKER_START != "" && MARKER_START[0] !in MARKER_START[1..] && NoNewline(MARKER_START)
    ensures MARKER_END != "" && NoNewline(MARKER_END)
  {
    StartPieces();
    EndPiece();
    assert MARKER_START[1..] == (START_1 + START_2) + (START_3 + START_4);
  }

  lemma StartPieces()
    ensures '<' !in (START_1 + START_2) + (START_3 + START_4)
    ensures '\n' !in (START_1 + START_2) + (START_3 + START_4)
  {
    Piece1();
    Piece2();
    Piece3();
    Piece4();
  }

  lemma Piece1()
    ensures '<' !in START_1 && '\n' !in START_1
  {
  }

  lemma Piece2()
    ensures '<' !in START_2 && '\n' !in START_2
  {
  }

  lemma Piece3()
    ensures '<' !in START_3 && '\n' !in START_3
  {
  }

  lemma Piece4()
    ensures '<' !in START_4 && '\n' !in START_4
  {
  }

  lemma EndPiece()
    ensures '\n' !in MARKER_END
  {
  }

  /** After a merge the text is `pre + block + tail`, with the start marker first at the block. */
  ghost predicate Sectioned(template: string, s: string, pre: string, tail: string) {
    s == pre + (Block(template) + tail) && FirstAt(s, MARKER_START, |pre|)
  }

  /** The block after its start marker, followed by `tail`. */
  function AfterStart(template: string, tail: string): string {
    Inside(template) + MARKER_END + "\n" + tail
  }

  lemma SectionedIf(template: string, pre: string, tail: string)
    requires FirstAt(pre + (MARKER_START + AfterStart(template, tail)), MARKER_START, |pre|)
    ensures Sectioned(template, pre + (Block(template) + tail), pre, tail)
  {
    assert Block(template) + tail == MARKER_START + AfterStart(template, tail);
  }

  lemma SectionReplaced(template: string, s: string, start: nat)
    requires FirstAt(s, MARKER_START, start)
    ensures var end := SpanEnd(s, start + |MARKER_START|, MARKER_END);
            Sectioned(template, s[..start] + (Block(template) + s[end..]), s[..start], s[end..])
  {
    var tail := s[SpanEnd(s, start + |MARKER_START|, MARKER_END)..];
    MarkerStaysFirst(s, MARKER_START, start, AfterStart(template, tail));
    SectionedIf(template, s[..start], tail);
  }

  lemma BdBlockReplaced(template: string, s: string, start: nat, tail: string)
    requires !Contains(s, MARKER_START) && start <= |s|
    ensures Sectioned(template, s[..start] + (Block(template) + tail), s[..start], tail)
  {
    MarkerShapes();
    NotInPrefix(s, MARKER_START, start);
    FirstByHead(s[..start], MARKER_START, AfterStart(template, tail));
    SectionedIf(template, s[..start], tail);
  }

  lemma SectionAppended(template: string, pre: string)
    requires !Contains(pre, MARKER_START) && (pre == "" || pre[|pre| - 1] == '\n')
    ensures Sectioned(template, pre + (Block(template) + ""), pre, "")
  {
    MarkerShapes();
    FirstAfterNewline(pre, MARKER_START, AfterStart(template, ""));
    SectionedIf(template, pre, "");
  }

  // ----- What a merge replaces -----

  /** The span is n characters long, and takes in one newline that follows if there is one. */
  ghost predicate Closes(span: string, tail: string, n: nat) {
    || (|span| == n && (tail == "" || tail[0] != '\n'))
    || (|span| == n + 1 && span[n] == '\n')
  }

  /** The span, whose first n characters precede `rest`, ends as the first `close` in `rest` says, or with the text. */
  ghost predicate Bounded(span: string, tail: string, n: nat, rest: string, close: string) {
    && (!Contains(rest, close) ==> tail == "")
    && forall i: nat :: FirstAt(rest, close, i) ==> Closes(span, tail, n + i + |close|)
  }

  /**
   * `s` is `pre`, `span` and `tail`, where `span` opens with the first `open` of `s` and closes with the first
   * `close` behind that and one newline; without such a `close` it takes in everything to the end of `s`.
   */
  ghost predicate Spans(s: string, pre: string, span: string, tail: string, open: string, close: string) {
    && s == pre + (span + tail) && FirstAt(s, open, |pre|) && open <= span
    && Bounded(span, tail, |open|, (span + tail)[|open|..], close)
  }

  /**
   * What a merge keeps: all but our section; or, when there is none, all but bd's block; or, when there is neither,
   * the whole text, ended by a newline and a blank line.
   */
  ghost predicate KeepsOutside(s: string, pre: string, tail: string) {
    if Contains(s, MARKER_START) then exists span :: Spans(s, pre, span, tail, MARKER_START, MARKER_END)
    else if Contains(s, BD_BLOCK_START) then exists span :: Spans(s, pre, span, tail, BD_BLOCK_START, BD_BLOCK_END)
    else pre == Separated(s) && tail == ""
  }

  /** Searching `s` from n on is searching what follows n. */
  lemma FoundBehind(s: string, n: nat, p: string)
    requires n <= |s|
    ensures FindFrom(s, p, n).None? <==> !Contains(s[n..], p)
    ensures forall i: nat :: FirstAt(s[n..], p, i) ==> FindFrom(s, p, n) == Some(n + i)
  {
    assert s == s[..n] + s[n..];
    FindFromSpec(s, p, n);
    FirstFound(s[n..], p);
    forall i: nat | FirstAt(s[n..], p, i) ensures FindFrom(s, p, n) == Some(n + i) {
      ShiftedFirst(s, s[..n], s[n..], p, i);
    }
    if FindFrom(s, p, n).Some? { ShiftedOccurs(s[..n], s[n..], p, FindFrom(s, p, n).value - n); }
  }

  lemma SpanClosesAt(s: string, start: nat, n: nat, i: nat, close: string)
    requires start <= n <= |s| && FindFrom(s, close, n) == Some(n + i)
    ensures var end := SpanEnd(s, n, close); Closes(s[start..end], s[end..], n - start + i + |close|)
  {
    var e := n + i + |close|;
    var end := SpanEnd(s, n, close);
    if end == e + 1 {
      assert s[start..end][e - start] == s[e];
    } else if end < |s| {
      assert s[end..][0] == s[end];
    }
  }

  lemma SpanBounded(s: string, start: nat, n: nat, close: string)
    requires start <= n <= |s|
    ensures var end := SpanEnd(s, n, close); Bounded(s[start..end], s[end..], n - start, s[n..], close)
  {
    FoundBehind(s, n, close);
    var end := SpanEnd(s, n, close);
    forall i: nat | FirstAt(s[n..], close, i) ensures Closes(s[start..end], s[end..], n - start + i + |close|) {
      SpanClosesAt(s, start, n, i, close);
    }
  }

  lemma SpanIs(s: string, start: nat, open: string, close: string)
    requires FirstAt(s, open, start)
    ensures var end := SpanEnd(s, start + |open|, close);
            Spans(s, s[..start], s[start..end], s[end..], open, close)
  {
    var n := start + |open|;
    var end := SpanEnd(s, n, close);
    OccursSlice(s, open, start);
    SpanBounded(s, start, n, close);
    SpanPieces(s, start, n, end);
  }

  lemma SpanPieces(s: string, start: nat, n: nat, end: nat)
    requires start <= n <= end <= |s|
    ensures s == s[..start] + (s[start..end] + s[end..])
    ensures (s[start..end] + s[end..])[n - start..] == s[n..]
    ensures s[start..end][..n - start] == s[start..n]
  {
    assert s[start..end] + s[end..] == s[start..];
  }

  lemma BdPieces()
    ensures '<' !in BD_START_1 && '<' !in BD_START_2
    ensures |BD_START_1| > 4 && BD_START_1[4] == 'B' && |BD_END_1| > 4 && BD_END_1[4] == 'E'
  {
  }

  lemma BdMarkerShapes()
    ensures '<' !in BD_BLOCK_START[1..] && BD_BLOCK_START != "" && BD_BLOCK_END != "" && BD_BLOCK_END[0] == '<'
    ensures |BD_BLOCK_START| > 5 && |BD_BLOCK_END| > 5 && BD_BLOCK_START[5] == 'B' && BD_BLOCK_END[5] == 'E'
  {
    BdPieces();
    assert BD_BLOCK_START[1..] == BD_START_1 + BD_START_2;
  }

  /** bd's end marker cannot overlap its start marker, so searching from either end of that finds the same. */
  lemma BdEndIsBehind(s: string, start: nat)
    requires OccursAt(s, BD_BLOCK_START, start)
    ensures FindFrom(s, BD_BLOCK_END, start) == FindFrom(s, BD_BLOCK_END, start + |BD_BLOCK_START|)
  {
    var n := start + |BD_BLOCK_START|;
    BdMarkerShapes();
    forall j: nat | start <= j < n ensures !OccursAt(s, BD_BLOCK_END, j) {
      OccursChar(s, BD_BLOCK_START, start, j - start);
      OccursMeans(s, BD_BLOCK_END, j, 0);
      if j == start {
        OccursChar(s, BD_BLOCK_START, start, 5);
        OccursMeans(s, BD_BLOCK_END, start, 5);
      } else {
        assert BD_BLOCK_START[j - start] == BD_BLOCK_START[1..][j - start - 1];
      }
    }
    SkipsTo(s, BD_BLOCK_END, start, n);
  }

  lemma {:induction false} SkipsTo(s: string, p: string, i: nat, n: nat)
    requires i <= n <= |s| && forall j: nat :: i <= j < n ==> !OccursAt(s, p, j)
    ensures FindFrom(s, p, i) == FindFrom(s, p, n)
    decreases n - i
  {
    if i < n { SkipsTo(s, p, i + 1, n); }
  }

  lemma NothingInEmpty(p: string)
    requires p != ""
    ensures !Contains("", p)
  {
  }

  /** Any merge produces a sectioned text that keeps everything but the one span it replaces, byte for byte. */
  lemma MergeIsSectioned(template: string, existing: Option<string>) returns (pre: string, tail: string)
    ensures Sectioned(template, Merged(template, existing), pre, tail)
    ensures existing == None ==> pre == "" && tail == ""
    ensures existing.Some? ==> KeepsOutside(existing.value, pre, tail)
  {
    MarkerShapes();
    if existing.None? {
      pre, tail := "", "";
      NothingInEmpty(MARKER_START);
      SectionAppended(template, pre);
      assert Block(template) == pre + (Block(template) + tail);
    } else {
      var s := existing.value;
      FirstFound(s, MARKER_START);
      FirstFound(s, BD_BLOCK_START);
      var ours, theirs := Find(s, MARKER_START), Find(s, BD_BLOCK_START);
      if ours.Some? {
        pre, tail := OurSpan(template, s, ours.value);
      } else if theirs.Some? {
        pre, tail := BdSpan(template, s, theirs.value);
      } else {
        pre, tail := Separated(s), "";
        NotInSeparated(s, MARKER_START);
        SectionAppended(template, pre);
        assert Separated(s) + Block(template) == pre + (Block(template) + tail);
      }
    }
  }

  lemma KeepsOurs(s: string, pre: string, span: string, tail: string)
    requires Spans(s, pre, span, tail, MARKER_START, MARKER_END)
    ensures KeepsOutside(s, pre, tail)
  {
    assert OccursAt(s, MARKER_START, |pre|);
  }

  lemma KeepsBds(s: string, pre: string, span: string, tail: string)
    requires !Contains(s, MARKER_START) && Spans(s, pre, span, tail, BD_BLOCK_START, BD_BLOCK_END)
    ensures KeepsOutside(s, pre, tail)
  {
    assert OccursAt(s, BD_BLOCK_START, |pre|);
  }

  lemma OurSpan(template: string, s: string, start: nat) returns (pre: string, tail: string)
    requires FirstAt(s, MARKER_START, start) && Find(s, MARKER_START) == Some(start)
    ensures Sectioned(template, Merged(template, Some(s)), pre, tail) && KeepsOutside(s, pre, tail)
  {
    var end := SpanEnd(s, start + |MARKER_START|, MARKER_END);
    pre, tail := s[..start], s[end..];
    SectionReplaced(template, s, start);
    SpanIs(s, start, MARKER_START, MARKER_END);
    KeepsOurs(s, pre, s[start..end], tail);
  }

  lemma SpanFromStart(s: string, start: nat, open: string, close: string)
    requires FirstAt(s, open, start)
    requires FindFrom(s, close, start) == FindFrom(s, close, start + |open|)
    ensures SpanEnd(s, start, close) == SpanEnd(s, start + |open|, close)
  {
  }

  lemma BdMerged(template: string, s: string, start: nat)
    requires Find(s, MARKER_START) == None && Find(s, BD_BLOCK_START) == Some(start)
    ensures Merged(template, Some(s)) == s[..start] + (Block(template) + s[SpanEnd(s, start, BD_BLOCK_END)..])
  {
  }

  lemma BdSpan(template: string, s: string, start: nat) returns (pre: string, tail: string)
    requires !Contains(s, MARKER_START) && Find(s, MARKER_START) == None
    requires FirstAt(s, BD_BLOCK_START, start) && Find(s, BD_BLOCK_START) == Some(start)
    ensures Sectioned(template, Merged(template, Some(s)), pre, tail) && KeepsOutside(s, pre, tail)
  {
    BdEndIsBehind(s, start);
    SpanFromStart(s, start, BD_BLOCK_START, BD_BLOCK_END);
    SpanIs(s, start, BD_BLOCK_START, BD_BLOCK_END);
    var end := SpanEnd(s, start, BD_BLOCK_END);
    pre, tail := s[..start], s[end..];
    BdMerged(template, s, start);
    BdBlockReplaced(template, s, start, tail);
    KeepsBds(s, pre, s[start..end], tail);
  }

  lemma UnclosedEnds(s: string, n: nat, close: string)
    requires n <= |s| && !Contains(s[n..], close)
    ensures SpanEnd(s, n, close) == |s|
  {
    FoundBehind(s, n, close);
  }

  lemma NothingBehind(a: string, b: string, s: string)
    ensures a + (b + s[|s|..]) == a + b
  {
    assert s[|s|..] == "" && b + "" == b;
  }

  /** A section that is never closed takes everything behind its start marker with it. */
  lemma UnclosedLosesRest(template: string, s: string, start: nat)
    requires FirstAt(s, MARKER_START, start) && !Contains(s[start + |MARKER_START|..], MARKER_END)
    ensures Merged(template, Some(s)) == s[..start] + Block(template)
  {
    FoundAt(s, MARKER_START, start);
    UnclosedEnds(s, start + |MARKER_START|, MARKER_END);
    NothingBehind(s[..start], Block(template), s);
  }

  lemma NotInPrefix(s: string, p: string, n: nat)
    requires !Contains(s, p) && n <= |s|
    ensures !Contains(s[..n], p)
  {
    forall j: nat | j + |p| <= n ensures !OccursAt(s[..n], p, j) { OccursInPrefix(s, s[..n], n, p, j); }
  }

  lemma NotInSeparated(s: string, p: string)
    requires !Contains(s, p) && NoNewline(p) && p != ""
    ensures !Contains(Separated(s), p)
  {
    NotAcrossNewline(s, "", p);
    assert s + ("\n" + "") == s + "\n";
    NotAcrossNewline(s + "\n", "", p);
    assert s + "\n" + ("\n" + "") == s + "\n" + "\n";
  }

  // ----- Merging again -----

  lemma InsideWithoutEnd(template: string)
    requires !Contains(TrimEnd(template), MARKER_END)
    ensures !Contains(Inside(template), MARKER_END)
  {
    MarkerShapes();
    var t := TrimEnd(template);
    NotAcrossNewline(t, "", MARKER_END);
    assert t + ("\n" + "") == t + "\n";
    NotAcrossNewline("", t + "\n", MARKER_END);
    assert "" + ("\n" + (t + "\n")) == Inside(template);
  }

  lemma EndAfterInside(template: string, tail: string)
    requires !Contains(TrimEnd(template), MARKER_END)
    ensures FirstAt(Inside(template) + (MARKER_END + ("\n" + tail)), MARKER_END, |Inside(template)|)
  {
    InsideWithoutEnd(template);
    MarkerShapes();
    FirstAfterNewline(Inside(template), MARKER_END, "\n" + tail);
  }

  lemma SectionedText(template: string, s: string, pre: string, tail: string)
    requires Sectioned(template, s, pre, tail)
    ensures s == (pre + MARKER_START) + (Inside(template) + (MARKER_END + ("\n" + tail)))
    ensures s == (pre + MARKER_START + Inside(template) + MARKER_END) + ("\n" + tail)
  {
  }

  lemma TemplateText(template: string, s: string, pre: string, tail: string)
    requires Sectioned(template, s, pre, tail)
    ensures s == (pre + MARKER_START + "\n") + (TrimEnd(template) + ("\n" + MARKER_END + "\n" + tail))
  {
  }

  /** In a sectioned text the end marker that closes the section is the block's own. */
  lemma SectionEnd(template: string, s: string, pre: string, tail: string)
    requires Sectioned(template, s, pre, tail) && !Contains(TrimEnd(template), MARKER_END)
    ensures s[SpanEnd(s, |pre| + |MARKER_START|, MARKER_END)..] == tail
  {
    var before, inside := pre + MARKER_START, Inside(template);
    SectionedText(template, s, pre, tail);
    EndAfterInside(template, tail);
    ShiftedFirst(s, before, inside + (MARKER_END + ("\n" + tail)), MARKER_END, |inside|);
    ClosedSpan(before + inside + MARKER_END, tail, s, |before|);
  }

  lemma ClosedSpan(through: string, tail: string, s: string, n: nat)
    requires s == through + ("\n" + tail) && n <= |s|
    requires FindFrom(s, MARKER_END, n).Some? && FindFrom(s, MARKER_END, n).value + |MARKER_END| == |through|
    ensures s[SpanEnd(s, n, MARKER_END)..] == tail
  {
    assert s[|through|] == '\n' && s[|through| + 1..] == tail;
  }

  lemma MergeAgain(template: string, s: string, pre: string, tail: string)
    requires Sectioned(template, s, pre, tail)
    ensures Merged(template, Some(s)) == pre + (Block(template) + s[SpanEnd(s, |pre| + |MARKER_START|, MARKER_END)..])
  {
    FoundAt(s, MARKER_START, |pre|);
  }

  lemma EarlyHit(template: string, s: string, pre: string, tail: string, i: nat)
    requires Sectioned(template, s, pre, tail) && OccursAt(TrimEnd(template), MARKER_END, i)
    ensures OccursAt(s, MARKER_END, |pre| + |MARKER_START| + 1 + i)
  {
    var t, rest := TrimEnd(template), "\n" + MARKER_END + "\n" + tail;
    TemplateText(template, s, pre, tail);
    OccursInPrefix(t, t + rest, |t|, MARKER_END, i);
    ShiftedHit(s, pre + MARKER_START + "\n", t + rest, MARKER_END, i);
  }

  /** If the template itself holds the end marker, the section closes early and its remainder is left behind. */
  lemma EarlyEnd(template: string, s: string, pre: string, tail: string)
    requires Sectioned(template, s, pre, tail) && Contains(TrimEnd(template), MARKER_END)
    ensures |s[SpanEnd(s, |pre| + |MARKER_START|, MARKER_END)..]| > |tail|
  {
    var n := |pre| + |MARKER_START|;
    var i :| OccursAt(TrimEnd(template), MARKER_END, i);
    EarlyHit(template, s, pre, tail, i);
    FindFromSpec(s, MARKER_END, n);
    var found := FindFrom(s, MARKER_END, n);
    assert found.Some? && found.value <= n + 1 + i;
    assert |s| == n + 1 + |TrimEnd(template)| + 1 + |MARKER_END| + 1 + |tail|;
  }

  /** Merging twice is merging once, for every file, exactly when the template is free of the end marker. */
  lemma IdempotentIffTemplateClean(template: string, existing: Option<string>)
    ensures var once := Merged(template, existing);
            Merged(template, Some(once)) == once <==> !Contains(TrimEnd(template), MARKER_END)
  {
    var once := Merged(template, existing);
    var pre, tail := MergeIsSectioned(template, existing);
    MergeAgain(template, once, pre, tail);
    if Contains(TrimEnd(template), MARKER_END) {
      EarlyEnd(template, once, pre, tail);
    } else {
      SectionEnd(template, once, pre, tail);
    }
  }

  /** So a re-run reports that nothing changed. */
  lemma RerunUnchanged(template: string, existing: Option<string>)
    requires !Contains(TrimEnd(template), MARKER_END)
    ensures OutcomeOf(template, Some(Merged(template, existing))) == Unchanged
  {
    var pre, tail := MergeIsSectioned(template, existing);
    FoundAt(Merged(template, existing), MARKER_START, |pre|);
    IdempotentIffTemplateClean(template, existing);
  }

  /** A template that is nothing but the end marker: whatever the file, a second merge changes it again. */
  lemma EndMarkerTemplateNeverSettles(existing: Option<string>)
    ensures var once := Merged(MARKER_END, existing); Merged(MARKER_END, Some(once)) != once
  {
    assert MARKER_END[|MARKER_END| - 1] == '>';
    OccursSlice(MARKER_END, MARKER_END, 0);
    assert OccursAt(TrimEnd(MARKER_END), MARKER_END, 0);
    IdempotentIffTemplateClean(MARKER_END, existing);
  }
}
