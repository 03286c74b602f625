/** Wrapping of doc comments: word order is kept and no wrapping needs fewer lines. */
module WrapDoc {
  import opened Text
  import opened Markers
  import opened GreedyLines

  const WIDTH: nat := 76

  type Line = seq<string>

  // ----- Lines of words -----

  function Joined(line: Line): string {
    if line == [] then ""
    else if |line| == 1 then line[0]
    else Joined(line[..|line| - 1]) + " " + line[|line| - 1]
  }

  /** A line's words stand one blank apart. */
  lemma JoinedLaw(line: Line, word: string)
    ensures Joined([word]) == word
    ensures line != [] ==> Joined(line + [word]) == Joined(line) + " " + word
  {
    assert (line + [word])[..|line|] == line;
  }

  /** At most 76 bytes, or a single word. */
  ghost predicate Fits(line: Line) {
    line != [] && (|line| == 1 || ByteLen(Joined(line)) <= 76)
  }

  ghost function WordBytes(line: Line): nat {
    if line == [] then 0 else ByteLen(line[0]) + WordBytes(line[1..])
  }

  lemma {:induction false} WordBytesConcat(a: Line, b: Line)
    ensures WordBytes(a + b) == WordBytes(a) + WordBytes(b)
  {
    if a == [] {
      assert a + b == b;
    } else {
      assert (a + b)[1..] == a[1..] + b;
      WordBytesConcat(a[1..], b);
    }
  }

  lemma {:induction false} JoinedBytes(line: Line)
    requires line != []
    ensures ByteLen(Joined(line)) == WordBytes(line) + |line| - 1
  {
    var n := |line| - 1;
    assert line == line[..n] + [line[n]];
    WordBytesConcat(line[..n], [line[n]]);
    if n > 0 {
      JoinedBytes(line[..n]);
      ByteLenConcat(Joined(line[..n]) + " ", line[n]);
      ByteLenConcat(Joined(line[..n]), " ");
    }
  }

  lemma PartOfLineFits(a: Line, b: Line, c: Line)
    requires b != [] && Fits(a + b + c)
    ensures Fits(b)
  {
    if |b| > 1 {
      WordBytesConcat(a + b, c);
      WordBytesConcat(a, b);
      JoinedBytes(a + b + c);
      JoinedBytes(b);
    }
  }

  lemma FitsIsHereditary()
    ensures Hereditary(Fits)
  {
    forall a: Line, b: Line, c: Line | Fits(a + b + c) && b != [] ensures Fits(b) { PartOfLineFits(a, b, c); }
  }

  lemma JoinNext(line: Line, word: string)
    requires line != []
    ensures Joined(line + [word]) == Joined(line) + " " + word
    ensures Fits(line + [word]) <==> ByteLen(Joined(line)) + 1 + ByteLen(word) <= WIDTH
  {
    var next := line + [word];
    assert next[..|next| - 1] == line;
    ByteLenConcat(Joined(line) + " ", word);
    ByteLenConcat(Joined(line), " ");
  }

  // ----- One paragraph -----

  ghost function Strings(groups: seq<Line>): seq<string> {
    seq(|groups|, k requires 0 <= k < |groups| => Joined(groups[k]))
  }

  ghost predicate RealWords(words: Line) {
    forall k :: 0 <= k < |words| ==> words[k] != [] && NoSpace(words[k])
  }

  /** The strings built so far and the word groups behind them. */
  ghost predicate Laid(words: Line, lines: seq<string>, current: string, groups: seq<Line>, line: Line) {
    && lines == Strings(groups) && current == Joined(line) && (current == "" <==> line == [])
    && Filling(Fits, words, groups, line) && (line == [] ==> words == [] && groups == [])
  }

  lemma NothingYet()
    ensures Laid([], [], "", [], [])
  {
  }

  lemma FirstWord(word: string)
    requires word != ""
    ensures Laid([word], [], word, [], [word])
  {
  }

  lemma WordJoins(words: Line, lines: seq<string>, current: string, groups: seq<Line>, line: Line, word: string)
    requires Laid(words, lines, current, groups, line) && current != ""
    requires ByteLen(current) + 1 + ByteLen(word) <= WIDTH
    ensures Laid(words + [word], lines, current + " " + word, groups, line + [word])
  {
    JoinNext(line, word);
    ExtendLine(Fits, words, groups, line, word);
  }

  lemma WordBreaks(words: Line, lines: seq<string>, current: string, groups: seq<Line>, line: Line, word: string)
    requires Laid(words, lines, current, groups, line) && current != "" && word != ""
    requires ByteLen(current) + 1 + ByteLen(word) > WIDTH
    ensures Laid(words + [word], lines + [current], word, groups + [line], [word])
  {
    JoinNext(line, word);
    CloseLine(Fits, words, groups, line, word);
  }

  lemma FinishStrings(groups: seq<Line>, line: Line)
    ensures Strings(groups + [line]) == Strings(groups) + [Joined(line)]
  {
  }

  lemma Finish(words: Line, lines: seq<string>, current: string, groups: seq<Line>, line: Line)
    requires Laid(words, lines, current, groups, line)
    ensures var all := if current == "" then groups else groups + [line];
            Optimal(Fits, words, all) && Strings(all) == if current == "" then lines else lines + [current]
  {
    FinishStrings(groups, line);
    FinishOptimal(words, groups, line);
  }

  lemma FinishOptimal(words: Line, groups: seq<Line>, line: Line)
    requires Filling(Fits, words, groups, line) && (line == [] ==> words == [] && groups == [])
    ensures Optimal(Fits, words, if line == [] then groups else groups + [line])
  {
    FitsIsHereditary();
    FillingIsOptimal(Fits, words, groups, line);
  }

  /** The lines break the words, in order, into as few lines that fit as any wrapping does. */
  ghost predicate Wrapped(words: Line, lines: seq<string>) {
    exists groups :: lines == Strings(groups) && Optimal(Fits, words, groups)
  }

  method WrapParagraph(words: Line) returns (lines: seq<string>)
    requires RealWords(words)
    ensures Wrapped(words, lines)
  {
    lines := [];
    var current := "";
    ghost var groups: seq<Line> := [];
    ghost var line, done: Line := [], [];
    NothingYet();
    for i := 0 to |words|
      invariant done == words[..i] && Laid(done, lines, current, groups, line)
    {
      var word := words[i];
      if current == "" {
        FirstWord(word);
        current := word;
        line := [word];
      } else if ByteLen(current) + 1 + ByteLen(word) <= WIDTH {
        WordJoins(done, lines, current, groups, line, word);
        current := current + " " + word;
        line := line + [word];
      } else {
        WordBreaks(done, lines, current, groups, line, word);
        lines := lines + [current];
        groups := groups + [line];
        current := word;
        line := [word];
      }
      done := done + [word];
    }
    assert done == words;
    FinishWrapped(done, lines, current, groups, line);
    if current != "" {
      lines := lines + [current];
    }
  }

  lemma FinishWrapped(words: Line, lines: seq<string>, current: string, groups: seq<Line>, line: Line)
    requires Laid(words, lines, current, groups, line)
    ensures Wrapped(words, if current == "" then lines else lines + [current])
  {
    Finish(words, lines, current, groups, line);
    var all := if current == "" then groups else groups + [line];
    assert Optimal(Fits, words, all);
  }

  // ----- The whole text -----

  function Paragraphs(text: string): seq<string>
    decreases |text|
  {
    match Find(text, "\n\n")
    case Some(i) => [text[..i]] + Paragraphs(text[i + 2..])
    case None => [text]
  }

  ghost function Rejoined(pieces: seq<string>, sep: string): string
    requires pieces != []
  {
    if |pieces| == 1 then pieces[0] else pieces[0] + (sep + Rejoined(pieces[1..], sep))
  }

  /**
   * The text cut at every separator, from the left: joined again the pieces are the text, each but the last ends where
   * the separator is first found, and the last holds none.
   */
  ghost predicate SplitsInto(text: string, sep: string, pieces: seq<string>) {
    && pieces != [] && Rejoined(pieces, sep) == text
    && (forall k :: 0 <= k < |pieces| - 1 ==> FirstAt(pieces[k] + sep, sep, |pieces[k]|))
    && !Contains(pieces[|pieces| - 1], sep)
  }

  lemma SplitsMore(piece: string, sep: string, rest: string, pieces: seq<string>)
    requires SplitsInto(rest, sep, pieces) && FirstAt(piece + sep, sep, |piece|)
    ensures SplitsInto(piece + (sep + rest), sep, [piece] + pieces)
  {
    assert ([piece] + pieces)[1..] == pieces;
  }

  lemma FirstEnds(text: string, sep: string, i: nat)
    requires Find(text, sep) == Some(i)
    ensures i + |sep| <= |text| && text == text[..i] + (sep + text[i + |sep|..])
    ensures FirstAt(text[..i] + sep, sep, i)
  {
    FindSpec(text, sep);
    OccursSlice(text, sep, i);
    var upTo := text[..i] + sep;
    assert upTo == text[..i + |sep|];
    forall j: nat | j <= i ensures OccursAt(upTo, sep, j) <==> OccursAt(text, sep, j) {
      OccursInPrefix(upTo, text, i + |sep|, sep, j);
    }
  }

  /** The paragraphs are the text cut at every pair of newlines. */
  lemma {:induction false} ParagraphsSplit(text: string)
    ensures SplitsInto(text, "\n\n", Paragraphs(text))
    decreases |text|
  {
    FindSpec(text, "\n\n");
    if Find(text, "\n\n").Some? {
      var i := Find(text, "\n\n").value;
      FirstEnds(text, "\n\n", i);
      ParagraphsSplit(text[i + 2..]);
      SplitsMore(text[..i], "\n\n", text[i + 2..], Paragraphs(text[i + 2..]));
    }
  }

  lemma SeparatorFound(piece: string, sep: string, rest: string)
    requires FirstAt(piece + sep, sep, |piece|)
    ensures Find(piece + (sep + rest), sep) == Some(|piece|)
  {
    var text, upTo := piece + (sep + rest), piece + sep;
    assert text[..|upTo|] == upTo;
    forall j: nat | j <= |piece| ensures OccursAt(upTo, sep, j) <==> OccursAt(text, sep, j) {
      OccursInPrefix(upTo, text, |upTo|, sep, j);
    }
    FindFromIs(text, sep, 0, |piece|);
  }

  lemma {:induction false} FirstPiece(text: string, sep: string, pieces: seq<string>)
    requires SplitsInto(text, sep, pieces)
    ensures match Find(text, sep)
            case None => pieces == [text]
            case Some(i) => |pieces| > 1 && pieces[0] == text[..i] && i + |sep| <= |text|
                            && SplitsInto(text[i + |sep|..], sep, pieces[1..])
  {
    FindSpec(text, sep);
    if |pieces| > 1 {
      SeparatorFound(pieces[0], sep, Rejoined(pieces[1..], sep));
      assert text[|pieces[0]| + |sep|..] == Rejoined(pieces[1..], sep);
    }
  }

  /** There is one way to cut it so. */
  lemma {:induction false} SplitUnique(text: string, sep: string, p: seq<string>, q: seq<string>)
    requires sep != "" && SplitsInto(text, sep, p) && SplitsInto(text, sep, q)
    ensures p == q
    decreases |p|
  {
    FirstPiece(text, sep, p);
    FirstPiece(text, sep, q);
    if Find(text, sep).Some? {
      SplitUnique(text[Find(text, sep).value + |sep|..], sep, p[1..], q[1..]);
      assert p == [p[0]] + p[1..] && q == [q[0]] + q[1..];
    }
  }

  function TrimBlanks(lines: seq<string>): (r: seq<string>)
    ensures r <= lines && (r != [] ==> r[|r| - 1] != "")
    ensures forall k :: |r| <= k < |lines| ==> lines[k] == ""
  {
    if lines != [] && lines[|lines| - 1] == "" then TrimBlanks(lines[..|lines| - 1]) else lines
  }

  /** Every paragraph's lines, each paragraph followed by a blank line. */
  ghost function DocLines(blocks: seq<seq<Line>>): seq<string> {
    if blocks == [] then [] else DocLines(blocks[..|blocks| - 1]) + Strings(blocks[|blocks| - 1]) + [""]
  }

  /** One optimal wrapping for each of the first paragraphs. */
  ghost predicate OptimalBlocks(paragraphs: seq<string>, blocks: seq<seq<Line>>) {
    && |blocks| <= |paragraphs|
    && forall p :: 0 <= p < |blocks| ==> Optimal(Fits, Words(paragraphs[p]), blocks[p])
  }

  lemma WordsAreReal(s: string)
    ensures RealWords(Words(s))
  {
    forall k | 0 <= k < |Words(s)| ensures Words(s)[k] != [] && NoSpace(Words(s)[k]) { assert Words(s)[k] in Words(s); }
  }

  lemma AddBlock(paragraphs: seq<string>, blocks: seq<seq<Line>>, groups: seq<Line>)
    requires OptimalBlocks(paragraphs, blocks) && |blocks| < |paragraphs|
    requires Optimal(Fits, Words(paragraphs[|blocks|]), groups)
    ensures OptimalBlocks(paragraphs, blocks + [groups])
  {
    var more := blocks + [groups];
    forall p | 0 <= p < |more| ensures Optimal(Fits, Words(paragraphs[p]), more[p]) {
      if p < |blocks| {
        assert more[p] == blocks[p] && Optimal(Fits, Words(paragraphs[p]), blocks[p]);
      } else {
        assert more[p] == groups && p == |blocks|;
      }
    }
  }

  lemma DocLinesAppend(blocks: seq<seq<Line>>, groups: seq<Line>)
    ensures DocLines(blocks + [groups]) == DocLines(blocks) + Strings(groups) + [""]
  {
    assert (blocks + [groups])[..|blocks|] == blocks;
  }

  method PopBlanks(all: seq<string>) returns (lines: seq<string>)
    ensures lines == TrimBlanks(all)
  {
    lines := all;
    while lines != [] && lines[|lines| - 1] == ""
      invariant TrimBlanks(lines) == TrimBlanks(all)
    {
      lines := lines[..|lines| - 1];
    }
  }

  // ----- Nothing is lost and nothing overflows -----

  ghost function WordsOf(lines: seq<string>): Line {
    FlatMap(Words, lines)
  }

  lemma OneMoreWord(front: string, w: string)
    requires w != [] && NoSpace(w)
    ensures Words(front + " " + w) == Words(front) + [w]
  {
    WordsOfWord(w);
    WordsAcrossSpace(front, ' ', w);
    assert front + " " + w == front + ([' '] + w);
  }

  /** What `Words` does on a joined line, from what it does on one word and on one word more. */
  lemma {:induction false} SplitsJoined(split: string -> Line, line: Line)
    requires forall w :: w != [] && NoSpace(w) ==> split(w) == [w]
    requires forall front, w :: w != [] && NoSpace(w) ==> split(front + " " + w) == split(front) + [w]
    requires RealWords(line) && line != []
    ensures split(Joined(line)) == line
  {
    var front, w := line[..|line| - 1], line[|line| - 1];
    assert line == front + [w];
    if front != [] { SplitsJoined(split, front); }
  }

  lemma WordsOfJoined(line: Line)
    requires RealWords(line)
    ensures Words(Joined(line)) == line
  {
    forall w | w != [] && NoSpace(w) ensures Words(w) == [w] { WordsOfWord(w); }
    forall front, w | w != [] && NoSpace(w) ensures Words(front + " " + w) == Words(front) + [w] {
      OneMoreWord(front, w);
    }
    if line != [] { SplitsJoined(Words, line); }
  }

  lemma WordsOfNext(front: seq<Line>, last: Line)
    ensures WordsOf(Strings(front + [last])) == WordsOf(Strings(front)) + Words(Joined(last))
  {
    assert Strings(front + [last]) == Strings(front) + [Joined(last)];
    FlatMapConcat(Words, Strings(front), [Joined(last)]);
    FlatMapOne(Words, Joined(last));
  }

  lemma {:induction false} WordsOfStrings(groups: seq<Line>)
    requires RealWords(Flatten(groups))
    ensures WordsOf(Strings(groups)) == Flatten(groups)
    decreases |groups|
  {
    if groups != [] {
      var front, last := groups[..|groups| - 1], groups[|groups| - 1];
      FlattenAppend(front, last);
      assert groups == front + [last];
      RealWordsParts(Flatten(front), last);
      WordsOfStrings(front);
      WordsOfJoined(last);
      WordsOfNext(front, last);
    }
  }

  lemma RealWordsParts(a: Line, b: Line)
    requires RealWords(a + b)
    ensures RealWords(a) && RealWords(b)
  {
    forall k | 0 <= k < |a| ensures a[k] != [] && NoSpace(a[k]) { assert (a + b)[k] == a[k]; }
    forall k | 0 <= k < |b| ensures b[k] != [] && NoSpace(b[k]) { assert (a + b)[|a| + k] == b[k]; }
  }

  lemma WordsOfBlock(paragraph: string, lines: seq<string>, groups: seq<Line>)
    requires Optimal(Fits, Words(paragraph), groups)
    ensures WordsOf(lines + Strings(groups) + [""]) == WordsOf(lines) + Words(paragraph)
  {
    WordsAreReal(paragraph);
    WordsOfStrings(groups);
    FlatMapConcat(Words, lines, Strings(groups));
    FlatMapConcat(Words, lines + Strings(groups), [""]);
    FlatMapOne(Words, "");
  }

  lemma {:induction false} WordsOfDoc(paragraphs: seq<string>, blocks: seq<seq<Line>>)
    requires OptimalBlocks(paragraphs, blocks) && |blocks| == |paragraphs|
    ensures WordsOf(DocLines(blocks)) == WordsOf(paragraphs)
    decreases |blocks|
  {
    if blocks != [] {
      var n := |blocks| - 1;
      WordsOfDoc(paragraphs[..n], blocks[..n]);
      assert Optimal(Fits, Words(paragraphs[n]), blocks[n]);
      WordsOfBlock(paragraphs[n], DocLines(blocks[..n]), blocks[n]);
    }
  }

  lemma ParagraphBreak(text: string, i: nat)
    requires Find(text, "\n\n") == Some(i)
    ensures Words(text) == Words(text[..i]) + Words(text[i + 2..])
  {
    FoundPair(text, "\n\n", i);
    OneBreak(text, i);
    OneBreak(text[i + 1..], 0);
    assert text[i + 1..][1..] == text[i + 2..] && text[i + 1..][..0] == [];
  }

  lemma FoundPair(text: string, p: string, i: nat)
    requires |p| == 2 && Find(text, p) == Some(i)
    ensures i + 2 <= |text| && text[i] == p[0] && text[i + 1] == p[1]
  {
    FindSpec(text, p);
    OccursChar(text, p, i, 0);
    OccursChar(text, p, i, 1);
  }

  lemma OneBreak(text: string, i: nat)
    requires i < |text| && text[i] == '\n'
    ensures Words(text) == Words(text[..i]) + Words(text[i + 1..])
  {
    assert text == text[..i] + (['\n'] + text[i + 1..]);
    WordsAcrossSpace(text[..i], '\n', text[i + 1..]);
  }

  lemma {:induction false} WordsOfParagraphs(text: string)
    ensures WordsOf(Paragraphs(text)) == Words(text)
    decreases |text|
  {
    match Find(text, "\n\n")
    case Some(i) =>
      WordsOfParagraphs(text[i + 2..]);
      FlatMapConcat(Words, [text[..i]], Paragraphs(text[i + 2..]));
      FlatMapOne(Words, text[..i]);
      ParagraphBreak(text, i);
    case None =>
      FlatMapOne(Words, text);
  }

  lemma {:induction false} BlanksHoldNoWords(lines: seq<string>)
    ensures WordsOf(TrimBlanks(lines)) == WordsOf(lines)
  {
    if lines != [] && lines[|lines| - 1] == "" { BlanksHoldNoWords(lines[..|lines| - 1]); }
  }

  /** The wrapped lines carry exactly the words of the text, in order. */
  lemma WrapKeepsWords(text: string, blocks: seq<seq<Line>>)
    requires OptimalBlocks(Paragraphs(text), blocks) && |blocks| == |Paragraphs(text)|
    ensures WordsOf(TrimBlanks(DocLines(blocks))) == Words(text)
  {
    BlanksHoldNoWords(DocLines(blocks));
    WordsOfDoc(Paragraphs(text), blocks);
    WordsOfParagraphs(text);
  }

  lemma {:induction false} InFlatten(groups: seq<Line>, k: nat)
    requires k < |groups|
    ensures forall w :: w in groups[k] ==> w in Flatten(groups)
  {
    if k > 0 { InFlatten(groups[1..], k - 1); }
  }

  lemma BlockLineFits(words: Line, groups: seq<Line>, k: nat)
    requires Optimal(Fits, words, groups) && k < |groups|
    ensures var line := Strings(groups)[k]; ByteLen(line) <= 76 || line in words
  {
    assert Fits(groups[k]);
    InFlatten(groups, k);
  }

  ghost predicate FitsOrAmong(paragraphs: seq<string>, line: string) {
    ByteLen(line) <= 76 || exists p :: 0 <= p < |paragraphs| && line in Words(paragraphs[p])
  }

  lemma BlockFits(paragraphs: seq<string>, blocks: seq<seq<Line>>, p: nat, k: nat)
    requires OptimalBlocks(paragraphs, blocks) && p < |blocks| && k < |blocks[p]|
    ensures FitsOrAmong(paragraphs, Strings(blocks[p])[k])
  {
    BlockLineFits(Words(paragraphs[p]), blocks[p], k);
  }

  lemma DocLineAt(blocks: seq<seq<Line>>, k: nat)
    requires k < |DocLines(blocks)|
    ensures blocks != []
    ensures var before, last := DocLines(blocks[..|blocks| - 1]), blocks[|blocks| - 1];
            DocLines(blocks)[k] ==
              if k < |before| then before[k] else if k < |before| + |last| then Strings(last)[k - |before|] else ""
  {
  }

  /** Every line fits the width unless it is a single word of its paragraph. */
  lemma {:induction false} LinesFit(paragraphs: seq<string>, blocks: seq<seq<Line>>, k: nat)
    requires OptimalBlocks(paragraphs, blocks) && k < |DocLines(blocks)|
    ensures FitsOrAmong(paragraphs, DocLines(blocks)[k])
    decreases |blocks|
  {
    var n := |blocks| - 1;
    var before := DocLines(blocks[..n]);
    DocLineAt(blocks, k);
    if k < |before| {
      LinesFit(paragraphs, blocks[..n], k);
    } else if k < |before| + |blocks[n]| {
      BlockFits(paragraphs, blocks, n, k - |before|);
    }
  }

  // ----- Wrapping -----

  /** Each paragraph wrapped optimally, with a blank line after each. */
  ghost predicate WrappedAll(paragraphs: seq<string>, lines: seq<string>) {
    exists blocks :: |blocks| == |paragraphs| && OptimalBlocks(paragraphs, blocks) && lines == DocLines(blocks)
  }

  method WrapAll(paragraphs: seq<string>) returns (lines: seq<string>)
    ensures WrappedAll(paragraphs, lines)
  {
    lines := [];
    ghost var blocks: seq<seq<Line>> := [];
    for p := 0 to |paragraphs|
      invariant |blocks| == p && OptimalBlocks(paragraphs, blocks) && lines == DocLines(blocks)
    {
      WordsAreReal(paragraphs[p]);
      var wrapped := WrapParagraph(Words(paragraphs[p]));
      ghost var groups :| wrapped == Strings(groups) && Optimal(Fits, Words(paragraphs[p]), groups);
      AddBlock(paragraphs, blocks, groups);
      DocLinesAppend(blocks, groups);
      lines, blocks := lines + wrapped + [""], blocks + [groups];
    }
  }

  // ----- The whole text, line by line -----

  /** What the paragraphs become, in order, each followed by a blank line. */
  ghost predicate LaidOut(becomes: (string, seq<string>) -> bool, paragraphs: seq<string>, lines: seq<string>) {
    if paragraphs == [] then lines == []
    else
      var n := |paragraphs| - 1;
      exists front, block ::
        lines == front + (block + [""]) && becomes(paragraphs[n], block) && LaidOut(becomes, paragraphs[..n], front)
  }

  lemma LaidOutMore(becomes: (string, seq<string>) -> bool, paragraphs: seq<string>, front: seq<string>,
                    block: seq<string>)
    requires paragraphs != [] && becomes(paragraphs[|paragraphs| - 1], block)
    requires LaidOut(becomes, paragraphs[..|paragraphs| - 1], front)
    ensures LaidOut(becomes, paragraphs, front + (block + [""]))
  {
  }

  /** A paragraph becomes a wrapping of its words. */
  ghost function Wrapping(): (string, seq<string>) -> bool {
    (paragraph: string, lines: seq<string>) => Wrapped(Words(paragraph), lines)
  }

  lemma StringsWrap(paragraph: string, groups: seq<Line>)
    requires Optimal(Fits, Words(paragraph), groups)
    ensures Wrapping()(paragraph, Strings(groups))
  {
  }

  lemma BlockWraps(paragraphs: seq<string>, blocks: seq<seq<Line>>, p: nat)
    requires OptimalBlocks(paragraphs, blocks) && p < |blocks|
    ensures Wrapping()(paragraphs[p], Strings(blocks[p]))
  {
    StringsWrap(paragraphs[p], blocks[p]);
  }

  lemma DocLinesLast(blocks: seq<seq<Line>>)
    requires blocks != []
    ensures var n := |blocks| - 1; DocLines(blocks) == DocLines(blocks[..n]) + (Strings(blocks[n]) + [""])
  {
    Associate(DocLines(blocks[..|blocks| - 1]), Strings(blocks[|blocks| - 1]), [""]);
  }

  lemma Associate<T>(a: seq<T>, b: seq<T>, c: seq<T>)
    ensures (a + b) + c == a + (b + c)
  {
  }

  lemma {:induction false} DocLaidOut(becomes: (string, seq<string>) -> bool, paragraphs: seq<string>,
                                      blocks: seq<seq<Line>>)
    requires |blocks| == |paragraphs|
    requires forall p :: 0 <= p < |blocks| ==> becomes(paragraphs[p], Strings(blocks[p]))
    ensures LaidOut(becomes, paragraphs, DocLines(blocks))
    decreases |blocks|
  {
    if blocks != [] {
      var n := |blocks| - 1;
      DocLaidOut(becomes, paragraphs[..n], blocks[..n]);
      LaidOutMore(becomes, paragraphs, DocLines(blocks[..n]), Strings(blocks[n]));
      DocLinesLast(blocks);
    }
  }

  /** Every paragraph, that is every piece between pairs of newlines, wrapped, each followed by a blank line. */
  ghost predicate WrapsText(text: string, all: seq<string>) {
    exists pieces :: SplitsInto(text, "\n\n", pieces) && LaidOut(Wrapping(), pieces, all)
  }

  lemma WrappedAllWraps(text: string, all: seq<string>)
    requires WrappedAll(Paragraphs(text), all)
    ensures WrapsText(text, all)
  {
    var pieces := Paragraphs(text);
    var blocks :| |blocks| == |pieces| && OptimalBlocks(pieces, blocks) && all == DocLines(blocks);
    ParagraphsSplit(text);
    forall p | 0 <= p < |blocks| ensures Wrapping()(pieces[p], Strings(blocks[p])) { BlockWraps(pieces, blocks, p); }
    DocLaidOut(Wrapping(), pieces, blocks);
  }

  /** A line fits, or is a single over-long word of the text. */
  ghost predicate FitsOrWord(text: string, line: string) {
    ByteLen(line) <= 76 || line in Words(text)
  }

  lemma {:induction false} InFlatMap(lines: seq<string>, p: nat, word: string)
    requires p < |lines| && word in Words(lines[p])
    ensures word in WordsOf(lines)
  {
    if p < |lines| - 1 { InFlatMap(lines[..|lines| - 1], p, word); }
  }

  lemma AmongIsInText(text: string, line: string)
    requires FitsOrAmong(Paragraphs(text), line)
    ensures FitsOrWord(text, line)
  {
    if ByteLen(line) > 76 {
      var p :| 0 <= p < |Paragraphs(text)| && line in Words(Paragraphs(text)[p]);
      InFlatMap(Paragraphs(text), p, line);
      WordsOfParagraphs(text);
    }
  }

  lemma WrappedKeepsAndFits(text: string, all: seq<string>)
    requires WrappedAll(Paragraphs(text), all)
    ensures WordsOf(TrimBlanks(all)) == Words(text)
    ensures forall k :: 0 <= k < |TrimBlanks(all)| ==> FitsOrWord(text, TrimBlanks(all)[k])
  {
    var blocks :| |blocks| == |Paragraphs(text)| && OptimalBlocks(Paragraphs(text), blocks) && all == DocLines(blocks);
    WrapKeepsWords(text, blocks);
    forall k | 0 <= k < |TrimBlanks(all)| ensures FitsOrWord(text, TrimBlanks(all)[k]) {
      LinesFit(Paragraphs(text), blocks, k);
      AmongIsInText(text, all[k]);
      assert TrimBlanks(all)[k] == all[k];
    }
  }

  /** Wraps a text: optimally by paragraph, with no trailing blank line, losing no word, each line fitting if it can. */
  method WrapText(text: string) returns (lines: seq<string>)
    ensures exists all :: WrapsText(text, all) && lines == TrimBlanks(all)
    ensures WordsOf(lines) == Words(text)
    ensures forall k :: 0 <= k < |lines| ==> FitsOrWord(text, lines[k])
  {
    var all := WrapAll(Paragraphs(text));
    WrappedKeepsAndFits(text, all);
    WrappedAllWraps(text, all);
    lines := PopBlanks(all);
  }
}
