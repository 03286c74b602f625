/** The marked entry in .pre-commit-config.yaml: when re-installing it is a fixed point, and what it rewrites. */
module PrecommitYaml {
  import opened Text
  import opened TextLines
  import opened Markers

  const REPOS: string := "repos:"

  /** A start marker, the lines of the entry with the newline before them, and an end marker. */
  datatype Marks = Marks(start: string, inside: string, finish: string)

  /** The markers are single lines; the lines between them end with a newline and do not hold the end marker. */
  ghost predicate Good(m: Marks) {
    && m.start != "" && NoNewline(m.start) && |m.start| > |REPOS|
    && m.finish != "" && NoNewline(m.finish)
    && m.inside != "" && m.inside[|m.inside| - 1] == '\n' && !Contains(m.inside, m.finish)
  }

  function Entry(m: Marks): string {
    m.start + (m.inside + (m.finish + "\n"))
  }

  // ----- The merge -----

  function FirstRepos(lines: seq<string>): (r: Option<nat>)
    ensures r.Some? ==> r.value < |lines| && TrimEnd(lines[r.value]) == REPOS
    ensures r.Some? ==> forall k :: 0 <= k < r.value ==> TrimEnd(lines[k]) != REPOS
    ensures r.None? ==> forall k :: 0 <= k < |lines| ==> TrimEnd(lines[k]) != REPOS
  {
    if lines == [] then None
    else if TrimEnd(lines[0]) == REPOS then Some(0)
    else match FirstRepos(lines[1..])
         case Some(k) => Some(k + 1)
         case None => None
  }

  function TrimNewlines(s: string): string {
    if s != "" && s[0] == '\n' then TrimNewlines(s[1..]) else s
  }

  function SpanEnd(m: Marks, s: string, from: nat): (e: nat)
    requires from <= |s|
    ensures from <= e <= |s|
  {
    match FindFrom(s, m.finish, from)
    case Some(i) => i + |m.finish|
    case None => |s|
  }

  /** Text up to and including the line the entry goes after, and the text that follows the entry. */
  function Before(lines: seq<string>): string {
    match FirstRepos(lines)
    case Some(k) => Terminated(lines[..k + 1])
    case None => Terminated(lines) + (REPOS + "\n")
  }

  function After(lines: seq<string>): string {
    match FirstRepos(lines)
    case Some(k) => Terminated(lines[k + 1..])
    case None => ""
  }

  function Merged(m: Marks, s: string): string {
    match Find(s, m.start)
    case Some(start) => s[..start] + (Entry(m) + TrimNewlines(s[SpanEnd(m, s, start + |m.start|)..]))
    case None => Before(Lines(s)) + (Entry(m) + After(Lines(s)))
  }

  /** The output after the first i lines, with the entry after line k. */
  ghost function Spliced(m: Marks, lines: seq<string>, k: nat, i: nat): string
    requires k < i <= |lines|
  {
    Terminated(lines[..k + 1]) + (Entry(m) + Terminated(lines[k + 1..i]))
  }

  lemma SplicedNext(m: Marks, lines: seq<string>, k: nat, i: nat)
    requires k < i < |lines|
    ensures Spliced(m, lines, k, i + 1) == Spliced(m, lines, k, i) + (lines[i] + "\n")
  {
    AfterNext(lines, k + 1, i);
    Regroup(Terminated(lines[..k + 1]), Entry(m), Terminated(lines[k + 1..i]), lines[i] + "\n");
  }

  lemma Regroup(a: string, b: string, c: string, d: string)
    ensures a + (b + (c + d)) == a + (b + c) + d
  {
    assert b + (c + d) == (b + c) + d;
    assert a + ((b + c) + d) == a + (b + c) + d;
  }

  lemma SplicedStart(m: Marks, lines: seq<string>, k: nat)
    requires k < |lines|
    ensures Spliced(m, lines, k, k + 1) == Terminated(lines[..k + 1]) + Entry(m)
  {
    assert lines[k + 1..k + 1] == [];
    assert Entry(m) + "" == Entry(m);
  }

  /** What has been written once the first i lines are copied, `first` being the first `repos:` line. */
  ghost function Written(m: Marks, lines: seq<string>, first: Option<nat>, i: nat): string
    requires i <= |lines|
  {
    if first.Some? && first.value < i then Spliced(m, lines, first.value, i) else Terminated(lines[..i])
  }

  lemma CopyLine(m: Marks, lines: seq<string>, first: Option<nat>, i: nat)
    requires i < |lines| && first != Some(i)
    ensures Written(m, lines, first, i + 1) == Written(m, lines, first, i) + (lines[i] + "\n")
  {
    if first.Some? && first.value < i {
      SplicedNext(m, lines, first.value, i);
    } else {
      PlainNext(lines, i);
    }
  }

  lemma SpliceEntry(m: Marks, lines: seq<string>, i: nat)
    requires i < |lines|
    ensures Written(m, lines, Some(i), i + 1) == Written(m, lines, Some(i), i) + (lines[i] + "\n") + Entry(m)
  {
    PlainNext(lines, i);
    SplicedStart(m, lines, i);
  }

  lemma AllWritten(m: Marks, lines: seq<string>, k: nat)
    requires FirstRepos(lines) == Some(k)
    ensures Written(m, lines, Some(k), |lines|) == Before(lines) + (Entry(m) + After(lines))
  {
    SliceToEnd(lines, k + 1);
  }

  lemma NoneWritten(m: Marks, lines: seq<string>)
    requires FirstRepos(lines) == None
    ensures Written(m, lines, None, |lines|) + (REPOS + "\n") + Entry(m) == Before(lines) + (Entry(m) + After(lines))
  {
    SliceToEnd(lines, 0);
    AppendNothing(Before(lines), Entry(m));
  }

  lemma AppendNothing(a: string, b: string)
    ensures a + (b + "") == a + b
  {
    assert b + "" == b;
  }

  lemma SliceToEnd<T>(s: seq<T>, i: nat)
    requires i <= |s|
    ensures s[i..|s|] == s[i..] && s[..|s|] == s
  {
  }

  /** Rewrites the lines, splicing the entry in after the first `repos:` line or creating that line. */
  method InsertEntry(m: Marks, lines: seq<string>) returns (out: string)
    ensures out == Before(lines) + (Entry(m) + After(lines))
  {
    out := "";
    var inserted := false;
    ghost var first := FirstRepos(lines);
    assert lines[..0] == [];
    for i := 0 to |lines|
      invariant inserted <==> first.Some? && first.value < i
      invariant out == Written(m, lines, first, i)
    {
      if first == Some(i) { SpliceEntry(m, lines, i); } else { CopyLine(m, lines, first, i); }
      out := out + (lines[i] + "\n");
      if !inserted && TrimEnd(lines[i]) == REPOS {
        out := out + Entry(m);
        inserted := true;
      }
    }
    if inserted {
      AllWritten(m, lines, first.value);
      return;
    }
    NoneWritten(m, lines);
    out := out + (REPOS + "\n");
    out := out + Entry(m);
  }

  lemma AfterNext(lines: seq<string>, from: nat, i: nat)
    requires from <= i < |lines|
    ensures Terminated(lines[from..i + 1]) == Terminated(lines[from..i]) + (lines[i] + "\n")
  {
    TerminatedNext(lines[from..i], lines[i]);
    assert lines[from..i + 1] == lines[from..i] + [lines[i]];
  }

  method MergePrecommitYaml(m: Marks, existing: string) returns (out: string)
    ensures out == Merged(m, existing)
  {
    var start := Find(existing, m.start);
    if start.Some? {
      var end := SpanEnd(m, existing, start.value + |m.start|);
      out := existing[..start.value];
      out := out + Entry(m);
      out := out + TrimNewlines(existing[end..]);
      assert out == existing[..start.value] + (Entry(m) + TrimNewlines(existing[end..]));
      return;
    }
    out := InsertEntry(m, Lines(existing));
  }

  // ----- Entered texts and their re-merge -----

  /** `pre`, the entry, `tail`, with the start marker first at the entry. */
  ghost predicate Entered(m: Marks, s: string, pre: string, tail: string) {
    s == pre + (Entry(m) + tail) && FirstAt(s, m.start, |pre|)
  }

  function AfterStart(m: Marks, tail: string): string {
    m.inside + (m.finish + ("\n" + tail))
  }

  lemma EnteredIf(m: Marks, pre: string, tail: string)
    requires Good(m)
    requires FirstAt(pre + (m.start + AfterStart(m, tail)), m.start, |pre|)
    ensures Entered(m, pre + (Entry(m) + tail), pre, tail)
  {
    assert Entry(m) + tail == m.start + AfterStart(m, tail);
  }

  lemma EndAfterInside(m: Marks, tail: string)
    requires Good(m)
    ensures FirstAt(AfterStart(m, tail), m.finish, |m.inside|)
  {
    FirstAfterNewline(m.inside, m.finish, "\n" + tail);
  }

  lemma EnteredStart(m: Marks, s: string, pre: string, tail: string)
    requires Entered(m, s, pre, tail)
    ensures s == (pre + m.start) + AfterStart(m, tail)
  {
  }

  lemma EnteredEnd(m: Marks, s: string, pre: string, tail: string)
    requires Entered(m, s, pre, tail)
    ensures s == (pre + m.start + m.inside + m.finish) + ("\n" + tail)
  {
  }

  lemma EntryEnd(m: Marks, s: string, pre: string, tail: string)
    requires Good(m) && Entered(m, s, pre, tail)
    ensures |pre| + |m.start| <= |s|
    ensures FoundIn(s, m.finish, |pre| + |m.start|, |pre| + |m.start| + |m.inside|)
  {
    EndAfterInside(m, tail);
    EnteredStart(m, s, pre, tail);
    EndIsShifted(s, pre + m.start, AfterStart(m, tail), m.finish, |m.inside|);
  }

  /** Searching s for p from n on hits at `at`. */
  predicate FoundIn(s: string, p: string, n: nat, at: nat)
    requires n <= |s|
  {
    FindFrom(s, p, n).Some? && FindFrom(s, p, n).value == at
  }

  lemma EndIsShifted(s: string, a: string, b: string, p: string, i: nat)
    requires s == a + b && FirstAt(b, p, i)
    ensures |a| <= |s| && FoundIn(s, p, |a|, |a| + i)
  {
    ShiftedFirst(s, a, b, p, i);
  }

  lemma EntrySpan(m: Marks, s: string, pre: string, tail: string)
    requires Good(m) && Entered(m, s, pre, tail)
    ensures |pre| + |m.start| <= |s| && s[SpanEnd(m, s, |pre| + |m.start|)..] == "\n" + tail
  {
    EntryEnd(m, s, pre, tail);
    EnteredEnd(m, s, pre, tail);
    SpanCloses(m, s, |pre| + |m.start|, pre + m.start + m.inside + m.finish, "\n" + tail);
  }

  lemma SpanCloses(m: Marks, s: string, n: nat, through: string, tail: string)
    requires s == through + tail && n <= |s|
    requires FindFrom(s, m.finish, n).Some? && FindFrom(s, m.finish, n).value + |m.finish| == |through|
    ensures s[SpanEnd(m, s, n)..] == tail
  {
  }

  lemma MergedFound(m: Marks, s: string, pre: string, rest: string)
    requires pre <= s && |pre| + |m.start| <= |s| && Find(s, m.start) == Some(|pre|)
    requires s[SpanEnd(m, s, |pre| + |m.start|)..] == rest
    ensures Merged(m, s) == pre + (Entry(m) + TrimNewlines(rest))
  {
  }

  /** Merging an entered text only drops blank lines right after the entry. */
  lemma MergeAgain(m: Marks, s: string, pre: string, tail: string)
    requires Good(m) && Entered(m, s, pre, tail)
    ensures Merged(m, s) == pre + (Entry(m) + TrimNewlines(tail))
  {
    FoundAt(s, m.start, |pre|);
    EntrySpan(m, s, pre, tail);
    MergedFound(m, s, pre, "\n" + tail);
    TrimOne(tail);
  }

  lemma TrimOne(tail: string)
    ensures TrimNewlines("\n" + tail) == TrimNewlines(tail)
  {
    assert ("\n" + tail)[1..] == tail;
  }

  lemma {:induction false} TrimNewlinesSpec(s: string)
    ensures TrimNewlines(TrimNewlines(s)) == TrimNewlines(s)
    ensures TrimNewlines(s) == s <==> (s == "" || s[0] != '\n')
  {
    if s != "" && s[0] == '\n' {
      TrimNewlinesSpec(s[1..]);
      TrimShorter(s[1..]);
    }
  }

  lemma {:induction false} TrimShorter(s: string)
    ensures |TrimNewlines(s)| <= |s|
  {
    if s != "" && s[0] == '\n' { TrimShorter(s[1..]); }
  }

  /** The re-merge of an entered text stops exactly when no blank line follows the entry. */
  lemma FixedIff(m: Marks, s: string, pre: string, tail: string)
    requires Good(m)
    requires Entered(m, s, pre, tail)
    ensures Merged(m, s) == s <==> (tail == "" || tail[0] != '\n')
  {
    MergeAgain(m, s, pre, tail);
    TrimNewlinesSpec(tail);
    if TrimNewlines(tail) != tail { SuffixDiffers(pre, Entry(m), TrimNewlines(tail), tail); }
  }

  lemma SuffixDiffers(a: string, b: string, c: string, d: string)
    requires c != d
    ensures a + (b + c) != a + (b + d)
  {
    assert (a + (b + c))[|a| + |b|..] == c && (a + (b + d))[|a| + |b|..] == d;
  }

  // ----- What one merge produces -----

  lemma {:induction false} LinesWithoutMarker(s: string, p: string)
    requires !Contains(s, p) && p != ""
    ensures forall k :: 0 <= k < |Lines(s)| ==> !Contains(Lines(s)[k], p) && '\n' !in Lines(s)[k]
    decreases |s|
  {
    if s != "" {
      FindSpec(s, "\n");
      match Find(s, "\n")
      case Some(i) =>
        SliceWithoutMarker(s, p, i + 1, |s|);
        assert s[i + 1..|s|] == s[i + 1..];
        LinesWithoutMarker(s[i + 1..], p);
        FirstLine(s, p, i);
      case None =>
        forall k | 0 <= k < |s| ensures s[k] != '\n' { NewlineAt(s, k); }
    }
  }

  lemma NewlineAt(s: string, k: nat)
    requires k < |s|
    ensures s[k] == '\n' <==> OccursAt(s, "\n", k)
  {
    OccursSlice(s, "\n", k);
    assert s[k..k + 1] == [s[k]];
  }

  lemma FirstLine(s: string, p: string, i: nat)
    requires !Contains(s, p) && p != "" && Find(s, "\n") == Some(i)
    ensures !Contains(StripReturn(s[..i]), p) && '\n' !in StripReturn(s[..i])
  {
    FindSpec(s, "\n");
    forall k | 0 <= k < i ensures s[k] != '\n' { NewlineAt(s, k); }
    SliceWithoutMarker(s, p, 0, i);
    assert s[0..i] == s[..i];
    if StripReturn(s[..i]) != s[..i] {
      SliceWithoutMarker(s, p, 0, i - 1);
      assert s[0..i - 1] == StripReturn(s[..i]);
    }
  }

  lemma SliceWithoutMarker(s: string, p: string, i: nat, j: nat)
    requires !Contains(s, p) && i <= j <= |s|
    ensures !Contains(s[i..j], p)
  {
    forall k: nat ensures !OccursAt(s[i..j], p, k) { SliceOccurs(s, p, i, j, k); }
  }

  lemma SliceOccurs(s: string, p: string, i: nat, j: nat, k: nat)
    requires i <= j <= |s|
    ensures OccursAt(s[i..j], p, k) ==> OccursAt(s, p, i + k)
  {
    if k + |p| <= j - i {
      assert s[..i] + s[i..] == s && s[i..][..j - i] == s[i..j];
      ShiftedOccurs(s[..i], s[i..], p, k);
      OccursInPrefix(s[i..], s[i..j], j - i, p, k);
    }
  }

  lemma {:induction false} TerminatedWithoutMarker(lines: seq<string>, p: string)
    requires NoNewline(p) && p != "" && forall k :: 0 <= k < |lines| ==> !Contains(lines[k], p)
    ensures !Contains(Terminated(lines), p)
    ensures lines != [] ==> Terminated(lines) != "" && Terminated(lines)[|Terminated(lines)| - 1] == '\n'
  {
    if lines != [] {
      TerminatedWithoutMarker(lines[1..], p);
      NotAcrossNewline(lines[0], Terminated(lines[1..]), p);
    }
  }

  lemma ReposWithoutMarker(m: Marks)
    requires Good(m)
    ensures !Contains(REPOS, m.start)
  {
  }

  lemma BeforeWithoutMarker(m: Marks, lines: seq<string>)
    requires Good(m)
    requires forall k :: 0 <= k < |lines| ==> !Contains(lines[k], m.start)
    ensures !Contains(Before(lines), m.start)
    ensures Before(lines) != "" && Before(lines)[|Before(lines)| - 1] == '\n'
  {
    if FirstRepos(lines).Some? {
      TerminatedWithoutMarker(lines[..FirstRepos(lines).value + 1], m.start);
    } else {
      ReposWithoutMarker(m);
      TerminatedNext(lines, REPOS);
      TerminatedWithoutMarker(lines + [REPOS], m.start);
    }
  }

  lemma ReplacedIsEntered(m: Marks, s: string, start: nat, tail: string)
    requires Good(m)
    requires FirstAt(s, m.start, start)
    ensures Entered(m, s[..start] + (Entry(m) + tail), s[..start], tail)
  {
    MarkerStaysFirst(s, m.start, start, AfterStart(m, tail));
    EnteredIf(m, s[..start], tail);
  }

  lemma InsertedIsEntered(m: Marks, s: string)
    requires Good(m)
    requires !Contains(s, m.start)
    ensures Entered(m, Before(Lines(s)) + (Entry(m) + After(Lines(s))), Before(Lines(s)), After(Lines(s)))
  {
    var pre, tail := Before(Lines(s)), After(Lines(s));
    LinesWithoutMarker(s, m.start);
    BeforeWithoutMarker(m, Lines(s));
    FirstAfterNewline(pre, m.start, AfterStart(m, tail));
    EnteredIf(m, pre, tail);
  }

  /** Any merge enters the text; `tail` is what ends up after the entry. */
  lemma MergeIsEntered(m: Marks, s: string) returns (pre: string, tail: string)
    requires Good(m)
    ensures Entered(m, Merged(m, s), pre, tail)
    ensures Contains(s, m.start) ==> tail == "" || tail[0] != '\n'
    ensures !Contains(s, m.start) ==> tail == After(Lines(s))
  {
    FirstFound(s, m.start);
    match Find(s, m.start)
    case Some(start) =>
      var rest := s[SpanEnd(m, s, start + |m.start|)..];
      pre, tail := s[..start], TrimNewlines(rest);
      ReplacedIsEntered(m, s, start, tail);
      TrimNewlinesSpec(rest);
      TrimNewlinesSpec(tail);
      assert OccursAt(s, m.start, start);
    case None =>
      pre, tail := Before(Lines(s)), After(Lines(s));
      InsertedIsEntered(m, s);
  }

  // ----- Convergence -----

  /** A caller can see this before merging: no entry yet, and the first `repos:` line is followed by an empty line. */
  predicate BlankAfterRepos(m: Marks, s: string) {
    && Find(s, m.start).None?
    && FirstRepos(Lines(s)).Some?
    && var k := FirstRepos(Lines(s)).value;
       k + 1 < |Lines(s)| && Lines(s)[k + 1] == ""
  }

  lemma AfterStartsBlank(lines: seq<string>)
    requires forall k :: 0 <= k < |lines| ==> '\n' !in lines[k]
    ensures (After(lines) != "" && After(lines)[0] == '\n') <==>
      FirstRepos(lines).Some? && FirstRepos(lines).value + 1 < |lines| && lines[FirstRepos(lines).value + 1] == ""
  {
    if FirstRepos(lines).Some? { TerminatedStartsBlank(lines[FirstRepos(lines).value + 1..]); }
  }

  lemma TerminatedStartsBlank(lines: seq<string>)
    requires forall k :: 0 <= k < |lines| ==> '\n' !in lines[k]
    ensures (Terminated(lines) != "" && Terminated(lines)[0] == '\n') <==> (lines != [] && lines[0] == "")
  {
    if lines != [] && lines[0] != "" {
      assert Terminated(lines)[0] == lines[0][0] && lines[0][0] in lines[0];
    }
  }

  /** One merge is already a fixed point exactly unless an empty line follows `repos:`. */
  lemma OnceIsFixedIff(m: Marks, s: string)
    requires Good(m)
    ensures Merged(m, Merged(m, s)) == Merged(m, s) <==> !BlankAfterRepos(m, s)
  {
    var pre, tail := MergeIsEntered(m, s);
    FixedIff(m, Merged(m, s), pre, tail);
    FindSpec(s, m.start);
    if !Contains(s, m.start) {
      LinesWithoutMarker(s, m.start);
      AfterStartsBlank(Lines(s));
    }
  }

  /** Two merges are a fixed point on every input. */
  lemma TwiceIsFixed(m: Marks, s: string)
    requires Good(m)
    ensures Merged(m, Merged(m, Merged(m, s))) == Merged(m, Merged(m, s))
  {
    var pre, tail := MergeIsEntered(m, s);
    var once := Merged(m, s);
    FoundAt(once, m.start, |pre|);
    FindSpec(once, m.start);
    OnceIsFixedIff(m, once);
  }

  // ----- What a first install keeps -----

  ghost predicate NewlineOnly(s: string) {
    (s == "" || s[|s| - 1] == '\n') && !Contains(s, "\r\n")
  }

  lemma ReturnPairs(s: string, j: nat)
    ensures OccursAt(s, "\r\n", j) <==> j + 1 < |s| && s[j] == '\r' && s[j + 1] == '\n'
  {
    OccursSlice(s, "\r\n", j);
    if j + 1 < |s| { assert s[j..j + 2] == [s[j], s[j + 1]]; }
  }

  lemma PairInTail(s: string, i: nat, j: nat)
    requires Find(s, "\n") == Some(i) && (i == 0 || s[i - 1] != '\r')
    ensures OccursAt(s, "\r\n", j) <==> j > i && OccursAt(s[i + 1..], "\r\n", j - i - 1)
  {
    FindSpec(s, "\n");
    NewlineAt(s, i);
    ReturnPairs(s, j);
    if j > i { ReturnPairs(s[i + 1..], j - i - 1); }
    if j + 1 < i { NewlineAt(s, j + 1); }
  }

  /** Past a first line that does not end in a carriage return, only the rest decides. */
  lemma NewlineOnlyTail(s: string, i: nat)
    requires Find(s, "\n") == Some(i) && (i == 0 || s[i - 1] != '\r')
    ensures NewlineOnly(s) <==> NewlineOnly(s[i + 1..])
  {
    var rest := s[i + 1..];
    FindSpec(s, "\n");
    NewlineAt(s, i);
    forall j: nat ensures OccursAt(s, "\r\n", j) <==> j > i && OccursAt(rest, "\r\n", j - i - 1) {
      PairInTail(s, i, j);
    }
    if j :| OccursAt(rest, "\r\n", j) {
      PairInTail(s, i, j + i + 1);
    }
  }

  lemma ReturnLine(s: string, i: nat, rest: string)
    requires Find(s, "\n") == Some(i) && i > 0 && s[i - 1] == '\r'
    ensures !NewlineOnly(s) && StripReturn(s[..i]) + ("\n" + rest) != s
  {
    FindSpec(s, "\n");
    NewlineAt(s, i);
    ReturnPairs(s, i - 1);
    assert (StripReturn(s[..i]) + ("\n" + rest))[i - 1] == '\n';
  }

  lemma PlainLine(s: string, i: nat, rest: string)
    requires Find(s, "\n") == Some(i) && (i == 0 || s[i - 1] != '\r')
    ensures StripReturn(s[..i]) + ("\n" + rest) == s <==> rest == s[i + 1..]
  {
    FindSpec(s, "\n");
    NewlineAt(s, i);
    assert s == s[..i] + ("\n" + s[i + 1..]);
    if rest != s[i + 1..] { SuffixDiffers(s[..i], "\n", rest, s[i + 1..]); }
  }

  /** Splitting into lines and terminating each one gives the text back exactly for newline-terminated text. */
  lemma {:induction false} TerminatedLinesIff(s: string)
    ensures Terminated(Lines(s)) == s <==> NewlineOnly(s)
    decreases |s|
  {
    if s == "" {
      assert !Contains(s, "\r\n");
    } else {
      match Find(s, "\n")
      case Some(i) =>
        TerminatedLinesIff(s[i + 1..]);
        var rest := Terminated(Lines(s[i + 1..]));
        assert Terminated(Lines(s)) == StripReturn(s[..i]) + ("\n" + rest);
        if i > 0 && s[i - 1] == '\r' {
          ReturnLine(s, i, rest);
        } else {
          PlainLine(s, i, rest);
          NewlineOnlyTail(s, i);
        }
      case None =>
        FindSpec(s, "\n");
        NewlineAt(s, |s| - 1);
        assert Terminated([s]) == s + "\n";
    }
  }

  /** The `repos:` line that a first install adds when the text has none. */
  function CreatedLine(s: string): string {
    if FirstRepos(Lines(s)).Some? then "" else REPOS + "\n"
  }

  /**
   * On a first install the text around the entry is the old text, and any created `repos:` line, byte for byte
   * exactly when every line of the old text ends in a bare newline; otherwise line ends are rewritten.
   */
  lemma FirstInstallKeepsIff(m: Marks, s: string)
    requires !Contains(s, m.start)
    ensures Merged(m, s) == Before(Lines(s)) + (Entry(m) + After(Lines(s)))
    ensures Before(Lines(s)) + After(Lines(s)) == s + CreatedLine(s) <==> NewlineOnly(s)
  {
    FindSpec(s, m.start);
    TerminatedLinesIff(s);
    AroundEntry(Lines(s));
    if Terminated(Lines(s)) != s { PrefixDiffers(Terminated(Lines(s)), s, CreatedLine(s)); }
  }

  lemma AroundEntry(lines: seq<string>)
    ensures Before(lines) + After(lines)
            == Terminated(lines) + if FirstRepos(lines).Some? then "" else REPOS + "\n"
  {
    if FirstRepos(lines).Some? {
      var k := FirstRepos(lines).value;
      assert lines[..k + 1] + lines[k + 1..] == lines;
      TerminatedConcat(lines[..k + 1], lines[k + 1..]);
      NothingBehind(Terminated(lines));
    } else {
      NothingBehind(Before(lines));
    }
  }

  lemma NothingBehind(a: string)
    ensures a + "" == a
  {
  }

  lemma PrefixDiffers(a: string, b: string, c: string)
    requires a != b
    ensures a + c != b + c
  {
    assert a == (a + c)[..|a|];
    assert b == (b + c)[..|b|];
  }

  // ----- What a re-install keeps -----

  /** A marked block's body and end marker, as a merge writes them. */
  function Marked(m: Marks): string {
    m.start + (m.inside + m.finish)
  }

  lemma EntryIsMarked(m: Marks, pre: string, tail: string)
    ensures pre + (Entry(m) + tail) == pre + (Marked(m) + ("\n" + tail))
  {
    assert Entry(m) + tail == Marked(m) + ("\n" + tail);
  }

  /**
   * What ends up behind the new end marker is what was behind the old one exactly when that is one newline ending its
   * line.
   */
  lemma NewlineKeptIff(rest: string)
    ensures "\n" + TrimNewlines(rest) == rest <==> rest != "" && rest[0] == '\n' && (|rest| == 1 || rest[1] != '\n')
  {
    if rest != "" && rest[0] == '\n' {
      var tail := rest[1..];
      assert rest == "\n" + tail && TrimNewlines(rest) == TrimNewlines(tail);
      TrimNewlinesSpec(tail);
      if TrimNewlines(tail) != tail { assert ("\n" + TrimNewlines(tail))[1..] == TrimNewlines(tail); }
    }
  }

  /**
   * Re-installing over a closed block keeps the text before it, and keeps what is behind its end marker byte for byte
   * exactly when the end marker's line ends there and the next line is not empty; other blank lines are dropped, and
   * a missing newline is added.
   */
  lemma ReinstallKeepsIff(m: Marks, s: string, start: nat, i: nat)
    requires FirstAt(s, m.start, start) && FindFrom(s, m.finish, start + |m.start|) == Some(i)
    ensures var rest := s[i + |m.finish|..];
            && Merged(m, s) == s[..start] + (Marked(m) + ("\n" + TrimNewlines(rest)))
            && (Merged(m, s) == s[..start] + (Marked(m) + rest) <==>
                  rest != "" && rest[0] == '\n' && (|rest| == 1 || rest[1] != '\n'))
  {
    var rest := s[i + |m.finish|..];
    FoundAt(s, m.start, start);
    EntryIsMarked(m, s[..start], TrimNewlines(rest));
    NewlineKeptIff(rest);
    if "\n" + TrimNewlines(rest) != rest { SuffixDiffers(s[..start], Marked(m), "\n" + TrimNewlines(rest), rest); }
  }

  /** A block that is never closed takes everything behind its start marker with it. */
  lemma UnclosedLosesRest(m: Marks, s: string, start: nat)
    requires FirstAt(s, m.start, start) && FindFrom(s, m.finish, start + |m.start|).None?
    ensures Merged(m, s) == s[..start] + Entry(m)
  {
    FoundAt(s, m.start, start);
    assert s[|s|..] == "" && TrimNewlines("") == "";
    AppendNothing(s[..start], Entry(m));
  }

  // ----- The markers and entry rsry installs -----

  // The start marker, in pieces.
  const START_1: string := "  # >>> rsry-managed ("
  const START_2: string := "do not edit between these "
  const START_3: string := "markers; `rsry hooks "
  const START_4: string := "install` regenerates) >>>"
  const MARKER_START: string := (START_1 + START_2) + (START_3 + START_4)
  const MARKER_END: string := "  # <<< rsry-managed <<<"

  // The lines of the entry between its markers.
  const LINE_1: string := "  - repo: local\n"
  const LINE_2: string := "    hooks:\n"
  const LINE_3: string := "      - id: rsry-bead-sync\n"
  const LINE_4A: string := "        name: rsry bead "
  const LINE_4B: string := "export sync (rosary-00f2b5)\n"
  const LINE_5A: string := "        entry: rsry "
  const LINE_5B: string := "hooks run pre-commit\n"
  const LINE_6: string := "        language: system\n"
  const LINE_7: string := "        pass_filenames: false\n"
  const LINE_8: string := "        always_run: true\n"
  const LINE_9: string := "        stages: [pre-commit]\n"
  const BODY: string :=
    ((LINE_1 + LINE_2) + (LINE_3 + (LINE_4A + LINE_4B)))
    + (((LINE_5A + LINE_5B) + LINE_6) + ((LINE_7 + LINE_8) + LINE_9))

  const INSIDE: string := "\n" + BODY
  const RSRY: Marks := Marks(MARKER_START, INSIDE, MARKER_END)

  lemma StartPieces()
    ensures '\n' !in START_1 && '\n' !in START_2 && '\n' !in START_3 && '\n' !in START_4
  {
  }

  lemma EndPiece()
    ensures '\n' !in MARKER_END && MARKER_END[4] == '<' && |MARKER_END| > 4
  {
  }

  lemma MarkerShapes()
    ensures MARKER_START != "" && NoNewline(MARKER_START)
    ensures MARKER_END != "" && NoNewline(MARKER_END) && |MARKER_END| > 4 && MARKER_END[4] == '<'
  {
    StartPieces();
    EndPiece();
    assert |MARKER_START| >= |START_1| > 0;
  }

  lemma Pieces1()
    ensures '<' !in LINE_1 && '<' !in LINE_2 && '<' !in LINE_3
  {
  }

  lemma Pieces2()
    ensures '<' !in LINE_4A && '<' !in LINE_4B
  {
  }

  lemma Pieces3()
    ensures '<' !in LINE_5A && '<' !in LINE_5B
  {
  }

  lemma Pieces4()
    ensures '<' !in LINE_6 && '<' !in LINE_7
  {
  }

  lemma Pieces5()
    ensures '<' !in LINE_8 && '<' !in LINE_9
  {
  }

  lemma BodyShape()
    ensures '<' !in INSIDE && INSIDE != "" && INSIDE[|INSIDE| - 1] == '\n'
  {
    Pieces1();
    Pieces2();
    Pieces3();
    Pieces4();
    Pieces5();
    assert LINE_9[|LINE_9| - 1] == '\n';
  }

  lemma InsideWithoutEnd()
    ensures !Contains(INSIDE, MARKER_END)
  {
    BodyShape();
    MarkerShapes();
    forall j: nat | j + |MARKER_END| <= |INSIDE| ensures !OccursAt(INSIDE, MARKER_END, j) {
      OccursMeans(INSIDE, MARKER_END, j, 4);
      assert INSIDE[j + 4] in INSIDE;
    }
  }

  lemma RsryIsGood()
    ensures Good(RSRY)
  {
    BodyShape();
    MarkerShapes();
    InsideWithoutEnd();
  }

  // ----- Texts on which the promises fail -----

  lemma TooShort(s: string, p: string)
    requires |s| < |p|
    ensures !Contains(s, p) && Find(s, p).None?
  {
    FindSpec(s, p);
  }

  lemma ReposLine()
    ensures TrimEnd(REPOS) == REPOS && NoNewline(REPOS) && StripReturn(REPOS) == REPOS && |REPOS| == 6
  {
    assert REPOS[5] == ':';
  }

  lemma LinesOfRepos(rest: string)
    requires rest == "" || rest == "\n"
    ensures Lines(REPOS + "\n" + rest) == [REPOS] + if rest == "" then [] else [""]
  {
    ReposLine();
    var lines := [REPOS] + if rest == "" then [] else [""];
    assert lines[1..] == if rest == "" then [] else [""];
    assert Terminated([""]) == "" + ("\n" + Terminated([])) == "\n";
    assert REPOS + "\n" + rest == REPOS + ("\n" + rest);
    LinesOfTerminated(lines);
  }

  /** `repos:` and an empty line: the second install still changes the file. */
  lemma BlankLineDelays()
    ensures var s := REPOS + "\n" + "\n"; Merged(RSRY, Merged(RSRY, s)) != Merged(RSRY, s)
  {
    RsryIsGood();
    BlankLineDelaysAny(RSRY);
  }

  lemma BlankLineDelaysAny(m: Marks)
    requires Good(m) && |m.start| > |REPOS| + 2
    ensures var s := REPOS + "\n" + "\n"; Merged(m, Merged(m, s)) != Merged(m, s)
  {
    var s := REPOS + "\n" + "\n";
    ReposLine();
    LinesOfRepos("\n");
    TooShort(s, m.start);
    OnceIsFixedIff(m, s);
  }

  /** `repos:` without a newline: a first install adds one. */
  lemma MissingNewlineAdded()
    ensures Before(Lines(REPOS)) + After(Lines(REPOS)) != REPOS + CreatedLine(REPOS)
  {
    RsryIsGood();
    ReposLine();
    TooShort(REPOS, RSRY.start);
    FirstInstallKeepsIff(RSRY, REPOS);
  }

  lemma BlankBehindDropped(m: Marks, after: string)
    requires Good(m)
    ensures var s := Entry(m) + ("\n" + after); |Merged(m, s)| < |s|
  {
    var tail := "\n" + after;
    var s := "" + (Entry(m) + tail);
    OccursSlice("" + (m.start + AfterStart(m, tail)), m.start, 0);
    EnteredIf(m, "", tail);
    MergeAgain(m, s, "", tail);
    TrimOne(after);
    TrimShorter(after);
    assert s == Entry(m) + tail;
  }

  /** An installed entry and then an empty line: a re-install drops that line. */
  lemma BlankLineDropped(after: string)
    ensures var s := Entry(RSRY) + ("\n" + after); |Merged(RSRY, s)| < |s|
  {
    RsryIsGood();
    BlankBehindDropped(RSRY, after);
  }
}
