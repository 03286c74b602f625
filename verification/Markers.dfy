/** Where a marker first occurs in a text that has just been given a marked block. */
module Markers {
  import opened Text

  ghost predicate FirstAt(s: string, p: string, i: nat) {
    OccursAt(s, p, i) && forall j :: 0 <= j < i ==> !OccursAt(s, p, j)
  }

  predicate NoNewline(s: string) {
    '\n' !in s
  }

  lemma FoundAt(s: string, p: string, i: nat)
    requires FirstAt(s, p, i)
    ensures Find(s, p) == Some(i)
  {
    FindFromIs(s, p, 0, i);
  }

  lemma FirstFound(s: string, p: string)
    ensures Find(s, p).Some? ==> FirstAt(s, p, Find(s, p).value)
    ensures Find(s, p).None? ==> !Contains(s, p)
  {
    FindSpec(s, p);
  }

  lemma SliceOfPrefix(s: string, n: nat, i: nat, j: nat)
    requires i <= j <= n <= |s|
    ensures s[..n][i..j] == s[i..j]
  {
  }

  /** An occurrence within a common prefix is an occurrence in both texts. */
  lemma OccursInPrefix(s: string, t: string, n: nat, p: string, i: nat)
    requires n <= |s| && n <= |t| && s[..n] == t[..n] && i + |p| <= n
    ensures OccursAt(s, p, i) <==> OccursAt(t, p, i)
  {
    OccursSlice(s, p, i);
    OccursSlice(t, p, i);
    SliceOfPrefix(s, n, i, i + |p|);
    SliceOfPrefix(t, n, i, i + |p|);
  }

  /** Keeping the text up to and including the first marker keeps that marker first. */
  lemma MarkerStaysFirst(s: string, p: string, start: nat, rest: string)
    requires FirstAt(s, p, start)
    ensures FirstAt(s[..start] + (p + rest), p, start)
  {
    var t := s[..start] + (p + rest);
    var n := start + |p|;
    OccursSlice(s, p, start);
    assert s[..n] == s[..start] + s[start..n] && t[..n] == s[..start] + p;
    forall j: nat | j <= start ensures OccursAt(t, p, j) <==> OccursAt(s, p, j) { OccursInPrefix(s, t, n, p, j); }
  }

  /** A marker without newlines cannot straddle one. */
  lemma NoStraddle(a: string, p: string, rest: string, j: nat)
    requires a != "" && a[|a| - 1] == '\n' && NoNewline(p) && j < |a|
    ensures OccursAt(a + rest, p, j) ==> OccursAt(a, p, j)
  {
    if j + |p| <= |a| {
      OccursInPrefix(a + rest, a, |a|, p, j);
    } else {
      OccursMeans(a + rest, p, j, |a| - 1 - j);
    }
  }

  lemma FirstAfterNewline(a: string, p: string, rest: string)
    requires !Contains(a, p) && NoNewline(p) && (a == "" || a[|a| - 1] == '\n')
    ensures FirstAt(a + (p + rest), p, |a|)
  {
    var t := a + (p + rest);
    OccursSlice(t, p, |a|);
    assert t[|a|..|a| + |p|] == p;
    forall j: nat | j < |a| ensures !OccursAt(t, p, j) {
      NoStraddle(a, p, p + rest, j);
    }
  }

  /** A marker whose first character occurs in it only once cannot overlap a copy of itself. */
  lemma FirstByHead(a: string, p: string, rest: string)
    requires !Contains(a, p) && p != "" && p[0] !in p[1..]
    ensures FirstAt(a + (p + rest), p, |a|)
  {
    var t := a + (p + rest);
    OccursSlice(t, p, |a|);
    assert t[|a|..|a| + |p|] == p;
    forall j: nat | j < |a| ensures !OccursAt(t, p, j) {
      if j + |p| <= |a| {
        OccursInPrefix(t, a, |a|, p, j);
      } else {
        OccursMeans(t, p, j, |a| - j);
        assert p[|a| - j] == p[1..][|a| - j - 1];
      }
    }
  }

  lemma OnOneSide(a: string, b: string, p: string, j: nat)
    requires NoNewline(p) && p != ""
    ensures OccursAt(a + ("\n" + b), p, j) ==> OccursAt(a, p, j) || OccursAt(b, p, j - |a| - 1)
  {
    var t := a + ("\n" + b);
    if j + |p| <= |a| {
      OccursInPrefix(t, a, |a|, p, j);
    } else if j <= |a| {
      OccursMeans(t, p, j, |a| - j);
    } else if j + |p| <= |t| {
      OccursSlice(t, p, j);
      OccursSlice(b, p, j - |a| - 1);
      assert t[j..j + |p|] == b[j - |a| - 1..j - |a| - 1 + |p|];
    }
  }

  lemma NotAcrossNewline(a: string, b: string, p: string)
    requires !Contains(a, p) && !Contains(b, p) && NoNewline(p) && p != ""
    ensures !Contains(a + ("\n" + b), p)
  {
    forall j | 0 <= j ensures !OccursAt(a + ("\n" + b), p, j) { OnOneSide(a, b, p, j); }
  }

  lemma ShiftedOccurs(a: string, b: string, p: string, j: nat)
    ensures OccursAt(a + b, p, |a| + j) <==> OccursAt(b, p, j)
  {
    OccursSlice(a + b, p, |a| + j);
    OccursSlice(b, p, j);
    if j + |p| <= |b| { assert (a + b)[|a| + j..|a| + j + |p|] == b[j..j + |p|]; }
  }

  lemma NotShiftedBefore(s: string, a: string, b: string, p: string, i: nat, j: nat)
    requires s == a + b && FirstAt(b, p, i) && |a| <= j < |a| + i
    ensures !OccursAt(s, p, j)
  {
    ShiftedOccurs(a, b, p, j - |a|);
  }

  lemma ShiftedHit(s: string, a: string, b: string, p: string, i: nat)
    requires s == a + b && OccursAt(b, p, i)
    ensures OccursAt(s, p, |a| + i)
  {
    ShiftedOccurs(a, b, p, i);
  }

  /** Searching from the start of `b` inside `a + b` finds what searching `b` finds. */
  lemma ShiftedFirst(s: string, a: string, b: string, p: string, i: nat)
    requires s == a + b && FirstAt(b, p, i)
    ensures FindFrom(s, p, |a|) == Some(|a| + i)
  {
    var at := |a| + i;
    ShiftedHit(s, a, b, p, i);
    forall j: nat | |a| <= j < at ensures !OccursAt(s, p, j) { NotShiftedBefore(s, a, b, p, i, j); }
    FindFromIs(s, p, |a|, at);
  }
}
