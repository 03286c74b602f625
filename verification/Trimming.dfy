/** What trimming leaves of a text. */
module Trimming {
  import opened Text

  /** core without the whitespace around it: it begins and ends with none, if it is not empty. */
  ghost predicate Core(s: string, core: string) {
    && (exists a, b :: AllSpace(a) && AllSpace(b) && s == a + core + b)
    && (core != "" ==> !IsSpace(core[0]) && !IsSpace(core[|core| - 1]))
  }

  lemma {:induction false} TrimStartSplits(s: string)
    ensures |TrimStart(s)| <= |s| && s[|s| - |TrimStart(s)|..] == TrimStart(s)
    ensures AllSpace(s[..|s| - |TrimStart(s)|])
    ensures TrimStart(s) != "" ==> !IsSpace(TrimStart(s)[0])
  {
    if s != [] && IsSpace(s[0]) {
      TrimStartSplits(s[1..]);
      assert s == [s[0]] + s[1..];
    }
  }

  lemma TrimIsCore(s: string)
    ensures Core(s, Trim(s))
  {
    TrimStartSplits(TrimEnd(s));
    CoreOfParts(s, TrimEnd(s), Trim(s));
  }

  lemma CoreOfParts(s: string, v: string, core: string)
    requires v <= s && AllSpace(s[|v|..]) && (v != "" ==> !IsSpace(v[|v| - 1]))
    requires |core| <= |v| && v[|v| - |core|..] == core && AllSpace(v[..|v| - |core|])
    requires core != "" ==> !IsSpace(core[0])
    ensures Core(s, core)
  {
    var a, b := v[..|v| - |core|], s[|v|..];
    assert s == v + b && v == a + core;
    assert AllSpace(a) && AllSpace(b) && s == a + core + b;
    if core != "" { assert core[|core| - 1] == v[|v| - 1]; }
  }

  lemma CoreStart(s: string, a: string, core: string, b: string, c: string, other: string, d: string)
    requires AllSpace(a) && AllSpace(c) && s == a + core + b && s == c + other + d
    requires core != "" && other != "" && !IsSpace(core[0]) && !IsSpace(other[0])
    ensures |a| == |c|
  {
    assert s[|a|] == core[0] && s[|c|] == other[0];
    assert forall k :: 0 <= k < |a| ==> s[k] == a[k];
    assert forall k :: 0 <= k < |c| ==> s[k] == c[k];
  }

  lemma CoreUnique(s: string, core: string, other: string)
    requires Core(s, core) && Core(s, other)
    ensures core == other
  {
    var a, b :| AllSpace(a) && AllSpace(b) && s == a + core + b;
    var c, d :| AllSpace(c) && AllSpace(d) && s == c + other + d;
    assert core != "" ==> s[|a|] == core[0];
    assert other != "" ==> s[|c|] == other[0];
    if core != "" && other != "" {
      CoreStart(s, a, core, b, c, other, d);
      CoreEnd(s, a, core, b, c, other, d);
    }
  }

  lemma CoreEnd(s: string, a: string, core: string, b: string, c: string, other: string, d: string)
    requires AllSpace(b) && AllSpace(d) && s == a + core + b && s == c + other + d && |a| == |c|
    requires core != "" && other != "" && !IsSpace(core[|core| - 1]) && !IsSpace(other[|other| - 1])
    ensures core == other
  {
    var i, j := |a| + |core|, |c| + |other|;
    assert s[i - 1] == core[|core| - 1] && s[j - 1] == other[|other| - 1];
    assert s[i..] == b && s[j..] == d;
    assert forall k :: i <= k < |s| ==> s[k] == b[k - i];
    assert forall k :: j <= k < |s| ==> s[k] == d[k - j];
    assert s[|a|..i] == core && s[|c|..j] == other;
  }

  /** Trimming gives the text without the whitespace around it. */
  lemma TrimIff(s: string, core: string)
    ensures Trim(s) == core <==> Core(s, core)
  {
    TrimIsCore(s);
    if Core(s, core) { CoreUnique(s, core, Trim(s)); }
  }

  lemma EmptyCore(s: string)
    requires Core(s, "")
    ensures AllSpace(s)
  {
    var a, b :| AllSpace(a) && AllSpace(b) && s == a + "" + b;
    assert forall i :: 0 <= i < |s| ==> s[i] == if i < |a| then a[i] else b[i - |a|];
  }

  /** Nothing is left of blanks, and of nothing else. */
  lemma BlankIff(s: string)
    ensures Trim(s) == "" <==> AllSpace(s)
  {
    TrimIff(s, "");
    if Core(s, "") { EmptyCore(s); }
    if AllSpace(s) { assert AllSpace("") && s == s + "" + ""; }
  }

  lemma SameCoreIff(a: string, b: string)
    ensures Trim(a) == Trim(b) <==> exists core :: Core(a, core) && Core(b, core)
  {
    TrimIsCore(a);
    TrimIsCore(b);
    if core :| Core(a, core) && Core(b, core) {
      CoreUnique(a, core, Trim(a));
      CoreUnique(b, core, Trim(b));
    }
  }
}
