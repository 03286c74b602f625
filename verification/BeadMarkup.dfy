/** Guard against tool-call markup absorbed into a field: what it rejects, and how little it reads. */
module BeadMarkup {
  import opened Text

  const PARAMETER: string := "<parameter name="

  predicate IsOpener(s: string) {
    |s| == 16 && s[0] == '<' && s[15] == '=' && forall k :: 0 < k < 16 ==> s[k] != '<'
  }

  /** All that matters of the opener: how long it is, that it ends in '=', and that its only bracket is in front. */
  type Opener = s: string | IsOpener(s) witness PARAMETER

  const OPENER: Opener := PARAMETER

  predicate IsName(c: char) {
    'a' <= c <= 'z' || 'A' <= c <= 'Z' || '0' <= c <= '9' || c == '_'
  }

  /** Names are made of ASCII letters, digits and underscores. */
  lemma NameIff(c: char)
    ensures IsName(c) <==> c in "abcdefghijklm" || c in "nopqrstuvwxyz" || c in "ABCDEFGHIJKLM" || c in "NOPQRSTUVWXYZ"
                           || c in "0123456789" || c == '_'
  {
    Between(c, 'a', "abcdefghijklm");
    Between(c, 'n', "nopqrstuvwxyz");
    Between(c, 'A', "ABCDEFGHIJKLM");
    Between(c, 'N', "NOPQRSTUVWXYZ");
    Between(c, '0', "0123456789");
  }

  /** A string of successive characters holds those from its first to its last. */
  lemma Between(c: char, first: char, all: string)
    requires forall k :: 0 <= k < |all| ==> all[k] as int == first as int + k
    ensures c in all <==> first as int <= c as int < first as int + |all|
  {
    var k := c as int - first as int;
    if 0 <= k < |all| { assert all[k] == c; }
  }

  ghost predicate AllName(s: string) {
    forall k :: 0 <= k < |s| ==> IsName(s[k])
  }

  // ----- What counts as absorbed -----

  /** `</name>` followed by nothing but whitespace. */
  ghost predicate IsClosing(s: string, name: string, blank: string) {
    name != "" && AllName(name) && AllSpace(blank) && s == "</" + name + ">" + blank
  }

  ghost predicate ClosingBefore(value: string, at: nat) {
    at <= |value| && exists i: nat, name, blank :: i <= at && IsClosing(value[i..at], name, blank)
  }

  ghost predicate Absorbed(value: string, opener: Opener) {
    exists at: nat :: OccursAt(value, opener, at) && ClosingBefore(value, at)
  }

  // ----- The backward walk from one opener -----

  function NameRun(s: string): (n: nat)
    ensures n <= |s| && forall k :: |s| - n <= k < |s| ==> IsName(s[k])
    ensures n < |s| ==> !IsName(s[|s| - n - 1])
  {
    if s != "" && IsName(s[|s| - 1]) then NameRun(s[..|s| - 1]) + 1 else 0
  }

  /** The closing tag that a text without trailing whitespace ends in, if any. */
  function TagAtEnd(before: string): Option<string> {
    if !HasSuffix(before, ">") then None
    else
      var inner := before[..|before| - 1];
      var tagStart := |inner| - NameRun(inner);
      if NameRun(inner) > 0 && HasSuffix(inner[..tagStart], "</") then Some(before[tagStart - 2..]) else None
  }

  /** The closing tag the walk finds right before position `at`, if any. */
  function TagBefore(value: string, at: nat): Option<string>
    requires at <= |value|
  {
    TagAtEnd(TrimEnd(value[..at]))
  }

  lemma {:induction false} TrimEndOf(s: string, blank: string)
    requires s != "" && !IsSpace(s[|s| - 1]) && AllSpace(blank)
    ensures TrimEnd(s + blank) == s
    decreases |blank|
  {
    if blank == "" {
      assert s + blank == s;
    } else {
      assert (s + blank)[..|s + blank| - 1] == s + blank[..|blank| - 1];
      TrimEndOf(s, blank[..|blank| - 1]);
    }
  }

  lemma {:induction false} NameRunOf(s: string, name: string)
    requires s != "" && !IsName(s[|s| - 1]) && AllName(name)
    ensures NameRun(s + name) == |name|
    decreases |name|
  {
    if name == "" {
      assert s + name == s;
    } else {
      assert (s + name)[..|s + name| - 1] == s + name[..|name| - 1];
      NameRunOf(s, name[..|name| - 1]);
    }
  }

  /** The bounded walk finds a tag exactly when a closing tag and whitespace lead up to the opener. */
  lemma TagBeforeIff(value: string, at: nat)
    requires at <= |value|
    ensures TagBefore(value, at).Some? <==> ClosingBefore(value, at)
  {
    var v := value[..at];
    var before := TrimEnd(v);
    if TagBefore(value, at).Some? {
      var inner := before[..|before| - 1];
      var name := inner[|inner| - NameRun(inner)..];
      var i: nat := |inner| - |name| - 2;
      assert inner == inner[..i] + "</" + name;
      assert before == inner + ">";
      assert value[i..at] == "</" + name + ">" + v[|before|..];
      assert IsClosing(value[i..at], name, v[|before|..]);
    }
    if ClosingBefore(value, at) {
      var i: nat, name, blank :| i <= at && IsClosing(value[i..at], name, blank);
      WalkFinds(value, at, i, name, blank);
    }
  }

  lemma TagFound(front: string, name: string)
    requires name != "" && AllName(name) && HasSuffix(front, "</")
    ensures TagAtEnd(front + name + ">") == Some((front + name + ">")[|front| - 2..])
  {
    var inner := front + name;
    assert (inner + ">")[..|inner|] == inner;
    assert front[|front| - 1] == '/';
    NameRunOf(front, name);
    assert inner[..|front|] == front;
  }

  lemma TagTrimmed(front: string, name: string, blank: string)
    requires name != "" && AllName(name) && AllSpace(blank) && HasSuffix(front, "</")
    ensures TagAtEnd(TrimEnd(front + name + ">" + blank)) == Some((front + name + ">")[|front| - 2..])
  {
    TrimEndOf(front + name + ">", blank);
    TagFound(front, name);
  }

  lemma WalkFinds(value: string, at: nat, i: nat, name: string, blank: string)
    requires i <= at <= |value| && IsClosing(value[i..at], name, blank)
    ensures TagBefore(value, at) == Some("</" + name + ">")
  {
    var pre := value[..i];
    assert value[..at] == pre + value[i..at];
    InFront(pre, "</", name, ">", blank);
    TagTrimmed(pre + "</", name, blank);
  }

  lemma InFront(pre: string, open: string, name: string, close: string, blank: string)
    ensures pre + (open + name + close + blank) == pre + open + name + close + blank
    ensures (pre + open + name + close)[|pre|..] == open + name + close
  {
  }

  // ----- How much the walk reads -----

  /** First position of the run of whitespace, bracket and name characters the walk passes over. */
  function WalkStart(value: string, at: nat): (start: nat)
    requires at <= |value|
    ensures start <= at
  {
    var before := TrimEnd(value[..at]);
    if !HasSuffix(before, ">") then |before|
    else |before| - 1 - NameRun(before[..|before| - 1])
  }

  /** Bytes that trimming reads: the whitespace it drops and the character that stops it. */
  function TrimReads(v: string): nat {
    var before := TrimEnd(v);
    ByteLen(v[|before|..]) + if before == "" then 0 else CharBytes(before[|before| - 1])
  }

  /** Bytes read from one opener: each scan's run, the character that stops it, and the two bytes of the tag. */
  function WalkCost(value: string, at: nat): nat
    requires at <= |value|
  {
    var before := TrimEnd(value[..at]);
    var trim := TrimReads(value[..at]);
    var probe := if before == "" then 0 else 1;
    if !HasSuffix(before, ">") then trim + probe
    else
      var inner := before[..|before| - 1];
      var run := NameRun(inner);
      trim + probe + run + (if run < |inner| then 1 else 0) + (if 0 < run <= |inner| - 2 then 2 else 0)
  }

  /** `trim_end`, reading characters from the back. */
  method Trimmed(v: string) returns (before: string, ghost cost: nat)
    ensures before == TrimEnd(v) && cost == TrimReads(v)
  {
    before, cost := v, 0;
    while before != ""
      invariant before <= v && TrimEnd(before) == TrimEnd(v) && cost == ByteLen(v[|before|..])
      decreases |before|
    {
      var c := before[|before| - 1];
      PrependBytes(v, |before| - 1);
      cost := cost + CharBytes(c);
      if !IsSpace(c) {
        return;
      }
      before := before[..|before| - 1];
    }
  }

  lemma PrependBytes(v: string, i: nat)
    requires i < |v|
    ensures ByteLen(v[i..]) == CharBytes(v[i]) + ByteLen(v[i + 1..])
  {
    assert v[i..][1..] == v[i + 1..];
  }

  /** `take_while` over the bytes from the back: the name's, and the one that stops it. */
  method NameLength(inner: string) returns (n: nat, ghost cost: nat)
    ensures n == NameRun(inner) && cost == n + if n < |inner| then 1 else 0
  {
    n, cost := 0, 0;
    while n < |inner|
      invariant n <= |inner| && NameRun(inner) == n + NameRun(inner[..|inner| - n]) && cost == n
    {
      assert inner[..|inner| - n][..|inner| - n - 1] == inner[..|inner| - n - 1];
      cost := cost + 1;
      if !IsName(inner[|inner| - n - 1]) {
        return;
      }
      n := n + 1;
    }
  }

  /** The walk from one opener: trim, probe for the bracket, run back over the name, look for the tag's start. */
  method WalkBack(value: string, at: nat) returns (tag: Option<string>, ghost cost: nat)
    requires at <= |value|
    ensures tag == TagBefore(value, at) && cost == WalkCost(value, at)
  {
    var before;
    before, cost := Trimmed(value[..at]);
    TrimmedSlice(value, at);
    if before == "" {
      return None, cost;
    }
    cost := cost + 1;
    if before[|before| - 1] != '>' {
      return None, cost;
    }
    var inner := before[..|before| - 1];
    ghost var more;
    var n;
    n, more := NameLength(inner);
    cost := cost + more;
    if n == 0 {
      return None, cost;
    }
    var front := inner[..|inner| - n];
    cost := cost + if |front| < 2 then 0 else 2;
    tag := if HasSuffix(front, "</") then Some(before[|front| - 2..]) else None;
  }

  lemma TrimmedSlice(value: string, at: nat)
    requires at <= |value|
    ensures var before := TrimEnd(value[..at]); value[..at][|before|..] == value[|before|..at]
  {
  }

  lemma {:induction false} NameBytes(s: string)
    requires AllName(s)
    ensures ByteLen(s) == |s|
  {
    if s != "" { NameBytes(s[1..]); }
  }

  lemma TagBytes(name: string, blank: string)
    requires AllName(name)
    ensures ByteLen(name + (">" + blank)) == |name| + 1 + ByteLen(blank)
  {
    NameBytes(name);
    ByteLenConcat(name, ">" + blank);
    ByteLenConcat(">", blank);
  }

  lemma SplitAt(value: string, a: nat, b: nat, c: nat)
    requires a <= b < c <= |value|
    ensures value[a..c] == value[a..b] + ([value[b]] + value[b + 1..c])
  {
  }

  lemma WalkCostBound(value: string, at: nat)
    requires at <= |value|
    ensures WalkCost(value, at) <= ByteLen(value[WalkStart(value, at)..at]) + 8
  {
    var before := TrimEnd(value[..at]);
    if HasSuffix(before, ">") {
      var start := WalkStart(value, at);
      var name, blank := value[start..|before| - 1], value[|before|..at];
      SplitAt(value, start, |before| - 1, at);
      assert name == before[..|before| - 1][start..];
      TagBytes(name, blank);
    }
  }

  lemma SpaceAfterTrim(v: string, k: nat)
    requires |TrimEnd(v)| <= k < |v|
    ensures IsSpace(v[k])
  {
    assert v[|TrimEnd(v)|..][k - |TrimEnd(v)|] == v[k];
  }

  lemma WalkStaysInRun(value: string, at: nat, k: nat)
    requires at <= |value| && WalkStart(value, at) <= k < at
    ensures IsSpace(value[k]) || value[k] == '>' || IsName(value[k])
  {
    var before := TrimEnd(value[..at]);
    if k >= |before| {
      SpaceAfterTrim(value[..at], k);
    } else if k < |before| - 1 {
      assert before[..|before| - 1][k] == value[k];
    }
  }

  // ----- The guard -----

  lemma OpenersApart(value: string, opener: Opener, a: nat, b: nat)
    requires OccursAt(value, opener, a) && a < b < a + |opener|
    ensures !OccursAt(value, opener, b)
  {
    OccursChar(value, opener, a, b - a);
    OccursMeans(value, opener, b, 0);
  }

  /** Walks never reach back into the previous opener, so their runs are disjoint. */
  lemma WalkAfterPrevious(value: string, end: nat, at: nat)
    requires end <= at <= |value|
    requires end > 0 ==> value[end - 1] == '='
    ensures end <= WalkStart(value, at)
    ensures ByteLen(value[..end]) + ByteLen(value[WalkStart(value, at)..at]) <= ByteLen(value[..at])
  {
    var start := WalkStart(value, at);
    if end > 0 && start < end { WalkStaysInRun(value, at, end - 1); }
    SliceBytes(value, end, start, at);
  }

  lemma SliceBytes(value: string, a: nat, b: nat, c: nat)
    requires a <= b <= c <= |value|
    ensures ByteLen(value[..a]) + ByteLen(value[b..c]) <= ByteLen(value[..c])
  {
    PrefixBytes(value, a, b);
    ByteLenConcat(value[..b], value[b..c]);
    assert value[..b] + value[b..c] == value[..c];
  }

  /** What has been established once everything before `end` is scanned. */
  ghost predicate CleanUpTo(value: string, opener: Opener, end: nat) {
    && end <= |value| && (end > 0 ==> value[end - 1] == '=')
    && forall at: nat :: at < end && OccursAt(value, opener, at) ==> !ClosingBefore(value, at)
  }

  lemma PastOpener(value: string, opener: Opener, end: nat, at: nat)
    requires CleanUpTo(value, opener, end) && end <= at && OccursAt(value, opener, at) && !ClosingBefore(value, at)
    requires forall b :: end <= b < at ==> !OccursAt(value, opener, b)
    ensures CleanUpTo(value, opener, at + |opener|)
  {
    forall b: nat | b < at + |opener| && OccursAt(value, opener, b) ensures !ClosingBefore(value, b) {
      if b > at { OpenersApart(value, opener, at, b); }
    }
    OccursChar(value, opener, at, |opener| - 1);
  }

  lemma StepCost(value: string, opener: Opener, end: nat, at: nat)
    requires CleanUpTo(value, opener, end) && end <= at && OccursAt(value, opener, at)
    ensures ByteLen(value[..end]) + WalkCost(value, at) <= ByteLen(value[..at]) + 8
    ensures ByteLen(value[..at]) <= ByteLen(value[..at + |opener|])
    ensures ByteLen(value[..at]) <= ByteLen(value)
  {
    WalkCostBound(value, at);
    WalkAfterPrevious(value, end, at);
    PrefixBytes(value, at, at + |opener|);
    SplitBytes(value, at);
  }

  // ----- All walks together -----

  /** The openers the guard looks at from `end` on: every one up to the first that follows a closing tag. */
  function Openers(value: string, opener: Opener, end: nat): seq<nat>
    requires end <= |value|
    decreases |value| - end
  {
    match FindFrom(value, opener, end)
    case None => []
    case Some(at) => if TagBefore(value, at).Some? then [at] else [at] + Openers(value, opener, at + |opener|)
  }

  /** What the walks from those openers read together. */
  function TotalCost(value: string, opener: Opener, end: nat): nat
    requires end <= |value|
    decreases |value| - end
  {
    match FindFrom(value, opener, end)
    case None => 0
    case Some(at) =>
      WalkCost(value, at) + if TagBefore(value, at).Some? then 0 else TotalCost(value, opener, at + |opener|)
  }

  lemma CleanStep(value: string, opener: Opener, end: nat, at: nat)
    requires CleanUpTo(value, opener, end) && FindFrom(value, opener, end) == Some(at)
    ensures end <= at && OccursAt(value, opener, at)
    ensures TagBefore(value, at).None? ==> CleanUpTo(value, opener, at + |opener|)
  {
    FindFromSpec(value, opener, end);
    TagBeforeIff(value, at);
    if TagBefore(value, at).None? { PastOpener(value, opener, end, at); }
  }

  /** From `end` on, n openers and their walks fit the bytes that are left. */
  ghost predicate Within(value: string, opener: Opener, end: nat, cost: nat, n: nat)
    requires end <= |value|
  {
    && ByteLen(value[..end]) + cost <= ByteLen(value) + 8 * n
    && ByteLen(value[..end]) + 16 * n <= ByteLen(value)
  }

  lemma OneMoreWalk(value: string, opener: Opener, end: nat, at: nat, cost: nat, n: nat)
    requires CleanUpTo(value, opener, end) && end <= at && OccursAt(value, opener, at)
    requires Within(value, opener, at + |opener|, cost, n)
    ensures Within(value, opener, end, WalkCost(value, at) + cost, n + 1)
  {
    StepCost(value, opener, end, at);
    OpenerBytes(value, opener, end, at);
  }

  lemma NextCost(value: string, opener: Opener, end: nat, at: nat)
    requires end <= |value| && FindFrom(value, opener, end) == Some(at)
    ensures TotalCost(value, opener, end)
            == WalkCost(value, at) + if TagBefore(value, at).Some? then 0 else TotalCost(value, opener, at + |opener|)
  {
  }

  lemma NextOpener(value: string, opener: Opener, end: nat, at: nat)
    requires end <= |value| && FindFrom(value, opener, end) == Some(at)
    ensures TagBefore(value, at).Some? ==> |Openers(value, opener, end)| == 1
    ensures TagBefore(value, at).None? ==> |Openers(value, opener, end)| == 1 + |Openers(value, opener, at + |opener|)|
  {
  }

  lemma NoOpener(value: string, opener: Opener, end: nat)
    requires end <= |value| && FindFrom(value, opener, end).None?
    ensures TotalCost(value, opener, end) == 0 && |Openers(value, opener, end)| == 0
  {
  }

  lemma {:induction false} CostFrom(value: string, opener: Opener, end: nat)
    requires CleanUpTo(value, opener, end)
    ensures Within(value, opener, end, TotalCost(value, opener, end), |Openers(value, opener, end)|)
    decreases |value| - end, 1
  {
    match FindFrom(value, opener, end)
    case None =>
      SplitBytes(value, end);
      NoOpener(value, opener, end);
    case Some(at) =>
      NextCost(value, opener, end, at);
      NextOpener(value, opener, end, at);
      CostPast(value, opener, end, at);
  }

  lemma {:induction false} CostPast(value: string, opener: Opener, end: nat, at: nat)
    requires CleanUpTo(value, opener, end) && FindFrom(value, opener, end) == Some(at)
    ensures var stops, next := TagBefore(value, at).Some?, at + |opener|;
            && (stops ==> Within(value, opener, end, WalkCost(value, at), 1))
            && (!stops ==> Within(value, opener, end, WalkCost(value, at) + TotalCost(value, opener, next),
                                  1 + |Openers(value, opener, next)|))
    decreases |value| - end, 0
  {
    var next := at + |opener|;
    CleanStep(value, opener, end, at);
    if TagBefore(value, at).Some? {
      SplitBytes(value, next);
      OneMoreWalk(value, opener, end, at, 0, 0);
    } else {
      CostFrom(value, opener, next);
      OneMoreWalk(value, opener, end, at, TotalCost(value, opener, next), |Openers(value, opener, next)|);
    }
  }

  lemma OpenerBytes(value: string, opener: Opener, end: nat, at: nat)
    requires end <= at && OccursAt(value, opener, at)
    ensures ByteLen(value[..end]) + |opener| <= ByteLen(value[..at + |opener|])
  {
    PrefixBytes(value, end, at);
    ByteLenConcat(value[..at], value[at..at + |opener|]);
    assert value[..at] + value[at..at + |opener|] == value[..at + |opener|];
  }

  /**
   * All walks together read at most the value's bytes plus eight per opener, which is at most one and a half times
   * the value's bytes.
   */
  lemma WalksAreLinear(value: string, opener: Opener)
    ensures TotalCost(value, opener, 0) <= ByteLen(value) + 8 * |Openers(value, opener, 0)|
    ensures 2 * TotalCost(value, opener, 0) <= 3 * ByteLen(value)
  {
    CostFrom(value, opener, 0);
  }

  /** The tag is a closing tag that leads up to some opener. */
  ghost predicate LeadsUp(value: string, opener: Opener, tag: string) {
    exists at: nat :: OccursAt(value, opener, at) && TagBefore(value, at) == Some(tag)
  }

  lemma LeadsUpIsAbsorbed(value: string, opener: Opener, at: nat)
    requires OccursAt(value, opener, at) && TagBefore(value, at).Some?
    ensures Absorbed(value, opener) && LeadsUp(value, opener, TagBefore(value, at).value)
  {
    TagBeforeIff(value, at);
  }

  lemma CleanIsNotAbsorbed(value: string, opener: Opener, end: nat)
    requires CleanUpTo(value, opener, end) && FindFrom(value, opener, end).None?
    ensures !Absorbed(value, opener)
  {
    FindFromSpec(value, opener, end);
  }

  /** The scan has come to `end`: all clean, and what is still to be read is the rest of the total. */
  ghost predicate Scanned(value: string, opener: Opener, end: nat, cost: nat)
  {
    CleanUpTo(value, opener, end) && cost + TotalCost(value, opener, end) == TotalCost(value, opener, 0)
  }

  /** What the guard promises. */
  ghost predicate Guarded(value: string, opener: Opener, tag: Option<string>, cost: nat)
  {
    && (tag.Some? <==> Absorbed(value, opener))
    && (tag.Some? ==> LeadsUp(value, opener, tag.value))
    && cost == TotalCost(value, opener, 0)
  }

  /** What the walk from the next opener settles: the value is absorbed, or it is clean up to behind that opener. */
  lemma AfterWalk(value: string, opener: Opener, end: nat, at: nat, tag: Option<string>, cost: nat)
    requires Scanned(value, opener, end, cost) && FindFrom(value, opener, end) == Some(at)
    requires tag == TagBefore(value, at)
    ensures tag.Some? ==> Guarded(value, opener, tag, cost + WalkCost(value, at))
    ensures tag.None? ==> end <= at && Scanned(value, opener, at + |opener|, cost + WalkCost(value, at))
  {
    CleanStep(value, opener, end, at);
    NextCost(value, opener, end, at);
    if tag.Some? { LeadsUpIsAbsorbed(value, opener, at); }
  }

  lemma ScanEnds(value: string, opener: Opener, end: nat, cost: nat)
    requires Scanned(value, opener, end, cost) && FindFrom(value, opener, end).None?
    ensures Guarded(value, opener, None, cost)
  {
    NoOpener(value, opener, end);
    CleanIsNotAbsorbed(value, opener, end);
  }

  lemma ScanBegins(value: string, opener: Opener)
    ensures Scanned(value, opener, 0, 0)
  {
  }

  method GuardAt(value: string, opener: Opener, end: nat, at: nat, ghost before: nat)
    returns (tag: Option<string>, ghost cost: nat)
    requires Scanned(value, opener, end, before) && FindFrom(value, opener, end) == Some(at)
    ensures tag.Some? ==> Guarded(value, opener, tag, cost)
    ensures tag.None? ==> end <= at && Scanned(value, opener, at + |opener|, cost)
  {
    tag, cost := WalkBack(value, at);
    AfterWalk(value, opener, end, at, tag, before);
    cost := before + cost;
  }

  method Guard(value: string, opener: Opener) returns (tag: Option<string>, ghost cost: nat)
    ensures Guarded(value, opener, tag, cost)
  {
    tag, cost := None, 0;
    var end: nat := 0;
    var next := FindFrom(value, opener, end);
    ScanBegins(value, opener);
    while next.Some?
      invariant Scanned(value, opener, end, cost) && next == FindFrom(value, opener, end)
      decreases |value| - end
    {
      tag, cost := GuardAt(value, opener, end, next.value, cost);
      if tag.Some? { return; }
      end := next.value + |opener|;
      next := FindFrom(value, opener, end);
    }
    ScanEnds(value, opener, end, cost);
    tag := None;
  }

  /** Rejects exactly the absorbed values; its walks, which count what they read, read the total. */
  method RejectAbsorbedParameter(value: string) returns (tag: Option<string>, ghost cost: nat)
    ensures tag.Some? <==> Absorbed(value, OPENER)
    ensures tag.Some? ==> LeadsUp(value, OPENER, tag.value)
    ensures cost == TotalCost(value, OPENER, 0)
  {
    tag, cost := Guard(value, OPENER);
  }

  lemma PrefixBytes(value: string, a: nat, b: nat)
    requires a <= b <= |value|
    ensures ByteLen(value[..a]) <= ByteLen(value[..b])
  {
    ByteLenConcat(value[..a], value[a..b]);
    assert value[..a] + value[a..b] == value[..b];
  }

  lemma SplitBytes(value: string, a: nat)
    requires a <= |value|
    ensures ByteLen(value[..a]) <= ByteLen(value)
  {
    PrefixBytes(value, a, |value|);
    assert value[..|value|] == value;
  }
}
