/** What the similarity signals say of two titles and descriptions, in terms of their words and prefixes alone. */
module Signals {
  import opened Text
  import opened Trimming
  import opened Similarity

  // ----- Word overlap -----

  /** r is the share of the words of x and y that they have in common, or `none` when they have no words. */
  ghost predicate Shares(r: real, x: set<string>, y: set<string>, none: real) {
    if x + y == {} then r == none else r * (|x + y| as real) == |x * y| as real
  }

  ghost function WordsIn(t: string): set<string> {
    set w | w in Words(t)
  }

  lemma WordsInIs(t: string)
    ensures WordSet(t) == WordsIn(t)
  {
  }

  /** More than four fifths of the words of the two titles are common to both, or there are none. */
  ghost predicate NearDuplicates(a: string, b: string) {
    var x, y := WordsIn(a), WordsIn(b);
    x + y == {} || 5 * |x * y| > 4 * |x + y|
  }

  function RatioOr(x: set<string>, y: set<string>, none: real): real {
    if x + y == {} then none else Ratio(x, y)
  }

  lemma RatioShares(x: set<string>, y: set<string>, none: real)
    ensures Shares(RatioOr(x, y, none), x, y, none)
  {
  }

  lemma ShareOverFourFifths(r: real, x: set<string>, y: set<string>)
    requires Shares(r, x, y, 1.0)
    ensures r > 0.8 <==> x + y == {} || 5 * |x * y| > 4 * |x + y|
  {
    if x + y != {} { Quotient(r, |x * y|, |x + y|); }
  }

  lemma Quotient(r: real, common: nat, all: nat)
    requires r * (all as real) == common as real && all > 0
    ensures r > 0.8 <==> 5 * common > 4 * all
  {
    if r > 0.8 { assert r * (all as real) > 0.8 * (all as real); }
    if r <= 0.8 { assert r * (all as real) <= 0.8 * (all as real); }
  }

  lemma NearDuplicatesIff(a: string, b: string)
    ensures JaccardSimilarity(a, b) > 0.8 <==> NearDuplicates(a, b)
  {
    WordsInIs(a);
    WordsInIs(b);
    assert JaccardSimilarity(a, b) == RatioOr(WordsIn(a), WordsIn(b), 1.0);
    RatioShares(WordsIn(a), WordsIn(b), 1.0);
    ShareOverFourFifths(JaccardSimilarity(a, b), WordsIn(a), WordsIn(b));
  }

  // ----- Sequences -----

  /** The titles differ, but not once their numbering is taken out, in one of the two ways there are. */
  ghost predicate StepsOfOne(f: Folds, a: string, b: string) {
    var x, y := f.lower(a), f.lower(b);
    x != y &&
    ((f.stripSequence(x) == f.stripSequence(y) && f.stripSequence(x) != "")
     || (f.stripCount(x) == f.stripCount(y) && f.stripCount(x) != ""))
  }

  lemma StepsOfOneIff(f: Folds, a: string, b: string)
    ensures SequentialSimilarity(f, a, b) == if StepsOfOne(f, a, b) then 1.0 else 0.0
  {
  }

  // ----- Scopes -----

  /** The same letters, but for the case of ASCII ones. */
  ghost predicate SameLetters(p: string, q: string) {
    && |p| == |q|
    && forall i :: 0 <= i < |p| ==>
         || p[i] == q[i]
         || ('A' <= p[i] <= 'Z' && q[i] as int == p[i] as int + 32)
         || ('A' <= q[i] <= 'Z' && p[i] as int == q[i] as int + 32)
  }

  /** p is what precedes the first colon of the title, trimmed. */
  ghost predicate UnderColon(t: string, p: string) {
    exists i :: 0 <= i < |t| && t[i] == ':' && ':' !in t[..i] && Core(t[..i], p)
  }

  /** The trimmed title begins with p in brackets. */
  ghost predicate InBrackets(t: string, p: string) {
    exists u :: Core(t, u) && u != "" && u[0] == '['
                && exists i :: 0 < i < |u| && u[i] == ']' && ']' !in u[..i] && p == u[1..i]
  }

  /** Both titles are under one scope: the same one, not empty, before a colon, or the same one in brackets. */
  ghost predicate SharesScope(a: string, b: string) {
    || (exists p, q :: UnderColon(a, p) && UnderColon(b, q) && p != "" && SameLetters(p, q))
    || (exists p, q :: InBrackets(a, p) && InBrackets(b, q) && SameLetters(p, q))
  }

  lemma SameLettersIff(p: string, q: string)
    ensures EqIgnoreAsciiCase(p, q) <==> SameLetters(p, q)
  {
  }

  lemma FirstChar(s: string, p: string)
    requires |p| == 1
    ensures Find(s, p).Some? ==> Find(s, p).value < |s| && s[Find(s, p).value] == p[0] && p[0] !in s[..Find(s, p).value]
    ensures Find(s, p).None? ==> p[0] !in s
  {
    FindSpec(s, p);
    forall j | 0 <= j < |s| ensures OccursAt(s, p, j) <==> s[j] == p[0] {
      OccursSlice(s, p, j);
      assert s[j..j + 1] == [s[j]] && p == [p[0]];
    }
  }

  lemma ColonPrefixIff(t: string, p: string)
    ensures ColonPrefix(t) == Some(p) <==> UnderColon(t, p)
  {
    FirstChar(t, ":");
    if Find(t, ":").Some? { TrimIff(t[..Find(t, ":").value], p); }
    if i :| 0 <= i < |t| && t[i] == ':' && ':' !in t[..i] && Core(t[..i], p) {
      SameFirst(t, ':', i, Find(t, ":").value);
    }
  }

  lemma SameFirst(t: string, c: char, i: nat, j: nat)
    requires i < |t| && j < |t| && t[i] == c && t[j] == c && c !in t[..i] && c !in t[..j]
    ensures i == j
  {
  }

  lemma BracketPrefixIff(t: string, p: string)
    ensures BracketPrefix(t) == Some(p) <==> InBrackets(t, p)
  {
    var u := Trim(t);
    FirstChar(u, "]");
    assert HasPrefix(u, "[") <==> u != "" && u[0] == '[';
    forall v ensures Core(t, v) <==> v == u { TrimIff(t, v); }
    if InBrackets(t, p) {
      var i :| 0 < i < |u| && u[i] == ']' && ']' !in u[..i] && p == u[1..i];
      SameFirst(u, ']', i, Find(u, "]").value);
    }
  }

  lemma SharesScopeIff(a: string, b: string)
    ensures ScopePrefixSimilarity(a, b) == if SharesScope(a, b) then 1.0 else 0.0
  {
    var ca, cb, ba, bb := ColonPrefix(a), ColonPrefix(b), BracketPrefix(a), BracketPrefix(b);
    forall p ensures (ca == Some(p) <==> UnderColon(a, p)) && (cb == Some(p) <==> UnderColon(b, p)) {
      ColonPrefixIff(a, p);
      ColonPrefixIff(b, p);
    }
    forall p ensures (ba == Some(p) <==> InBrackets(a, p)) && (bb == Some(p) <==> InBrackets(b, p)) {
      BracketPrefixIff(a, p);
      BracketPrefixIff(b, p);
    }
    forall p, q ensures EqIgnoreAsciiCase(p, q) <==> SameLetters(p, q) { SameLettersIff(p, q); }
  }

  // ----- The combined score -----

  /** m is the greatest of the weighted sum of the four signals and 0.85 times each of the three strong ones. */
  ghost predicate Greatest(m: real, title: real, desc: real, scope: real, steps: real) {
    var weighted := 0.4 * title + 0.2 * desc + 0.2 * scope + 0.2 * steps;
    && m >= weighted && m >= 0.85 * title && m >= 0.85 * scope && m >= 0.85 * steps
    && (m == weighted || m == 0.85 * title || m == 0.85 * scope || m == 0.85 * steps)
  }

  /** The words of a title, in lower case, that are not stop words. */
  ghost function Topics(f: Folds, t: string): set<string> {
    set w | w in Words(t) && f.lower(w) !in TITLE_STOPWORDS :: f.lower(w)
  }

  lemma CombineIsGreatest(title: real, desc: real, scope: real, steps: real)
    ensures Greatest(Combine(title, desc, scope, steps), title, desc, scope, steps)
  {
  }

  /** The score, from the words the two beads share, their scopes and their numbering. */
  lemma ScoreMeans(f: Folds, a: Bead, b: Bead) returns (title: real, desc: real)
    ensures Shares(title, Topics(f, a.title), Topics(f, b.title), 0.0)
    ensures Shares(desc, WordsIn(a.description), WordsIn(b.description),
                   if a.description == "" && b.description == "" then 0.0 else 1.0)
    ensures Greatest(CombinedSimilarity(f, a, b), title, desc, if SharesScope(a.title, b.title) then 1.0 else 0.0,
                     if StepsOfOne(f, a.title, b.title) then 1.0 else 0.0)
  {
    title, desc := JaccardFiltered(f, a.title, b.title), DescriptionSimilarity(a.description, b.description);
    TitleShares(f, a.title, b.title);
    DescriptionShares(a.description, b.description);
    SharesScopeIff(a.title, b.title);
    StepsOfOneIff(f, a.title, b.title);
    CombineIsGreatest(title, desc, ScopePrefixSimilarity(a.title, b.title), SequentialSimilarity(f, a.title, b.title));
  }

  lemma TopicsAre(f: Folds, t: string)
    ensures TopicWords(f, t) == Topics(f, t)
  {
  }

  lemma TitleShares(f: Folds, a: string, b: string)
    ensures Shares(JaccardFiltered(f, a, b), Topics(f, a), Topics(f, b), 0.0)
  {
    TopicsAre(f, a);
    TopicsAre(f, b);
    assert JaccardFiltered(f, a, b) == RatioOr(Topics(f, a), Topics(f, b), 0.0);
    RatioShares(Topics(f, a), Topics(f, b), 0.0);
  }

  lemma DescriptionShares(a: string, b: string)
    ensures Shares(DescriptionSimilarity(a, b), WordsIn(a), WordsIn(b), if a == "" && b == "" then 0.0 else 1.0)
  {
    WordsInIs(a);
    WordsInIs(b);
    assert JaccardSimilarity(a, b) == RatioOr(WordsIn(a), WordsIn(b), 1.0);
    RatioShares(WordsIn(a), WordsIn(b), if a == "" && b == "" then 0.0 else 1.0);
  }
}
