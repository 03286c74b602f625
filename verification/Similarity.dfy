/** Multi-signal similarity between work items, a score in [0, 1] that does not depend on argument order. */
module Similarity {
  import opened Text

  /** `created` stands for the creation instant; only its order matters. */
  datatype Bead = Bead(id: string, repo: string, title: string, description: string, priority: nat, created: int)

  /** The Unicode and numbering text folds, left uninterpreted. */
  datatype Folds = Folds(lower: string -> string, stripSequence: string -> string, stripCount: string -> string)

  const TITLE_STOPWORDS: set<string> := {
    "fix", "add", "replace", "extract", "implement", "remove", "update", "refactor", "consolidate",
    "move", "rename", "clean", "cleanup", "use", "make", "convert", "change", "improve", "handle",
    "the", "a", "an", "in", "to", "for", "of", "with", "from", "and", "on", "into", "by", "up"
  }

  function Ratio<T>(a: set<T>, b: set<T>): (r: real)
    requires a + b != {}
    ensures 0.0 <= r <= 1.0
  {
    assert a * b <= a + b;
    SubsetSize(a * b, a + b);
    var common, all := |a * b| as real, |a + b| as real;
    RatioBound(common, all);
    common / all
  }

  lemma SubsetSize<T>(a: set<T>, b: set<T>)
    requires a <= b
    ensures |a| <= |b|
  {
    assert b == a + (b - a);
  }

  lemma RatioBound(x: real, y: real)
    requires 0.0 <= x <= y && y > 0.0
    ensures 0.0 <= x / y <= 1.0
  {
  }

  function WordSet(s: string): set<string> {
    set w | w in Words(s)
  }

  function JaccardSimilarity(a: string, b: string): (r: real)
    ensures 0.0 <= r <= 1.0
  {
    if WordSet(a) + WordSet(b) == {} then 1.0 else Ratio(WordSet(a), WordSet(b))
  }

  function TopicWords(f: Folds, s: string): set<string> {
    (set w | w in Words(s) :: f.lower(w)) - TITLE_STOPWORDS
  }

  function JaccardFiltered(f: Folds, a: string, b: string): (r: real)
    ensures 0.0 <= r <= 1.0
  {
    if TopicWords(f, a) + TopicWords(f, b) == {} then 0.0 else Ratio(TopicWords(f, a), TopicWords(f, b))
  }

  function AsciiLower(c: char): char {
    if 'A' <= c <= 'Z' then c + ' ' else c
  }

  predicate EqIgnoreAsciiCase(a: string, b: string) {
    |a| == |b| && forall i | 0 <= i < |a| :: AsciiLower(a[i]) == AsciiLower(b[i])
  }

  function ColonPrefix(s: string): Option<string> {
    match Find(s, ":")
    case Some(i) => Some(Trim(s[..i]))
    case None => None
  }

  function BracketPrefix(s: string): Option<string> {
    var t := Trim(s);
    if HasPrefix(t, "[") then
      match Find(t, "]")
      case Some(i) => assert i > 0 by { FindSpec(t, "]"); OccursMeans(t, "]", i, 0); } Some(t[1..i])
      case None => None
    else None
  }

  function ScopePrefixSimilarity(a: string, b: string): (r: real)
    ensures 0.0 <= r <= 1.0
  {
    var ca, cb := ColonPrefix(a), ColonPrefix(b);
    var ba, bb := BracketPrefix(a), BracketPrefix(b);
    if ca.Some? && cb.Some? && EqIgnoreAsciiCase(ca.value, cb.value) && ca.value != "" then 1.0
    else if ba.Some? && bb.Some? && EqIgnoreAsciiCase(ba.value, bb.value) then 1.0
    else 0.0
  }

  function SequentialSimilarity(f: Folds, a: string, b: string): (r: real)
    ensures 0.0 <= r <= 1.0
  {
    var la, lb := f.lower(a), f.lower(b);
    if f.stripSequence(la) == f.stripSequence(lb) && f.stripSequence(la) != "" && la != lb then 1.0
    else if f.stripCount(la) == f.stripCount(lb) && f.stripCount(la) != "" && la != lb then 1.0
    else 0.0
  }

  function Max(a: real, b: real): real {
    if a >= b then a else b
  }

  function DescriptionSimilarity(a: string, b: string): (r: real)
    ensures 0.0 <= r <= 1.0
  {
    if a == "" && b == "" then 0.0 else JaccardSimilarity(a, b)
  }

  function Combine(title: real, desc: real, scope: real, steps: real): real {
    Max(0.4 * title + 0.2 * desc + 0.2 * scope + 0.2 * steps, Max(Max(title, scope), steps) * 0.85)
  }

  function CombinedSimilarity(f: Folds, a: Bead, b: Bead): (score: real)
    ensures 0.0 <= score <= 1.0
  {
    Combine(JaccardFiltered(f, a.title, b.title), DescriptionSimilarity(a.description, b.description),
            ScopePrefixSimilarity(a.title, b.title), SequentialSimilarity(f, a.title, b.title))
  }

  lemma RatioSymmetric<T>(a: set<T>, b: set<T>)
    requires a + b != {}
    ensures b + a != {} && Ratio(a, b) == Ratio(b, a)
  {
    assert a * b == b * a && a + b == b + a;
  }

  lemma JaccardSymmetric(f: Folds, a: string, b: string)
    ensures JaccardSimilarity(a, b) == JaccardSimilarity(b, a)
    ensures JaccardFiltered(f, a, b) == JaccardFiltered(f, b, a)
  {
    assert WordSet(a) + WordSet(b) == WordSet(b) + WordSet(a);
    assert TopicWords(f, a) + TopicWords(f, b) == TopicWords(f, b) + TopicWords(f, a);
    if WordSet(a) + WordSet(b) != {} { RatioSymmetric(WordSet(a), WordSet(b)); }
    if TopicWords(f, a) + TopicWords(f, b) != {} { RatioSymmetric(TopicWords(f, a), TopicWords(f, b)); }
  }

  lemma ScopeSymmetric(a: string, b: string)
    ensures ScopePrefixSimilarity(a, b) == ScopePrefixSimilarity(b, a)
  {
    var ca, cb := ColonPrefix(a), ColonPrefix(b);
    if ca.Some? && cb.Some? && EqIgnoreAsciiCase(ca.value, cb.value) {
      assert ca.value == "" <==> cb.value == "";
    }
  }

  lemma SequentialSymmetric(f: Folds, a: string, b: string)
    ensures SequentialSimilarity(f, a, b) == SequentialSimilarity(f, b, a)
  {
  }

  lemma CombinedSimilaritySymmetric(f: Folds, a: Bead, b: Bead)
    ensures CombinedSimilarity(f, a, b) == CombinedSimilarity(f, b, a)
  {
    JaccardSymmetric(f, a.title, b.title);
    SequentialSymmetric(f, a.title, b.title);
    ScopeSymmetric(a.title, b.title);
    JaccardSymmetric(f, a.description, b.description);
  }

  /** What clustering needs of a score: it is symmetric and lies in [0, 1]. */
  ghost predicate IsSimilarity(sim: (Bead, Bead) -> real) {
    && (forall a, b :: sim(a, b) == sim(b, a))
    && (forall a, b :: 0.0 <= sim(a, b) <= 1.0)
  }

  type Scorer = sim: (Bead, Bead) -> real | IsSimilarity(sim) witness (a: Bead, b: Bead) => 0.0

  /** The combined score is such a similarity, whatever the text folds do. */
  function Scoring(f: Folds): (sim: Scorer)
    ensures forall a, b :: sim(a, b) == CombinedSimilarity(f, a, b)
  {
    assert IsSimilarity((a: Bead, b: Bead) => CombinedSimilarity(f, a, b)) by {
      forall a, b ensures CombinedSimilarity(f, a, b) == CombinedSimilarity(f, b, a) {
        CombinedSimilaritySymmetric(f, a, b);
      }
    }
    (a: Bead, b: Bead) => CombinedSimilarity(f, a, b)
  }
}
