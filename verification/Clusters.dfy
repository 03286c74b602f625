/** Semantic clustering: connected components of the similarity graph, found with union-find. */
module Clusters {
  import opened Text
  import opened Similarity
  import opened Signals
  import opened Connectivity
  import UF = UnionFind

  datatype Relationship = NearDuplicate | Sequential | SharedScope | Overlapping
  datatype Action = Merge(keep: string, close: seq<string>) | Sequence | Suppress
  datatype BeadCluster =
    BeadCluster(beadIds: seq<string>, relationship: Relationship, action: Action, cohesion: real)

  type Scores = map<(nat, nat), real>

  const CLUSTER_THRESHOLD: real := 0.45

  // ----- The graph -----

  predicate Related(sim: Scorer, a: Bead, b: Bead) {
    a.repo == b.repo && sim(a, b) >= CLUSTER_THRESHOLD
  }

  ghost function Graph(sim: Scorer, beads: seq<Bead>): Edges {
    set i: nat, j: nat | 0 <= i < j < |beads| && Related(sim, beads[i], beads[j]) :: (i, j)
  }

  lemma Adjacent(sim: Scorer, beads: seq<Bead>, i: nat, j: nat)
    ensures Step(Graph(sim, beads), i, j) <==>
      && i < |beads| && j < |beads| && i != j
      && beads[i].repo == beads[j].repo && sim(beads[i], beads[j]) >= 0.45
  {
  }

  lemma ConnectedInRepo(sim: Scorer, beads: seq<Bead>, i: nat, j: nat)
    requires i < |beads| && Connected(Graph(sim, beads), i, j)
    ensures j < |beads| && beads[j].repo == beads[i].repo
  {
    var g := Graph(sim, beads);
    var keeps := (k: nat) => k < |beads| && beads[k].repo == beads[i].repo;
    forall u, v | Step(g, u, v) && keeps(u) ensures keeps(v) { Adjacent(sim, beads, u, v); }
    var p :| IsPath(g, p, i, j);
    AlongPath(g, keeps, p, i, j);
  }

  ghost predicate HasPeer(sim: Scorer, beads: seq<Bead>, i: nat) {
    exists j :: j != i && Connected(Graph(sim, beads), i, j)
  }

  predicate Within(beads: seq<Bead>, s: seq<nat>) {
    forall k :: 0 <= k < |s| ==> s[k] < |beads|
  }

  predicate Ascending(s: seq<nat>) {
    forall a, b :: 0 <= a < b < |s| ==> s[a] < s[b]
  }

  /** `group` is, in input order, the connected component of each of its two or more members. */
  ghost predicate IsComponent(sim: Scorer, beads: seq<Bead>, group: seq<nat>) {
    && |group| >= 2 && Ascending(group) && Within(beads, group)
    && (forall i, j :: i in group ==> (j in group <==> Connected(Graph(sim, beads), i, j)))
  }

  /** Exactly the components of at least two beads, each once. */
  ghost predicate ExactComponents(sim: Scorer, beads: seq<Bead>, groups: seq<seq<nat>>) {
    && (forall k :: 0 <= k < |groups| ==> IsComponent(sim, beads, groups[k]))
    && (forall k, l, i: nat :: 0 <= k < l < |groups| && i in groups[k] ==> i !in groups[l])
    && (forall i: nat :: i < |beads| && HasPeer(sim, beads, i) ==> exists k :: 0 <= k < |groups| && i in groups[k])
  }

  lemma ComponentInOneRepo(sim: Scorer, beads: seq<Bead>, group: seq<nat>, i: nat, j: nat)
    requires IsComponent(sim, beads, group) && i in group && j in group
    ensures beads[i].repo == beads[j].repo
  {
    ConnectedInRepo(sim, beads, i, j);
  }

  // ----- Input order does not matter -----

  /** `other` is `beads` rearranged: position i moves to sigma[i], and tau moves it back. */
  ghost predicate Rearranged(beads: seq<Bead>, other: seq<Bead>, sigma: seq<nat>, tau: seq<nat>) {
    && |beads| == |other| == |sigma| == |tau|
    && (forall i :: 0 <= i < |beads| ==> sigma[i] < |beads| && other[sigma[i]] == beads[i] && tau[sigma[i]] == i)
    && (forall i :: 0 <= i < |beads| ==> tau[i] < |beads| && sigma[tau[i]] == i)
  }

  lemma {:induction false} MovedPath(sim: Scorer, beads: seq<Bead>, other: seq<Bead>, sigma: seq<nat>, tau: seq<nat>,
                                     p: seq<nat>, i: nat, j: nat)
    requires Rearranged(beads, other, sigma, tau) && i < |beads| && IsPath(Graph(sim, beads), p, i, j)
    ensures j < |beads| && Connected(Graph(sim, other), sigma[i], sigma[j])
    decreases |p|
  {
    if p == [] {
      Reflexive(Graph(sim, other), sigma[i]);
    } else {
      var c := p[0];
      Adjacent(sim, beads, i, c);
      assert sigma[i] != sigma[c];
      Adjacent(sim, other, sigma[i], sigma[c]);
      Direct(Graph(sim, other), sigma[i], sigma[c]);
      MovedPath(sim, beads, other, sigma, tau, p[1..], c, j);
      Transitive(Graph(sim, other), sigma[i], sigma[c], sigma[j]);
    }
  }

  lemma MovedConnected(sim: Scorer, beads: seq<Bead>, other: seq<Bead>, sigma: seq<nat>, tau: seq<nat>, i: nat, j: nat)
    requires Rearranged(beads, other, sigma, tau) && i < |beads| && j < |beads|
    ensures Connected(Graph(sim, beads), i, j) <==> Connected(Graph(sim, other), sigma[i], sigma[j])
  {
    if Connected(Graph(sim, beads), i, j) {
      var p :| IsPath(Graph(sim, beads), p, i, j);
      MovedPath(sim, beads, other, sigma, tau, p, i, j);
    }
    if Connected(Graph(sim, other), sigma[i], sigma[j]) {
      var p :| IsPath(Graph(sim, other), p, sigma[i], sigma[j]);
      MovedPath(sim, other, beads, tau, sigma, p, sigma[i], sigma[j]);
    }
  }

  ghost function BeadSet(beads: seq<Bead>, group: seq<nat>): set<Bead>
    requires Within(beads, group)
  {
    set i | i in group :: beads[i]
  }

  lemma SameBeads(beads: seq<Bead>, other: seq<Bead>, sigma: seq<nat>, tau: seq<nat>, g: seq<nat>, h: seq<nat>)
    requires Rearranged(beads, other, sigma, tau) && Within(beads, g) && Within(other, h)
    requires forall m: nat :: m < |beads| ==> (m in g <==> sigma[m] in h)
    ensures BeadSet(other, h) == BeadSet(beads, g)
  {
    forall b | b in BeadSet(other, h) ensures b in BeadSet(beads, g) {
      var m :| m in h && other[m] == b;
      assert tau[m] in g && beads[tau[m]] == b;
    }
    forall b | b in BeadSet(beads, g) ensures b in BeadSet(other, h) {
      var m :| m in g && beads[m] == b;
      assert sigma[m] in h && other[sigma[m]] == b;
    }
  }

  /** h holds the positions that sigma moves those of g to. */
  ghost predicate MovedTo(beads: seq<Bead>, sigma: seq<nat>, g: seq<nat>, h: seq<nat>)
    requires |sigma| == |beads|
  {
    forall m: nat :: m < |beads| ==> (m in g <==> sigma[m] in h)
  }

  lemma MovedGroup(sim: Scorer, beads: seq<Bead>, other: seq<Bead>, sigma: seq<nat>, tau: seq<nat>,
                   g: seq<nat>, h: seq<nat>, i: nat)
    requires Rearranged(beads, other, sigma, tau) && IsComponent(sim, beads, g) && IsComponent(sim, other, h)
    requires i in g && sigma[i] in h
    ensures MovedTo(beads, sigma, g, h) && BeadSet(other, h) == BeadSet(beads, g)
  {
    forall m: nat | m < |beads| ensures m in g <==> sigma[m] in h {
      MovedConnected(sim, beads, other, sigma, tau, i, m);
    }
    SameBeads(beads, other, sigma, tau, g, h);
  }

  /** Rearranging the input turns every group into a group with the same beads. */
  lemma OrderIndependent(sim: Scorer, beads: seq<Bead>, other: seq<Bead>, sigma: seq<nat>, tau: seq<nat>,
                         groups: seq<seq<nat>>, others: seq<seq<nat>>, k: nat) returns (l: nat)
    requires Rearranged(beads, other, sigma, tau)
    requires ExactComponents(sim, beads, groups) && ExactComponents(sim, other, others) && k < |groups|
    ensures l < |others| && MovedTo(beads, sigma, groups[k], others[l])
    ensures BeadSet(other, others[l]) == BeadSet(beads, groups[k])
  {
    var g := groups[k];
    assert IsComponent(sim, beads, g);
    var i, j := g[0], g[1];
    assert i in g && j in g;
    MovedConnected(sim, beads, other, sigma, tau, i, j);
    assert sigma[i] != sigma[j];
    assert HasPeer(sim, other, sigma[i]);
    l :| 0 <= l < |others| && sigma[i] in others[l];
    MovedGroup(sim, beads, other, sigma, tau, g, others[l], i);
  }

  // ----- Execution order inside a cluster -----

  predicate KeyAtMost(a: Bead, b: Bead) {
    a.priority < b.priority || (a.priority == b.priority && a.created <= b.created)
  }

  /** Priority, then creation time, then input position. */
  ghost predicate Precedes(beads: seq<Bead>, a: nat, b: nat)
    requires a < |beads| && b < |beads|
  {
    var x, y := beads[a], beads[b];
    x.priority < y.priority ||
    (x.priority == y.priority && (x.created < y.created || (x.created == y.created && a < b)))
  }

  ghost predicate Ordered(beads: seq<Bead>, s: seq<nat>)
    requires Within(beads, s)
  {
    forall a, b :: 0 <= a < b < |s| ==> Precedes(beads, s[a], s[b])
  }

  function InsertMember(beads: seq<Bead>, x: nat, s: seq<nat>): (r: seq<nat>)
    requires x < |beads| && Within(beads, s)
    ensures multiset(r) == multiset(s) + multiset{x} && Within(beads, r)
  {
    if s == [] then [x]
    else if KeyAtMost(beads[x], beads[s[0]]) then [x] + s
    else
      assert s == [s[0]] + s[1..];
      var r := [s[0]] + InsertMember(beads, x, s[1..]);
      r
  }

  /** A stable sort by priority then creation time. */
  function SortMembers(beads: seq<Bead>, s: seq<nat>): (r: seq<nat>)
    requires Within(beads, s)
    ensures multiset(r) == multiset(s) && Within(beads, r)
  {
    if s == [] then []
    else
      assert s == [s[0]] + s[1..];
      InsertMember(beads, s[0], SortMembers(beads, s[1..]))
  }

  lemma {:induction false} InsertOrdered(beads: seq<Bead>, x: nat, s: seq<nat>)
    requires x < |beads| && Within(beads, s) && Ordered(beads, s)
    requires forall k :: 0 <= k < |s| ==> x < s[k]
    ensures Ordered(beads, InsertMember(beads, x, s))
  {
    if s != [] && !KeyAtMost(beads[x], beads[s[0]]) {
      InsertOrdered(beads, x, s[1..]);
      var rest := InsertMember(beads, x, s[1..]);
      forall b | 0 <= b < |rest| ensures Precedes(beads, s[0], rest[b]) {
        assert rest[b] in multiset(rest);
        assert rest[b] == x || rest[b] in s[1..];
      }
    } else if s != [] {
      forall b | 0 <= b < |s| ensures Precedes(beads, x, s[b]) {
        assert b == 0 || Precedes(beads, s[0], s[b]);
      }
    }
  }

  lemma {:induction false} SortOrdered(beads: seq<Bead>, s: seq<nat>)
    requires Within(beads, s) && Ascending(s)
    ensures Ordered(beads, SortMembers(beads, s))
  {
    if s != [] {
      SortOrdered(beads, s[1..]);
      var rest := SortMembers(beads, s[1..]);
      forall k | 0 <= k < |rest| ensures s[0] < rest[k] {
        assert rest[k] in multiset(rest) && rest[k] in s[1..];
      }
      InsertOrdered(beads, s[0], rest);
    }
  }

  // ----- Cohesion -----

  /** The score of a pair, if it was recorded. */
  function PairScore(scores: Scores, a: nat, b: nat): seq<real> {
    var key := if a < b then (a, b) else (b, a);
    if key in scores then [scores[key]] else []
  }

  /** Recorded scores of position i with the positions after it, up to j. */
  ghost function RowScores(scores: Scores, members: seq<nat>, i: nat, j: nat): seq<real>
    requires i < j <= |members|
  {
    if j == i + 1 then []
    else RowScores(scores, members, i, j - 1) + PairScore(scores, members[i], members[j - 1])
  }

  /** Recorded scores of all pairs whose first position is below i. */
  ghost function GroupScores(scores: Scores, members: seq<nat>, i: nat): seq<real>
    requires i <= |members|
  {
    if i == 0 then []
    else GroupScores(scores, members, i - 1) + RowScores(scores, members, i - 1, |members|)
  }

  ghost function Sum(values: seq<real>): real {
    if values == [] then 0.0 else Sum(values[..|values| - 1]) + values[|values| - 1]
  }

  ghost predicate ScoresInRange(scores: Scores) {
    forall key :: key in scores ==> CLUSTER_THRESHOLD <= scores[key] <= 1.0
  }

  ghost predicate AllInRange(values: seq<real>) {
    forall k :: 0 <= k < |values| ==> CLUSTER_THRESHOLD <= values[k] <= 1.0
  }

  lemma {:induction false} RowInRange(scores: Scores, members: seq<nat>, i: nat, j: nat)
    requires ScoresInRange(scores) && i < j <= |members|
    ensures AllInRange(RowScores(scores, members, i, j))
    decreases j
  {
    if j > i + 1 {
      RowInRange(scores, members, i, j - 1);
      assert AllInRange(PairScore(scores, members[i], members[j - 1]));
    }
  }

  lemma {:induction false} RowHas(scores: Scores, members: seq<nat>, i: nat, k: nat, j: nat)
    requires i < k < j <= |members| && PairScore(scores, members[i], members[k]) != []
    ensures RowScores(scores, members, i, j) != []
    decreases j
  {
    if k < j - 1 { RowHas(scores, members, i, k, j - 1); }
  }

  lemma {:induction false} GroupInRange(scores: Scores, members: seq<nat>, i: nat)
    requires ScoresInRange(scores) && i <= |members|
    ensures AllInRange(GroupScores(scores, members, i))
    ensures i > 0 && RowScores(scores, members, 0, |members|) != [] ==> GroupScores(scores, members, i) != []
    decreases i
  {
    if i > 0 {
      GroupInRange(scores, members, i - 1);
      RowInRange(scores, members, i - 1, |members|);
    }
  }

  lemma {:induction false} SumInRange(values: seq<real>)
    requires AllInRange(values)
    ensures 0.45 * |values| as real <= Sum(values) <= |values| as real
  {
    if values != [] { SumInRange(values[..|values| - 1]); }
  }

  /** The recorded scores are exactly the similarities along the graph's edges. */
  ghost predicate EdgeScores(sim: Scorer, beads: seq<Bead>, scores: Scores) {
    && scores.Keys == Graph(sim, beads)
    && forall i: nat, j: nat :: (i, j) in scores ==>
         i < j < |beads| && scores[(i, j)] == sim(beads[i], beads[j])
  }

  function Mean(total: real, count: nat): real {
    if count > 0 then total / count as real else 0.0
  }

  ghost function Cohesion(scores: Scores, members: seq<nat>): real {
    var values := GroupScores(scores, members, |members|);
    Mean(Sum(values), |values|)
  }

  lemma QuotientInRange(x: real, n: real)
    requires 0.45 * n <= x <= n && n > 0.0
    ensures 0.45 <= x / n <= 1.0
  {
    assert x / n * n == x;
  }

  /** A component always contains a scored pair, so the zero fallback is never taken. */
  lemma ComponentCohesion(sim: Scorer, beads: seq<Bead>, scores: Scores, group: seq<nat>)
    requires EdgeScores(sim, beads, scores) && IsComponent(sim, beads, group)
    ensures GroupScores(scores, group, |group|) != []
    ensures CLUSTER_THRESHOLD <= Cohesion(scores, group) <= 1.0
  {
    assert ScoresInRange(scores) by {
      forall key | key in scores ensures CLUSTER_THRESHOLD <= scores[key] <= 1.0 {
        assert key in Graph(sim, beads) && (key.0, key.1) in scores;
      }
    }
    var a, b := group[0], group[1];
    assert a in group && b in group;
    var p :| IsPath(Graph(sim, beads), p, a, b);
    var c := p[0];
    Direct(Graph(sim, beads), a, c);
    Adjacent(sim, beads, a, c);
    assert c in group;
    var k :| 0 <= k < |group| && group[k] == c;
    RowHas(scores, group, 0, k, |group|);
    GroupInRange(scores, group, |group|);
    var values := GroupScores(scores, group, |group|);
    SumInRange(values);
    QuotientInRange(Sum(values), |values| as real);
  }

  // ----- Cohesion, as a mean over a set of pairs -----

  ghost function Valued(scores: Scores, pairs: seq<(nat, nat)>): seq<real> {
    seq(|pairs|, k requires 0 <= k < |pairs| => if pairs[k] in scores then scores[pairs[k]] else 0.0)
  }

  /** Each scored pair of members, once. */
  ghost predicate ScoredPairs(scores: Scores, members: seq<nat>, pairs: seq<(nat, nat)>) {
    && (forall k, l :: 0 <= k < l < |pairs| ==> pairs[k] != pairs[l])
    && (forall a: nat, b: nat :: (a, b) in pairs <==> a in members && b in members && a < b && (a, b) in scores)
  }

  /** c is the mean of the scores of the scored pairs of members. */
  ghost predicate Averages(scores: Scores, members: seq<nat>, c: real) {
    exists pairs :: ScoredPairs(scores, members, pairs) && pairs != [] && IsMean(c, Valued(scores, pairs))
  }

  ghost predicate IsMean(c: real, values: seq<real>) {
    c * (|values| as real) == Sum(values)
  }

  ghost function RowPairs(scores: Scores, members: seq<nat>, i: nat, j: nat): seq<(nat, nat)>
    requires i < j <= |members|
  {
    if j == i + 1 then []
    else
      var key := (members[i], members[j - 1]);
      RowPairs(scores, members, i, j - 1) + if key in scores then [key] else []
  }

  ghost function GroupPairs(scores: Scores, members: seq<nat>, i: nat): seq<(nat, nat)>
    requires i <= |members|
  {
    if i == 0 then [] else GroupPairs(scores, members, i - 1) + RowPairs(scores, members, i - 1, |members|)
  }

  /** The values behind the pairs, pairs that come one after the other having distinct ends. */
  ghost predicate Lists(scores: Scores, pairs: seq<(nat, nat)>, values: seq<real>) {
    && values == Valued(scores, pairs)
    && (forall k, l :: 0 <= k < l < |pairs| ==> pairs[k] != pairs[l])
  }

  lemma ListsMore(scores: Scores, pairs: seq<(nat, nat)>, values: seq<real>, more: seq<(nat, nat)>, rest: seq<real>)
    requires Lists(scores, pairs, values) && Lists(scores, more, rest) && forall p :: p in pairs ==> p !in more
    ensures Lists(scores, pairs + more, values + rest)
  {
    forall k, l | 0 <= k < l < |pairs + more| ensures (pairs + more)[k] != (pairs + more)[l] {
      if k < |pairs| <= l { assert pairs[k] in pairs && more[l - |pairs|] in more; }
    }
  }

  /** The pairs of position i with later ones before j. */
  ghost predicate RowUpTo(scores: Scores, members: seq<nat>, i: nat, j: nat, pairs: seq<(nat, nat)>)
    requires i < j <= |members|
  {
    forall a: nat, b: nat :: (a, b) in pairs <==>
      a == members[i] && (exists y :: i < y < j && members[y] == b) && (a, b) in scores
  }

  lemma {:induction false} RowLists(scores: Scores, members: seq<nat>, i: nat, j: nat)
    requires Ascending(members) && i < j <= |members|
    ensures Lists(scores, RowPairs(scores, members, i, j), RowScores(scores, members, i, j))
    ensures RowUpTo(scores, members, i, j, RowPairs(scores, members, i, j))
    decreases j
  {
    if j > i + 1 {
      RowLists(scores, members, i, j - 1);
      var key := (members[i], members[j - 1]);
      var more := if key in scores then [key] else [];
      ListsMore(scores, RowPairs(scores, members, i, j - 1), RowScores(scores, members, i, j - 1),
                more, PairScore(scores, members[i], members[j - 1]));
    }
  }

  /** a and then b are members, a at a position before i. */
  ghost predicate PairUpTo(members: seq<nat>, i: nat, a: nat, b: nat) {
    exists x, y :: 0 <= x < i && x < y < |members| && members[x] == a && members[y] == b
  }

  /** The pairs are the recorded ones among those up to position i. */
  ghost predicate AllUpTo(scores: Scores, members: seq<nat>, i: nat, pairs: seq<(nat, nat)>) {
    forall a: nat, b: nat :: (a, b) in pairs <==> PairUpTo(members, i, a, b) && (a, b) in scores
  }

  lemma {:induction false} GroupLists(scores: Scores, members: seq<nat>, i: nat)
    requires Ascending(members) && i <= |members|
    ensures Lists(scores, GroupPairs(scores, members, i), GroupScores(scores, members, i))
    ensures AllUpTo(scores, members, i, GroupPairs(scores, members, i))
    decreases i
  {
    if i > 0 {
      GroupLists(scores, members, i - 1);
      RowLists(scores, members, i - 1, |members|);
      RowJoins(scores, members, i, GroupPairs(scores, members, i - 1), GroupScores(scores, members, i - 1),
               RowPairs(scores, members, i - 1, |members|), RowScores(scores, members, i - 1, |members|));
    }
  }

  lemma RowJoins(scores: Scores, members: seq<nat>, i: nat, before: seq<(nat, nat)>, values: seq<real>,
                 row: seq<(nat, nat)>, rest: seq<real>)
    requires Ascending(members) && 0 < i <= |members|
    requires Lists(scores, before, values) && AllUpTo(scores, members, i - 1, before)
    requires Lists(scores, row, rest) && RowUpTo(scores, members, i - 1, |members|, row)
    ensures Lists(scores, before + row, values + rest) && AllUpTo(scores, members, i, before + row)
  {
    RowIsNew(scores, members, i - 1, before, row);
    ListsMore(scores, before, values, row, rest);
    RowCompletes(scores, members, i, before, row);
  }

  lemma RowIsNew(scores: Scores, members: seq<nat>, i: nat, before: seq<(nat, nat)>, row: seq<(nat, nat)>)
    requires Ascending(members) && i < |members| && AllUpTo(scores, members, i, before)
    requires RowUpTo(scores, members, i, |members|, row)
    ensures forall p :: p in before ==> p !in row
  {
    forall p | p in before ensures p !in row {
      assert (p.0, p.1) == p;
      FirstsDiffer(members, i, p.0, p.1);
    }
  }

  lemma RowCompletes(scores: Scores, members: seq<nat>, i: nat, before: seq<(nat, nat)>, row: seq<(nat, nat)>)
    requires 0 < i <= |members| && AllUpTo(scores, members, i - 1, before)
    requires RowUpTo(scores, members, i - 1, |members|, row)
    ensures AllUpTo(scores, members, i, before + row)
  {
    forall a: nat, b: nat ensures (a, b) in before + row <==> PairUpTo(members, i, a, b) && (a, b) in scores {
      PairsGrow(members, i, a, b);
    }
  }

  lemma FirstsDiffer(members: seq<nat>, i: nat, a: nat, b: nat)
    requires Ascending(members) && i < |members| && PairUpTo(members, i, a, b)
    ensures a != members[i]
  {
  }

  lemma PairsGrow(members: seq<nat>, i: nat, a: nat, b: nat)
    requires 0 < i <= |members|
    ensures PairUpTo(members, i, a, b) <==>
      PairUpTo(members, i - 1, a, b) || (a == members[i - 1] && exists y :: i - 1 < y < |members| && members[y] == b)
  {
  }

  lemma PairsOf(members: seq<nat>, a: nat, b: nat)
    requires Ascending(members)
    ensures PairUpTo(members, |members|, a, b) <==> a in members && b in members && a < b
  {
  }

  lemma MeanIsMean(values: seq<real>)
    requires values != []
    ensures IsMean(Mean(Sum(values), |values|), values)
  {
  }

  lemma GroupScored(scores: Scores, members: seq<nat>)
    requires Ascending(members)
    ensures ScoredPairs(scores, members, GroupPairs(scores, members, |members|))
    ensures GroupScores(scores, members, |members|) == Valued(scores, GroupPairs(scores, members, |members|))
  {
    GroupLists(scores, members, |members|);
    forall a: nat, b: nat ensures PairUpTo(members, |members|, a, b) <==> a in members && b in members && a < b {
      PairsOf(members, a, b);
    }
  }

  lemma CohesionAverages(scores: Scores, members: seq<nat>)
    requires Ascending(members) && GroupScores(scores, members, |members|) != []
    ensures Averages(scores, members, Cohesion(scores, members))
  {
    GroupScored(scores, members);
    MeanIsMean(GroupScores(scores, members, |members|));
  }

  // ----- Cluster construction -----

  predicate AllDuplicate(beads: seq<Bead>, members: seq<nat>)
    requires Within(beads, members)
  {
    forall i, j | i in members && j in members ::
      j != i ==> JaccardSimilarity(beads[i].title, beads[j].title) > 0.8
  }

  predicate AnySequential(f: Folds, beads: seq<Bead>, members: seq<nat>)
    requires Within(beads, members)
  {
    exists i, j | i in members && j in members ::
      j != i && SequentialSimilarity(f, beads[i].title, beads[j].title) > 0.5
  }

  predicate AnyScoped(beads: seq<Bead>, members: seq<nat>)
    requires Within(beads, members)
  {
    exists i, j | i in members && j in members ::
      j != i && ScopePrefixSimilarity(beads[i].title, beads[j].title) > 0.5
  }

  function ClassifyRelationship(f: Folds, beads: seq<Bead>, members: seq<nat>): Relationship
    requires Within(beads, members)
  {
    if AllDuplicate(beads, members) then NearDuplicate
    else if AnySequential(f, beads, members) then Sequential
    else if AnyScoped(beads, members) then SharedScope
    else Overlapping
  }

  ghost predicate AllNear(beads: seq<Bead>, members: seq<nat>)
    requires Within(beads, members)
  {
    forall i, j :: i in members && j in members && i != j ==> NearDuplicates(beads[i].title, beads[j].title)
  }

  ghost predicate SomeSteps(f: Folds, beads: seq<Bead>, members: seq<nat>)
    requires Within(beads, members)
  {
    exists i, j :: i in members && j in members && i != j && StepsOfOne(f, beads[i].title, beads[j].title)
  }

  ghost predicate SomeScope(beads: seq<Bead>, members: seq<nat>)
    requires Within(beads, members)
  {
    exists i, j :: i in members && j in members && i != j && SharesScope(beads[i].title, beads[j].title)
  }

  /** What each relationship says of the members, two by two; the first that applies is reported. */
  ghost predicate Relates(f: Folds, beads: seq<Bead>, members: seq<nat>, r: Relationship)
    requires Within(beads, members)
  {
    && (r.NearDuplicate? <==> AllNear(beads, members))
    && (r.Sequential? <==> !AllNear(beads, members) && SomeSteps(f, beads, members))
    && (r.SharedScope? <==>
          !AllNear(beads, members) && !SomeSteps(f, beads, members) && SomeScope(beads, members))
  }

  lemma ClassifyRelates(f: Folds, beads: seq<Bead>, members: seq<nat>)
    requires Within(beads, members)
    ensures Relates(f, beads, members, ClassifyRelationship(f, beads, members))
  {
    NearMeans(beads, members);
    StepsMean(f, beads, members);
    ScopeMeans(beads, members);
  }

  lemma NearMeans(beads: seq<Bead>, members: seq<nat>)
    requires Within(beads, members)
    ensures AllDuplicate(beads, members) <==> AllNear(beads, members)
  {
    forall i, j | i in members && j in members
      ensures JaccardSimilarity(beads[i].title, beads[j].title) > 0.8
              <==> NearDuplicates(beads[i].title, beads[j].title)
    {
      NearDuplicatesIff(beads[i].title, beads[j].title);
    }
  }

  lemma StepsMean(f: Folds, beads: seq<Bead>, members: seq<nat>)
    requires Within(beads, members)
    ensures AnySequential(f, beads, members) <==> SomeSteps(f, beads, members)
  {
    forall i, j | i in members && j in members
      ensures SequentialSimilarity(f, beads[i].title, beads[j].title) > 0.5
              <==> StepsOfOne(f, beads[i].title, beads[j].title)
    {
      StepsOfOneIff(f, beads[i].title, beads[j].title);
    }
  }

  lemma ScopeMeans(beads: seq<Bead>, members: seq<nat>)
    requires Within(beads, members)
    ensures AnyScoped(beads, members) <==> SomeScope(beads, members)
  {
    forall i, j | i in members && j in members
      ensures ScopePrefixSimilarity(beads[i].title, beads[j].title) > 0.5
              <==> SharesScope(beads[i].title, beads[j].title)
    {
      SharesScopeIff(beads[i].title, beads[j].title);
    }
  }

  /** Near duplicates keep the best bead and close the others; steps run in sequence; the rest suppress. */
  function ActionFor(relationship: Relationship, ids: seq<string>): (action: Action)
    requires ids != []
    ensures action.Merge? <==> relationship.NearDuplicate?
    ensures action.Sequence? <==> relationship.Sequential?
    ensures action.Merge? ==> [action.keep] + action.close == ids
  {
    match relationship
    case NearDuplicate => Merge(ids[0], ids[1..])
    case Sequential => Sequence
    case SharedScope => Suppress
    case Overlapping => Suppress
  }

  function Ids(beads: seq<Bead>, s: seq<nat>): (ids: seq<string>)
    requires Within(beads, s)
    ensures |ids| == |s| && forall k :: 0 <= k < |s| ==> ids[k] == beads[s[k]].id
  {
    seq(|s|, k requires 0 <= k < |s| => assert s[k] in s; beads[s[k]].id)
  }

  /** Near duplicates, and only they, merge, the first bead being kept; steps, and only they, run in sequence. */
  ghost predicate Acts(c: BeadCluster) {
    && (c.action.Merge? <==> c.relationship.NearDuplicate?)
    && (c.action.Sequence? <==> c.relationship.Sequential?)
    && (c.action.Merge? ==> [c.action.keep] + c.action.close == c.beadIds)
  }

  /** What a cluster reports about its members. */
  ghost predicate Describes(f: Folds, beads: seq<Bead>, scores: Scores, members: seq<nat>, c: BeadCluster)
    requires Within(beads, members)
  {
    && c.beadIds == Ids(beads, SortMembers(beads, members))
    && c.cohesion == Cohesion(scores, members)
    && Relates(f, beads, members, c.relationship) && Acts(c)
  }

  lemma SumAppend(values: seq<real>, x: real)
    ensures Sum(values + [x]) == Sum(values) + x
  {
    assert (values + [x])[..|values|] == values;
  }

  method SumRow(members: seq<nat>, scores: Scores, i: nat, total: real, count: nat, ghost before: seq<real>)
    returns (sum: real, size: nat)
    requires i < |members| && total == Sum(before) && count == |before|
    ensures sum == Sum(before + RowScores(scores, members, i, |members|))
    ensures size == |before + RowScores(scores, members, i, |members|)|
  {
    sum, size := total, count;
    assert before + [] == before;
    for j := i + 1 to |members|
      invariant Totals(before + RowScores(scores, members, i, j), sum, size)
    {
      var mi, mj := members[i], members[j];
      var key := if mi < mj then (mi, mj) else (mj, mi);
      RowNext(scores, members, i, j, before, sum, size);
      if key in scores {
        sum := sum + scores[key];
        size := size + 1;
      }
    }
  }

  ghost predicate Totals(values: seq<real>, sum: real, size: nat) {
    sum == Sum(values) && size == |values|
  }

  lemma RowNext(scores: Scores, members: seq<nat>, i: nat, j: nat, before: seq<real>, sum: real, size: nat)
    requires i < j < |members| && Totals(before + RowScores(scores, members, i, j), sum, size)
    ensures var mi, mj := members[i], members[j];
            var key := if mi < mj then (mi, mj) else (mj, mi);
            var next := before + RowScores(scores, members, i, j + 1);
            if key in scores then Totals(next, sum + scores[key], size + 1) else Totals(next, sum, size)
  {
    Onwards(before, RowScores(scores, members, i, j), PairScore(scores, members[i], members[j]), sum, size);
  }

  lemma Onwards(before: seq<real>, row: seq<real>, more: seq<real>, sum: real, size: nat)
    requires Totals(before + row, sum, size) && |more| <= 1
    ensures more == [] ==> Totals(before + (row + more), sum, size)
    ensures more != [] ==> Totals(before + (row + more), sum + more[0], size + 1)
  {
    assert before + (row + more) == (before + row) + more;
    if more == [] {
      assert before + row + [] == before + row;
    } else {
      assert more == [more[0]];
      SumAppend(before + row, more[0]);
    }
  }

  method SumPairs(members: seq<nat>, scores: Scores) returns (total: real, count: nat)
    ensures total == Sum(GroupScores(scores, members, |members|))
    ensures count == |GroupScores(scores, members, |members|)|
  {
    total, count := 0.0, 0;
    for i := 0 to |members|
      invariant total == Sum(GroupScores(scores, members, i)) && count == |GroupScores(scores, members, i)|
    {
      total, count := SumRow(members, scores, i, total, count, GroupScores(scores, members, i));
    }
  }

  method BuildCluster(f: Folds, beads: seq<Bead>, members: seq<nat>, scores: Scores) returns (cluster: BeadCluster)
    requires Within(beads, members) && members != []
    ensures Describes(f, beads, scores, members, cluster)
  {
    var total, count := SumPairs(members, scores);
    var cohesion := Mean(total, count);
    var ordered := SortMembers(beads, members);
    assert |ordered| == |multiset(ordered)| == |multiset(members)| == |members|;
    var ids := Ids(beads, ordered);
    ClassifyRelates(f, beads, members);
    var relationship := ClassifyRelationship(f, beads, members);
    cluster := BeadCluster(ids, relationship, ActionFor(relationship, ids), cohesion);
  }

  // ----- Clustering -----

  /** The union-find partition is connectivity over the edges recorded so far. */
  ghost predicate Matches(roots: seq<nat>, e: Edges) {
    forall a: nat, b: nat :: a < |roots| && b < |roots| ==> (roots[a] == roots[b] <==> Connected(e, a, b))
  }

  lemma MatchesEmpty(roots: seq<nat>)
    requires forall x: nat :: x < |roots| ==> roots[x] == x
    ensures Matches(roots, {})
  {
    forall a: nat, b: nat | a < |roots| && b < |roots| ensures a == b <==> Connected({}, a, b) {
      if Connected({}, a, b) {
        var path :| IsPath({}, path, a, b);
      } else if a == b {
        Reflexive({}, a);
      }
    }
  }

  lemma MatchesMerged(before: seq<nat>, after: seq<nat>, e: Edges, x: nat, y: nat)
    requires Matches(before, e) && UF.Merged(before, after, x, y)
    ensures Matches(after, e + {(x, y)})
  {
    forall a: nat, b: nat | a < |after| && b < |after|
      ensures after[a] == after[b] <==> Connected(e + {(x, y)}, a, b)
    {
      AddEdge(e, x, y, a, b);
    }
  }

  predicate Visited(a: nat, b: nat, i: nat, j: nat) {
    a < i || (a == i && b < j)
  }

  ghost predicate ScoredUpTo(sim: Scorer, beads: seq<Bead>, scores: Scores, i: nat, j: nat) {
    && (forall a: nat, b: nat :: (a, b) in scores <==>
         a < b < |beads| && Visited(a, b, i, j) && Related(sim, beads[a], beads[b]))
    && (forall a: nat, b: nat :: (a, b) in scores ==>
         a < b < |beads| && scores[(a, b)] == sim(beads[a], beads[b]))
  }

  method LinkPairs(sim: Scorer, beads: seq<Bead>, uf: UF.UnionFind) returns (scores: Scores)
    requires uf.Valid() && |uf.parent| == |beads| && Matches(UF.Roots(uf.parent, uf.rank), {})
    modifies uf
    ensures uf.Valid() && |uf.parent| == |beads|
    ensures EdgeScores(sim, beads, scores) && Matches(UF.Roots(uf.parent, uf.rank), Graph(sim, beads))
  {
    scores := map[];
    assert scores.Keys == {};
    for i := 0 to |beads|
      invariant uf.Valid() && |uf.parent| == |beads|
      invariant ScoredUpTo(sim, beads, scores, i, 0) && Matches(UF.Roots(uf.parent, uf.rank), scores.Keys)
    {
      for j := i + 1 to |beads|
        invariant uf.Valid() && |uf.parent| == |beads|
        invariant ScoredUpTo(sim, beads, scores, i, j) && Matches(UF.Roots(uf.parent, uf.rank), scores.Keys)
      {
        if beads[i].repo != beads[j].repo {
          continue;
        }
        var score := sim(beads[i], beads[j]);
        if score >= CLUSTER_THRESHOLD {
          ghost var before, e := UF.Roots(uf.parent, uf.rank), scores.Keys;
          uf.Union(i, j);
          scores := scores[(i, j) := score];
          MatchesMerged(before, UF.Roots(uf.parent, uf.rank), e, i, j);
          assert scores.Keys == e + {(i, j)};
        }
      }
    }
    assert scores.Keys == Graph(sim, beads) by {
      forall key | key in scores.Keys ensures key in Graph(sim, beads) { assert (key.0, key.1) in scores; }
    }
  }

  /** `members` lists, in order, the nodes below `limit` that have this root. */
  ghost predicate Bucket(rootOf: seq<nat>, members: seq<nat>, root: nat, limit: nat)
    requires limit <= |rootOf|
  {
    && Ascending(members)
    && (forall k :: 0 <= k < |members| ==> members[k] < limit && rootOf[members[k]] == root)
    && (forall x :: 0 <= x < limit && rootOf[x] == root ==> x in members)
  }

  ghost predicate GroupedBy(rootOf: seq<nat>, groups: map<nat, seq<nat>>, limit: nat)
    requires limit <= |rootOf|
  {
    && (forall x :: 0 <= x < limit ==> rootOf[x] in groups)
    && (forall root :: root in groups ==> Bucket(rootOf, groups[root], root, limit))
  }

  lemma BucketGrows(rootOf: seq<nat>, members: seq<nat>, root: nat, limit: nat)
    requires limit < |rootOf| && Bucket(rootOf, members, root, limit)
    ensures rootOf[limit] == root ==> Bucket(rootOf, members + [limit], root, limit + 1)
    ensures rootOf[limit] != root ==> Bucket(rootOf, members, root, limit + 1)
  {
  }

  function Grown(groups: map<nat, seq<nat>>, root: nat, i: nat): map<nat, seq<nat>> {
    groups[root := (if root in groups then groups[root] else []) + [i]]
  }

  lemma GrownBucket(rootOf: seq<nat>, groups: map<nat, seq<nat>>, i: nat, other: nat)
    requires i < |rootOf| && GroupedBy(rootOf, groups, i) && other in Grown(groups, rootOf[i], i)
    ensures Bucket(rootOf, Grown(groups, rootOf[i], i)[other], other, i + 1)
  {
    var members := if other in groups then groups[other] else [];
    assert Bucket(rootOf, members, other, i);
    BucketGrows(rootOf, members, other, i);
  }

  lemma GroupsGrow(rootOf: seq<nat>, groups: map<nat, seq<nat>>, i: nat)
    requires i < |rootOf| && GroupedBy(rootOf, groups, i)
    ensures GroupedBy(rootOf, Grown(groups, rootOf[i], i), i + 1)
  {
    var next := Grown(groups, rootOf[i], i);
    forall other | other in next ensures Bucket(rootOf, next[other], other, i + 1) {
      GrownBucket(rootOf, groups, i, other);
    }
  }

  method CollectGroups(uf: UF.UnionFind) returns (groups: map<nat, seq<nat>>)
    requires uf.Valid()
    modifies uf`parent
    ensures uf.Valid() && UF.Roots(uf.parent, uf.rank) == old(UF.Roots(uf.parent, uf.rank))
    ensures GroupedBy(UF.Roots(uf.parent, uf.rank), groups, |uf.parent|)
  {
    groups := map[];
    ghost var rootOf := UF.Roots(uf.parent, uf.rank);
    for i := 0 to |uf.parent|
      invariant uf.Valid() && UF.Roots(uf.parent, uf.rank) == rootOf
      invariant GroupedBy(rootOf, groups, i)
    {
      var root, _ := uf.Find(i);
      GroupsGrow(rootOf, groups, i);
      groups := Grown(groups, root, i);
    }
  }

  lemma CollectedComponents(sim: Scorer, beads: seq<Bead>, rootOf: seq<nat>, groups: map<nat, seq<nat>>, root: nat)
    requires |rootOf| == |beads| && GroupedBy(rootOf, groups, |rootOf|) && root in groups && |groups[root]| >= 2
    requires RootsAreComponents(sim, beads, rootOf)
    ensures IsComponent(sim, beads, groups[root])
  {
    var g := groups[root];
    assert Bucket(rootOf, g, root, |beads|);
    forall i: nat, j: nat | i in g ensures j in g <==> Connected(Graph(sim, beads), i, j) {
      if Connected(Graph(sim, beads), i, j) { ConnectedInRepo(sim, beads, i, j); }
    }
  }

  lemma PeerInGroup(sim: Scorer, beads: seq<Bead>, rootOf: seq<nat>, groups: map<nat, seq<nat>>, i: nat)
    requires |rootOf| == |beads| && GroupedBy(rootOf, groups, |rootOf|)
    requires RootsAreComponents(sim, beads, rootOf)
    requires i < |beads| && HasPeer(sim, beads, i)
    ensures rootOf[i] in groups && i in groups[rootOf[i]] && |groups[rootOf[i]]| >= 2
  {
    var j :| j != i && Connected(Graph(sim, beads), i, j);
    ConnectedInRepo(sim, beads, i, j);
    var g := groups[rootOf[i]];
    assert Bucket(rootOf, g, rootOf[i], |beads|);
    var k :| 0 <= k < |g| && g[k] == i;
    var l :| 0 <= l < |g| && g[l] == j;
  }

  lemma LoneBead(sim: Scorer, beads: seq<Bead>, i: nat)
    requires |beads| < 2 && i < |beads|
    ensures !HasPeer(sim, beads, i)
  {
    forall j | Connected(Graph(sim, beads), i, j) ensures j == i { ConnectedInRepo(sim, beads, i, j); }
  }

  ghost predicate RootsAreComponents(sim: Scorer, beads: seq<Bead>, rootOf: seq<nat>) {
    && |rootOf| == |beads|
    && forall a: nat, b: nat :: a < |beads| && b < |beads| ==>
         (rootOf[a] == rootOf[b] <==> Connected(Graph(sim, beads), a, b))
  }

  /** `groups[k]` is the bucket of `roots[k]`; every large bucket not among `left` is there, once. */
  ghost predicate Chosen(byRoot: map<nat, seq<nat>>, left: set<nat>, roots: seq<nat>, groups: seq<seq<nat>>) {
    && |roots| == |groups|
    && (forall k :: 0 <= k < |roots| ==>
          roots[k] in byRoot && roots[k] !in left && groups[k] == byRoot[roots[k]] && |groups[k]| >= 2)
    && (forall k, l :: 0 <= k < l < |roots| ==> roots[k] != roots[l])
    && (forall root :: root in byRoot && root !in left && |byRoot[root]| >= 2 ==> root in roots)
  }

  lemma ChosenAreExact(sim: Scorer, beads: seq<Bead>, rootOf: seq<nat>, byRoot: map<nat, seq<nat>>,
                       roots: seq<nat>, groups: seq<seq<nat>>)
    requires RootsAreComponents(sim, beads, rootOf) && GroupedBy(rootOf, byRoot, |rootOf|)
    requires Chosen(byRoot, {}, roots, groups)
    ensures ExactComponents(sim, beads, groups)
  {
    forall k | 0 <= k < |groups| ensures IsComponent(sim, beads, groups[k]) {
      CollectedComponents(sim, beads, rootOf, byRoot, roots[k]);
    }
    forall k, l, i: nat | 0 <= k < l < |groups| && i in groups[k] ensures i !in groups[l] {
      assert Bucket(rootOf, byRoot[roots[k]], roots[k], |rootOf|);
      assert Bucket(rootOf, byRoot[roots[l]], roots[l], |rootOf|);
    }
    forall i: nat | i < |beads| && HasPeer(sim, beads, i) ensures exists k :: 0 <= k < |groups| && i in groups[k] {
      PeerInGroup(sim, beads, rootOf, byRoot, i);
      var k :| 0 <= k < |roots| && roots[k] == rootOf[i];
      assert i in groups[k];
    }
  }

  ghost predicate Reports(f: Folds, beads: seq<Bead>, scores: Scores, group: seq<nat>, c: BeadCluster) {
    && Within(beads, group)
    && Describes(f, beads, scores, group, c)
    && Averages(scores, group, c.cohesion) && 0.45 <= c.cohesion <= 1.0
  }

  lemma ChooseNext(byRoot: map<nat, seq<nat>>, left: set<nat>, roots: seq<nat>, groups: seq<seq<nat>>, root: nat)
    requires Chosen(byRoot, left, roots, groups) && root in left && root in byRoot
    ensures |byRoot[root]| >= 2 ==> Chosen(byRoot, left - {root}, roots + [root], groups + [byRoot[root]])
    ensures |byRoot[root]| < 2 ==> Chosen(byRoot, left - {root}, roots, groups)
  {
  }

  ghost predicate AllReport(f: Folds, beads: seq<Bead>, scores: Scores, groups: seq<seq<nat>>, cs: seq<BeadCluster>) {
    |cs| == |groups| && forall k :: 0 <= k < |groups| ==> Reports(f, beads, scores, groups[k], cs[k])
  }

  lemma OneMoreReport(f: Folds, beads: seq<Bead>, scores: Scores, groups: seq<seq<nat>>, cs: seq<BeadCluster>,
                      group: seq<nat>, c: BeadCluster)
    requires AllReport(f, beads, scores, groups, cs) && Reports(f, beads, scores, group, c)
    ensures AllReport(f, beads, scores, groups + [group], cs + [c])
  {
  }

  method BuildAll(f: Folds, sim: Scorer, beads: seq<Bead>, scores: Scores,
                  ghost rootOf: seq<nat>, byRoot: map<nat, seq<nat>>)
    returns (clusters: seq<BeadCluster>, ghost groups: seq<seq<nat>>)
    requires EdgeScores(sim, beads, scores)
    requires RootsAreComponents(sim, beads, rootOf) && GroupedBy(rootOf, byRoot, |rootOf|)
    ensures ExactComponents(sim, beads, groups) && AllReport(f, beads, scores, groups, clusters)
  {
    clusters, groups := [], [];
    var left := byRoot.Keys;
    ghost var roots: seq<nat> := [];
    while left != {}
      invariant left <= byRoot.Keys && Chosen(byRoot, left, roots, groups)
      invariant AllReport(f, beads, scores, groups, clusters)
    {
      var root :| root in left;
      ChooseNext(byRoot, left, roots, groups, root);
      left := left - {root};
      var members := byRoot[root];
      if |members| >= 2 {
        CollectedComponents(sim, beads, rootOf, byRoot, root);
        ComponentCohesion(sim, beads, scores, members);
        CohesionAverages(scores, members);
        var cluster := BuildCluster(f, beads, members, scores);
        OneMoreReport(f, beads, scores, groups, clusters, members, cluster);
        clusters, groups, roots := clusters + [cluster], groups + [members], roots + [root];
      }
    }
    ChosenAreExact(sim, beads, rootOf, byRoot, roots, groups);
  }

  /** The clusters report exactly the connected components of two or more beads, in some order. */
  ghost predicate ClustersOf(f: Folds, beads: seq<Bead>, clusters: seq<BeadCluster>) {
    exists groups: seq<seq<nat>>, scores: Scores ::
      EdgeScores(Scoring(f), beads, scores) && ExactComponents(Scoring(f), beads, groups)
      && AllReport(f, beads, scores, groups, clusters)
  }

  /** Clusters beads; the order in which the clusters come out is the hash map's, so it is left open. */
  method ClusterBeads(f: Folds, beads: seq<Bead>) returns (clusters: seq<BeadCluster>)
    ensures ClustersOf(f, beads, clusters)
  {
    var sim: Scorer := Scoring(f);
    if |beads| < 2 {
      clusters := [];
      NoClusters(f, beads);
      return;
    }
    var uf := new UF.UnionFind(|beads|);
    MatchesEmpty(UF.Roots(uf.parent, uf.rank));
    var scores := LinkPairs(sim, beads, uf);
    ghost var rootOf := UF.Roots(uf.parent, uf.rank);
    assert RootsAreComponents(sim, beads, rootOf);
    var byRoot := CollectGroups(uf);
    ghost var groups;
    clusters, groups := BuildAll(f, sim, beads, scores, rootOf, byRoot);
  }

  lemma NoClusters(f: Folds, beads: seq<Bead>)
    requires |beads| < 2
    ensures ClustersOf(f, beads, [])
  {
    var sim, groups, scores: Scores := Scoring(f), [], map[];
    assert scores.Keys == Graph(sim, beads);
    forall i: nat | i < |beads| ensures !HasPeer(sim, beads, i) { LoneBead(sim, beads, i); }
    assert EdgeScores(sim, beads, scores) && ExactComponents(sim, beads, groups);
    assert AllReport(f, beads, scores, groups, []);
  }

  // ----- Clusters whatever the input order -----

  ghost predicate SameIds(a: BeadCluster, b: BeadCluster) {
    forall id :: id in a.beadIds <==> id in b.beadIds
  }

  ghost function IdsIn(members: set<Bead>): set<string> {
    set b | b in members :: b.id
  }

  lemma Rearrangement(a: seq<nat>, b: seq<nat>)
    requires multiset(a) == multiset(b)
    ensures forall x :: x in a <==> x in b
  {
    assert forall x :: x in a <==> x in multiset(a);
    assert forall x :: x in b <==> x in multiset(b);
  }

  lemma MemberReported(beads: seq<Bead>, group: seq<nat>, i: nat)
    requires Within(beads, group) && i in group
    ensures beads[i].id in Ids(beads, SortMembers(beads, group))
  {
    var sorted := SortMembers(beads, group);
    Rearrangement(sorted, group);
    var k :| 0 <= k < |sorted| && sorted[k] == i;
    assert Ids(beads, sorted)[k] == beads[i].id;
  }

  lemma ReportedMember(beads: seq<Bead>, group: seq<nat>, sorted: seq<nat>, k: nat)
    requires Within(beads, group) && Within(beads, sorted) && multiset(sorted) == multiset(group) && k < |sorted|
    ensures beads[sorted[k]].id in IdsIn(BeadSet(beads, group))
  {
    Rearrangement(sorted, group);
    assert sorted[k] in group;
    assert beads[sorted[k]] in BeadSet(beads, group);
  }

  /** The reported ids are those of the group's beads. */
  lemma ReportsIds(beads: seq<Bead>, group: seq<nat>)
    requires Within(beads, group)
    ensures forall id :: id in Ids(beads, SortMembers(beads, group)) <==> id in IdsIn(BeadSet(beads, group))
  {
    var ids := Ids(beads, SortMembers(beads, group));
    forall id | id in ids ensures id in IdsIn(BeadSet(beads, group)) {
      var k :| 0 <= k < |ids| && ids[k] == id;
      ReportedMember(beads, group, SortMembers(beads, group), k);
    }
    forall id | id in IdsIn(BeadSet(beads, group)) ensures id in ids {
      var b :| b in BeadSet(beads, group) && b.id == id;
      var i :| i in group && beads[i] == b;
      MemberReported(beads, group, i);
    }
  }

  lemma SameGroupSameIds(f: Folds, beads: seq<Bead>, other: seq<Bead>, scores: Scores, scores2: Scores,
                         g: seq<nat>, h: seq<nat>, c: BeadCluster, d: BeadCluster)
    requires Reports(f, beads, scores, g, c) && Reports(f, other, scores2, h, d)
    requires BeadSet(other, h) == BeadSet(beads, g)
    ensures SameIds(c, d)
  {
    ReportsIds(beads, g);
    ReportsIds(other, h);
  }

  lemma MovedPairs(f: Folds, beads: seq<Bead>, other: seq<Bead>, sigma: seq<nat>, tau: seq<nat>,
                   g: seq<nat>, h: seq<nat>)
    requires Rearranged(beads, other, sigma, tau) && Within(beads, g) && Within(other, h) && MovedTo(beads, sigma, g, h)
    ensures AllNear(other, h) ==> AllNear(beads, g)
    ensures SomeSteps(f, beads, g) ==> SomeSteps(f, other, h)
    ensures SomeScope(beads, g) ==> SomeScope(other, h)
  {
    forall i, j | i in g && j in g && i != j
      ensures sigma[i] in h && sigma[j] in h && sigma[i] != sigma[j]
      ensures other[sigma[i]] == beads[i] && other[sigma[j]] == beads[j]
    {
    }
  }

  lemma MovedBack(beads: seq<Bead>, other: seq<Bead>, sigma: seq<nat>, tau: seq<nat>, g: seq<nat>, h: seq<nat>)
    requires Rearranged(beads, other, sigma, tau) && MovedTo(beads, sigma, g, h)
    ensures Rearranged(other, beads, tau, sigma) && MovedTo(other, tau, h, g)
  {
  }

  lemma SameRelationship(f: Folds, beads: seq<Bead>, other: seq<Bead>, sigma: seq<nat>, tau: seq<nat>,
                         g: seq<nat>, h: seq<nat>, r: Relationship, q: Relationship)
    requires Rearranged(beads, other, sigma, tau) && Within(beads, g) && Within(other, h) && MovedTo(beads, sigma, g, h)
    requires Relates(f, beads, g, r) && Relates(f, other, h, q)
    ensures r == q
  {
    MovedPairs(f, beads, other, sigma, tau, g, h);
    MovedBack(beads, other, sigma, tau, g, h);
    MovedPairs(f, other, beads, tau, sigma, h, g);
  }

  /**
   * However the input is rearranged, every cluster of one output has one in the other with the same bead ids and the
   * same relationship.
   */
  lemma ClustersOrderIndependent(f: Folds, beads: seq<Bead>, other: seq<Bead>, sigma: seq<nat>, tau: seq<nat>,
                                 clusters: seq<BeadCluster>, others: seq<BeadCluster>, k: nat)
    requires Rearranged(beads, other, sigma, tau) && k < |clusters|
    requires ClustersOf(f, beads, clusters) && ClustersOf(f, other, others)
    ensures exists l :: 0 <= l < |others| && SameIds(clusters[k], others[l])
                        && others[l].relationship == clusters[k].relationship
  {
    var groups: seq<seq<nat>>, scores: Scores :| EdgeScores(Scoring(f), beads, scores)
      && ExactComponents(Scoring(f), beads, groups) && AllReport(f, beads, scores, groups, clusters);
    var groups2: seq<seq<nat>>, scores2: Scores :| EdgeScores(Scoring(f), other, scores2)
      && ExactComponents(Scoring(f), other, groups2) && AllReport(f, other, scores2, groups2, others);
    var l := OrderIndependent(Scoring(f), beads, other, sigma, tau, groups, groups2, k);
    assert Reports(f, beads, scores, groups[k], clusters[k]) && Reports(f, other, scores2, groups2[l], others[l]);
    SameGroupSameIds(f, beads, other, scores, scores2, groups[k], groups2[l], clusters[k], others[l]);
    SameRelationship(f, beads, other, sigma, tau, groups[k], groups2[l],
                     clusters[k].relationship, others[l].relationship);
  }

  // ----- Domination -----

  predicate Dominates(sim: Scorer, bead: Bead, other: Bead) {
    other.id != bead.id && other.repo == bead.repo && sim(bead, other) > 0.5
  }

  /** The first active bead similar enough to cover this one. */
  method IsDominatedBy(sim: Scorer, bead: Bead, active: seq<Bead>) returns (cover: Option<string>, ghost k: nat)
    ensures cover.Some? ==> k < |active| && Dominates(sim, bead, active[k]) && cover.value == active[k].id
    ensures cover.Some? ==> forall m :: 0 <= m < k ==> !Dominates(sim, bead, active[m])
    ensures cover.None? ==> forall m :: 0 <= m < |active| ==> !Dominates(sim, bead, active[m])
  {
    k := 0;
    for i := 0 to |active|
      invariant forall m :: 0 <= m < i ==> !Dominates(sim, bead, active[m])
    {
      var other := active[i];
      if other.id == bead.id || bead.repo != other.repo {
        continue;
      }
      if sim(bead, other) > 0.5 {
        return Some(other.id), i;
      }
    }
    cover := None;
  }

  lemma DominatedShareGroup(sim: Scorer, beads: seq<Bead>, groups: seq<seq<nat>>, i: nat, j: nat) returns (k: nat)
    requires i < |beads| && j < |beads| && Dominates(sim, beads[i], beads[j])
    requires ExactComponents(sim, beads, groups)
    ensures k < |groups| && i in groups[k] && j in groups[k]
  {
    Adjacent(sim, beads, i, j);
    Direct(Graph(sim, beads), i, j);
    assert HasPeer(sim, beads, i);
    k :| 0 <= k < |groups| && i in groups[k];
    assert IsComponent(sim, beads, groups[k]);
  }

  /** A dominated bead is reported in the same cluster as the bead dominating it. */
  lemma DominatedShareCluster(f: Folds, beads: seq<Bead>, clusters: seq<BeadCluster>, i: nat, j: nat)
    requires i < |beads| && j < |beads| && Dominates(Scoring(f), beads[i], beads[j])
    requires ClustersOf(f, beads, clusters)
    ensures exists c :: c in clusters && beads[i].id in c.beadIds && beads[j].id in c.beadIds
  {
    var groups: seq<seq<nat>>, scores: Scores :| EdgeScores(Scoring(f), beads, scores)
      && ExactComponents(Scoring(f), beads, groups) && AllReport(f, beads, scores, groups, clusters);
    var k := DominatedShareGroup(Scoring(f), beads, groups, i, j);
    assert Reports(f, beads, scores, groups[k], clusters[k]);
    MemberReported(beads, groups[k], i);
    MemberReported(beads, groups[k], j);
    assert clusters[k] in clusters;
  }
}
