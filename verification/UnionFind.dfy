/** The disjoint-set forest behind bead clustering: union by rank with path compression. */
module UnionFind {

  // ----- Forests as values -----

  /** Ranks strictly increase along parent links and stay below the node count, so chains end. */
  ghost predicate Forest(p: seq<nat>, r: seq<nat>) {
    && |p| == |r|
    && (forall i :: 0 <= i < |p| ==> p[i] < |p|)
    && (forall i :: 0 <= i < |r| ==> r[i] < |p|)
    && (forall i {:trigger p[i]} :: 0 <= i < |p| && p[i] != i ==> r[i] < r[p[i]])
  }

  ghost function Root(p: seq<nat>, r: seq<nat>, x: nat): (root: nat)
    requires Forest(p, r) && x < |p|
    ensures root < |p| && p[root] == root
    ensures r[x] <= r[root] && (x != root ==> p[x] != x && r[x] < r[root])
    decreases |p| - r[x]
  {
    if p[x] == x then x else Root(p, r, p[x])
  }

  /** The partition, as the root of every node. */
  ghost function Roots(p: seq<nat>, r: seq<nat>): (roots: seq<nat>)
    requires Forest(p, r)
    ensures |roots| == |p| && forall x :: 0 <= x < |p| ==> roots[x] == Root(p, r, x)
  {
    seq(|p|, x requires 0 <= x < |p| => Root(p, r, x))
  }

  /** Partition `after` joins the classes of `x` and `y` in `before`, and changes nothing else. */
  ghost predicate Merged(before: seq<nat>, after: seq<nat>, x: nat, y: nat) {
    && |after| == |before| && x < |before| && y < |before|
    && forall i, j :: 0 <= i < |before| && 0 <= j < |before| ==>
         (after[i] == after[j] <==>
           || before[i] == before[j]
           || (before[i] == before[x] && before[y] == before[j])
           || (before[i] == before[y] && before[x] == before[j]))
  }

  /** Number of parent links from `x` up to its root: the recursion depth of `Find`. */
  ghost function Depth(p: seq<nat>, r: seq<nat>, x: nat): (d: nat)
    requires Forest(p, r) && x < |p|
    ensures d <= r[Root(p, r, x)] - r[x]
    decreases |p| - r[x]
  {
    if p[x] == x then 0 else 1 + Depth(p, r, p[x])
  }

  ghost function Tree(p: seq<nat>, r: seq<nat>, root: nat): set<nat>
    requires Forest(p, r)
  {
    set i: nat | 0 <= i < |p| && Root(p, r, i) == root
  }

  function Pow2(k: nat): (v: nat)
    ensures v > k
  {
    if k == 0 then 1 else 2 * Pow2(k - 1)
  }

  lemma {:induction false} Pow2Monotone(a: nat, b: nat)
    requires a <= b
    ensures Pow2(a) <= Pow2(b)
    decreases b - a
  {
    if a < b { Pow2Monotone(a, b - 1); }
  }

  /** Every root of rank k heads a tree of at least 2^k nodes. */
  ghost predicate Weighted(p: seq<nat>, r: seq<nat>)
    requires Forest(p, r)
  {
    forall x: nat {:trigger Tree(p, r, x)} :: x < |p| && p[x] == x ==> Pow2(r[x]) <= |Tree(p, r, x)|
  }

  lemma NatSetBound(s: set<nat>, n: nat)
    requires forall i :: i in s ==> i < n
    ensures |s| <= n
  {
    if n == 0 {
      assert s == {};
    } else {
      NatSetBound(s - {n - 1}, n - 1);
    }
  }

  lemma TreesAreNodes(p: seq<nat>, r: seq<nat>, a: nat, b: nat)
    requires Forest(p, r) && a != b
    ensures |Tree(p, r, a)| + |Tree(p, r, b)| <= |p|
  {
    var ta, tb := Tree(p, r, a), Tree(p, r, b);
    assert ta !! tb;
    assert |ta + tb| == |ta| + |tb|;
    NatSetBound(ta + tb, |p|);
  }

  /** Ranks and recursion depth are logarithmic in the number of nodes. */
  lemma LogarithmicBound(p: seq<nat>, r: seq<nat>, x: nat)
    requires Forest(p, r) && Weighted(p, r) && x < |p|
    ensures Pow2(r[x]) <= |p|
    ensures Pow2(Depth(p, r, x)) <= |p|
  {
    var root := Root(p, r, x);
    NatSetBound(Tree(p, r, root), |p|);
    Pow2Monotone(r[x], r[root]);
    Pow2Monotone(Depth(p, r, x), r[root]);
  }

  /** Hanging one root under another of higher rank merges exactly those two trees. */
  lemma {:induction false} LinkedRoot(p: seq<nat>, r: seq<nat>, r': seq<nat>, child: nat, top: nat, x: nat)
    requires Forest(p, r) && x < |p|
    requires child < |p| && top < |p| && child != top && p[child] == child && p[top] == top
    requires |r'| == |r| && r' == r[top := r'[top]] && r[child] < r'[top] < |p| && r[top] <= r'[top]
    ensures Forest(p[child := top], r')
    ensures Root(p[child := top], r', x) == if Root(p, r, x) == child then top else Root(p, r, x)
    decreases |p| - r[x]
  {
    if p[x] != x { LinkedRoot(p, r, r', child, top, p[x]); }
  }

  /** Pointing a node straight at its root moves no node to another tree. */
  lemma {:induction false} CompressedRoot(p: seq<nat>, r: seq<nat>, x: nat, y: nat)
    requires Forest(p, r) && x < |p| && y < |p|
    ensures Forest(p[x := Root(p, r, x)], r)
    ensures Root(p[x := Root(p, r, x)], r, y) == Root(p, r, y)
    decreases |p| - r[y]
  {
    if p[y] != y { CompressedRoot(p, r, x, p[y]); }
  }

  lemma CompressedForest(p: seq<nat>, r: seq<nat>, x: nat)
    requires Forest(p, r) && Weighted(p, r) && x < |p|
    ensures var q := p[x := Root(p, r, x)];
            Forest(q, r) && Weighted(q, r) && Roots(q, r) == Roots(p, r)
  {
    var q := p[x := Root(p, r, x)];
    CompressedRoot(p, r, x, x);
    forall y: nat | y < |p| ensures Root(q, r, y) == Root(p, r, y) { CompressedRoot(p, r, x, y); }
    forall t: nat | t < |q| && q[t] == t ensures Pow2(r[t]) <= |Tree(q, r, t)| {
      assert Tree(q, r, t) == Tree(p, r, t);
      assert p[t] == t;
    }
  }

  lemma LinkedTree(p: seq<nat>, r: seq<nat>, q: seq<nat>, s: seq<nat>, child: nat, top: nat, t: nat)
    requires Forest(p, r) && Forest(q, s) && |p| == |q| && child != top
    requires forall y: nat :: y < |p| ==> Root(q, s, y) == if Root(p, r, y) == child then top else Root(p, r, y)
    ensures t == top ==> |Tree(q, s, t)| == |Tree(p, r, child)| + |Tree(p, r, top)|
    ensures t != top && t != child ==> Tree(q, s, t) == Tree(p, r, t)
  {
    if t == top {
      var a, b := Tree(p, r, child), Tree(p, r, top);
      assert a !! b && Tree(q, s, top) == a + b;
      assert |a + b| == |a| + |b|;
    }
  }

  /** A root's rank grows by one only when another tree at least as heavy joins it. */
  lemma RankPaid(r: seq<nat>, s: seq<nat>, child: nat, top: nat, t: nat, before: nat, other: nat, after: nat)
    requires child < |r| && top < |r| && t < |r| && r[child] <= r[top]
    requires s == if r[child] == r[top] then r[top := r[top] + 1] else r
    requires Pow2(r[t]) <= before && Pow2(r[child]) <= other
    requires after == if t == top then before + other else before
    ensures Pow2(s[t]) <= after
  {
    if t == top && r[child] == r[top] {
      assert s[t] == r[t] + 1;
    }
  }

  lemma LinkedWeight(p: seq<nat>, r: seq<nat>, q: seq<nat>, s: seq<nat>, child: nat, top: nat, t: nat)
    requires Forest(p, r) && Weighted(p, r) && Forest(q, s) && |p| == |q|
    requires child < |p| && top < |p| && child != top && p[child] == child && p[top] == top
    requires q == p[child := top]
    requires forall y: nat :: y < |p| ==> Root(q, s, y) == if Root(p, r, y) == child then top else Root(p, r, y)
    requires r[child] <= r[top]
    requires s == if r[child] == r[top] then r[top := r[top] + 1] else r
    requires t < |q| && q[t] == t
    ensures Pow2(s[t]) <= |Tree(q, s, t)|
  {
    LinkedTree(p, r, q, s, child, top, t);
    RankPaid(r, s, child, top, t, |Tree(p, r, t)|, |Tree(p, r, child)|, |Tree(q, s, t)|);
  }

  lemma LinkedForest(p: seq<nat>, r: seq<nat>, q: seq<nat>, s: seq<nat>, child: nat, top: nat)
    requires Forest(p, r) && Weighted(p, r)
    requires child < |p| && top < |p| && child != top && p[child] == child && p[top] == top
    requires q == p[child := top] && r[child] <= r[top]
    requires s == if r[child] == r[top] then r[top := r[top] + 1] else r
    ensures Forest(q, s) && Weighted(q, s)
    ensures forall y :: 0 <= y < |p| ==>
      Roots(q, s)[y] == if Roots(p, r)[y] == child then top else Roots(p, r)[y]
  {
    assert s[top] < |p| by {
      TreesAreNodes(p, r, child, top);
      assert r[child] == r[top] ==> Pow2(r[top] + 1) <= |p|;
    }
    forall y: nat | y < |p|
      ensures Forest(q, s)
      ensures Root(q, s, y) == if Root(p, r, y) == child then top else Root(p, r, y)
    {
      LinkedRoot(p, r, s, child, top, y);
    }
    LinkedRoot(p, r, s, child, top, top);
    forall t: nat | t < |q| && q[t] == t ensures Pow2(s[t]) <= |Tree(q, s, t)| {
      LinkedWeight(p, r, q, s, child, top, t);
    }
  }

  lemma RenamedIsMerged(before: seq<nat>, after: seq<nat>, x: nat, y: nat, child: nat, top: nat)
    requires |after| == |before| && x < |before| && y < |before|
    requires (before[x] == child && before[y] == top) || (before[x] == top && before[y] == child)
    requires forall i :: 0 <= i < |before| ==> after[i] == if before[i] == child then top else before[i]
    ensures Merged(before, after, x, y)
  {
  }

  /** Hanging the root of one of x and y under the other's joins their classes. */
  lemma LinkMerges(p: seq<nat>, r: seq<nat>, q: seq<nat>, s: seq<nat>, child: nat, top: nat, x: nat, y: nat)
    requires Forest(p, r) && Weighted(p, r) && x < |p| && y < |p|
    requires child < |p| && top < |p| && child != top && p[child] == child && p[top] == top
    requires q == p[child := top] && r[child] <= r[top]
    requires s == if r[child] == r[top] then r[top := r[top] + 1] else r
    requires (Roots(p, r)[x] == child && Roots(p, r)[y] == top) || (Roots(p, r)[x] == top && Roots(p, r)[y] == child)
    ensures Forest(q, s) && Weighted(q, s) && Merged(Roots(p, r), Roots(q, s), x, y)
  {
    LinkedForest(p, r, q, s, child, top);
    RenamedIsMerged(Roots(p, r), Roots(q, s), x, y, child, top);
  }

  // ----- The mutable structure -----

  class UnionFind {
    var parent: seq<nat>
    var rank: seq<nat>

    ghost predicate Valid()
      reads this
    {
      Forest(parent, rank) && Weighted(parent, rank)
    }

    constructor (n: nat)
      ensures Valid() && |parent| == n
      ensures forall x: nat :: x < n ==> Root(parent, rank, x) == x
    {
      parent := seq(n, i => i);
      rank := seq(n, _ => 0);
      new;
      forall x: nat | x < n ensures x in Tree(parent, rank, x) { }
      forall x: nat | x < n ensures 1 <= |Tree(parent, rank, x)| {
        assert Tree(parent, rank, x) == {x};
      }
    }

    /** Finds the root of `x`, pointing every node on the way straight at it. */
    method Find(x: nat) returns (root: nat, ghost depth: nat)
      requires Valid() && x < |parent|
      modifies this`parent
      ensures Valid() && |parent| == old(|parent|)
      ensures root == old(Root(parent, rank, x)) && parent[x] == root
      ensures Roots(parent, rank) == old(Roots(parent, rank))
      ensures depth == old(Depth(parent, rank, x)) && Pow2(depth) <= |parent|
      decreases |parent| - rank[x]
    {
      depth := 0;
      LogarithmicBound(parent, rank, x);
      if parent[x] != x {
        var above;
        above, depth := Find(parent[x]);
        assert above == Roots(parent, rank)[x];
        CompressedForest(parent, rank, x);
        parent := parent[x := above];
        depth := depth + 1;
      }
      root := parent[x];
    }

    /** Merges the trees of `x` and `y`, and no others. */
    method Union(x: nat, y: nat)
      requires Valid() && x < |parent| && y < |parent|
      modifies this
      ensures Valid() && |parent| == old(|parent|)
      ensures Merged(old(Roots(parent, rank)), Roots(parent, rank), x, y)
    {
      var rx, _ := Find(x);
      var ry, _ := Find(y);
      if rx == ry {
        return;
      }
      ghost var p, r := parent, rank;
      if rank[rx] < rank[ry] {
        parent := parent[rx := ry];
        LinkMerges(p, r, parent, rank, rx, ry, x, y);
      } else {
        parent := parent[ry := rx];
        if rank[rx] == rank[ry] {
          rank := rank[rx := rank[rx] + 1];
        }
        LinkMerges(p, r, parent, rank, ry, rx, x, y);
      }
    }
  }
}
