/** Connectivity of an undirected graph given by a growing set of edges. */
module Connectivity {
  type Edges = set<(nat, nat)>

  predicate Step(e: Edges, u: nat, v: nat) {
    (u, v) in e || (v, u) in e
  }

  /** `path` lists the nodes visited after leaving `a`, ending at `b`. */
  ghost predicate IsPath(e: Edges, path: seq<nat>, a: nat, b: nat) {
    if path == [] then a == b else Step(e, a, path[0]) && IsPath(e, path[1..], path[0], b)
  }

  ghost predicate Connected(e: Edges, a: nat, b: nat) {
    exists path :: IsPath(e, path, a, b)
  }

  lemma Reflexive(e: Edges, a: nat)
    ensures Connected(e, a, a)
  {
    assert IsPath(e, [], a, a);
  }

  lemma Direct(e: Edges, a: nat, b: nat)
    requires Step(e, a, b)
    ensures Connected(e, a, b)
  {
    assert IsPath(e, [], b, b);
    assert IsPath(e, [b], a, b);
  }

  lemma {:induction false} Join(e: Edges, p: seq<nat>, q: seq<nat>, a: nat, b: nat, c: nat)
    requires IsPath(e, p, a, b) && IsPath(e, q, b, c)
    ensures IsPath(e, p + q, a, c)
    decreases |p|
  {
    if p == [] {
      assert p + q == q;
    } else {
      Join(e, p[1..], q, p[0], b, c);
      assert (p + q)[1..] == p[1..] + q;
    }
  }

  lemma Transitive(e: Edges, a: nat, b: nat, c: nat)
    requires Connected(e, a, b) && Connected(e, b, c)
    ensures Connected(e, a, c)
  {
    var p :| IsPath(e, p, a, b);
    var q :| IsPath(e, q, b, c);
    Join(e, p, q, a, b, c);
  }

  lemma {:induction false} MorePaths(e: Edges, more: Edges, p: seq<nat>, a: nat, b: nat)
    requires e <= more && IsPath(e, p, a, b)
    ensures IsPath(more, p, a, b)
    decreases |p|
  {
    if p != [] { MorePaths(e, more, p[1..], p[0], b); }
  }

  lemma Monotone(e: Edges, more: Edges, a: nat, b: nat)
    requires e <= more && Connected(e, a, b)
    ensures Connected(more, a, b)
  {
    var p :| IsPath(e, p, a, b);
    MorePaths(e, more, p, a, b);
  }

  ghost predicate ViaEdge(e: Edges, x: nat, y: nat, a: nat, b: nat) {
    || Connected(e, a, b)
    || (Connected(e, a, x) && Connected(e, y, b))
    || (Connected(e, a, y) && Connected(e, x, b))
  }

  lemma ViaEdgeAfterStep(e: Edges, x: nat, y: nat, a: nat, c: nat, b: nat)
    requires Step(e, a, c) && ViaEdge(e, x, y, c, b)
    ensures ViaEdge(e, x, y, a, b)
  {
    Direct(e, a, c);
    if Connected(e, c, b) { Transitive(e, a, c, b); }
    if Connected(e, c, x) { Transitive(e, a, c, x); }
    if Connected(e, c, y) { Transitive(e, a, c, y); }
  }

  lemma {:induction false} NewPaths(e: Edges, x: nat, y: nat, p: seq<nat>, a: nat, b: nat)
    requires IsPath(e + {(x, y)}, p, a, b)
    ensures ViaEdge(e, x, y, a, b)
    decreases |p|
  {
    Reflexive(e, a);
    if p != [] {
      var c := p[0];
      NewPaths(e, x, y, p[1..], c, b);
      Reflexive(e, c);
      if Step(e, a, c) { ViaEdgeAfterStep(e, x, y, a, c, b); }
    }
  }

  /** One more edge connects exactly what was connected, plus what meets its two ends. */
  lemma AddEdge(e: Edges, x: nat, y: nat, a: nat, b: nat)
    ensures Connected(e + {(x, y)}, a, b) <==> ViaEdge(e, x, y, a, b)
  {
    var more := e + {(x, y)};
    if Connected(more, a, b) {
      var p :| IsPath(more, p, a, b);
      NewPaths(e, x, y, p, a, b);
    }
    if Connected(e, a, b) { Monotone(e, more, a, b); }
    Direct(more, x, y);
    Direct(more, y, x);
    if Connected(e, a, x) && Connected(e, y, b) { Bridge(e, more, a, x, y, b); }
    if Connected(e, a, y) && Connected(e, x, b) { Bridge(e, more, a, y, x, b); }
  }

  lemma Bridge(e: Edges, more: Edges, a: nat, x: nat, y: nat, b: nat)
    requires e <= more && Connected(e, a, x) && Connected(more, x, y) && Connected(e, y, b)
    ensures Connected(more, a, b)
  {
    Monotone(e, more, a, x);
    Monotone(e, more, y, b);
    Transitive(more, a, x, y);
    Transitive(more, a, y, b);
  }

  /** A property that every edge carries over holds along every path. */
  lemma {:induction false} AlongPath(e: Edges, keeps: nat -> bool, p: seq<nat>, a: nat, b: nat)
    requires forall u, v :: Step(e, u, v) && keeps(u) ==> keeps(v)
    requires IsPath(e, p, a, b) && keeps(a)
    ensures keeps(b)
    decreases |p|
  {
    if p != [] { AlongPath(e, keeps, p[1..], p[0], b); }
  }
}
