/** Moves that may be interrupted anywhere: how many copies of a bead can be moved afterwards. */
module MoveTries {
  import opened Text
  import opened BeadStore
  import opened Runs
  import opened BeadMove
  import opened MoveLaws
  import opened MoveChains
  import opened StoreExamples

  /** A move that is killed after so many writes, if it has not failed or finished before. */
  datatype Try = Try(from: Location, to: Location, kill: nat)

  ghost function PlanOf(w: World, n: Naming, t: Try): seq<Step>
    requires CanMove(w, t.from)
  {
    var (id, b) := GetBead(w[t.from.repo], t.from.id).value;
    Plan(HopMove(n, t.from, t.to), w[t.from.repo], id, b)
  }

  ghost predicate Begins(w: World, t: Try) {
    CanMove(w, t.from) && t.to.repo in w
  }

  /** The stores where the try stops, and after how many writes. */
  ghost function Stopped(w: World, n: Naming, t: Try): Run<Pair>
    requires Begins(w, t)
  {
    var plan := PlanOf(w, n, t);
    Attempt(Perform, Stores(w, t.from, t.to), plan[..if t.kill < |plan| then t.kill else |plan|])
  }

  /** A try that cannot begin changes nothing. */
  ghost function Tried(w: World, n: Naming, t: Try): World {
    if !Begins(w, t) then w
    else
      var q := Stopped(w, n, t).state;
      w[t.from.repo := q.source][t.to.repo := q.dest]
  }

  /** It stops behind its first write and before its last three. */
  ghost predicate HalfWay(w: World, n: Naming, t: Try) {
    Begins(w, t) && 0 < Stopped(w, n, t).done && Stopped(w, n, t).done + 2 < |PlanOf(w, n, t)|
  }

  lemma LongerGoesFurther<S, W>(perform: (S, W) -> Option<S>, s: S, a: seq<W>, b: seq<W>)
    ensures Attempt(perform, s, a).done <= Attempt(perform, s, a + b).done
  {
    AttemptConcat(perform, s, a, b);
  }

  lemma Reached<S, W>(perform: (S, W) -> Option<S>, s: S, steps: seq<W>, j: nat)
    requires j == Attempt(perform, s, steps).done
    ensures Attempt(perform, s, steps[..j]) == Attempt(perform, s, steps)
  {
    AttemptPrefix(perform, s, steps, j);
  }

  lemma PrefixTwice<T>(xs: seq<T>, k: nat, j: nat)
    requires j <= k <= |xs|
    ensures xs[..k][..j] == xs[..j] && xs[..k] + xs[k..] == xs
  {
  }

  lemma StopIsReached(p: Pair, plan: seq<Step>, k: nat, r: Run<Pair>)
    requires k <= |plan| && r == Attempt(Perform, p, plan[..k])
    ensures r.done <= Attempt(Perform, p, plan).done && Reaches(p, plan, r.done, r.state)
  {
    var a, rest := plan[..k], plan[k..];
    PrefixTwice(plan, k, r.done);
    Reached(Perform, p, a, r.done);
    LongerGoesFurther(Perform, p, a, rest);
  }

  // ----- One try -----

  /**
   * After j of n writes: from the first one on there is a movable copy at a place that had none, and until the last
   * three the bead can still be moved from where it was.
   */
  ghost predicate TryLeaves(w: World, v: World, t: Try, j: nat, n: nat) {
    && Sane(v) && Stored(v, t.from) && (CanMove(v, t.from) <==> j + 2 < n)
    && (j == 0 ==> v == w)
    && (j > 0 ==> !Stored(w, t.to) && Stored(v, t.to) && CanMove(v, t.to))
    && (forall l :: l != t.from && l != t.to && Stored(w, l) ==> Stored(v, l) && (CanMove(v, l) <==> CanMove(w, l)))
  }

  lemma TryStops(w: World, n: Naming, t: Try) returns (q: Pair, j: nat)
    requires Sane(w) && Stored(w, t.from) && Begins(w, t)
    ensures Stopped(w, n, t) == Run(q, j) && j <= |PlanOf(w, n, t)|
    ensures j == 0 ==> q == Stores(w, t.from, t.to)
    ensures Leaves(Stores(w, t.from, t.to), q, t.from.id, t.to.id, j, |PlanOf(w, n, t)|)
    ensures Contained(Stores(w, t.from, t.to), q, t.from.id, t.to.id)
  {
    var p, plan := Stores(w, t.from, t.to), PlanOf(w, n, t);
    var kill := if t.kill < |plan| then t.kill else |plan|;
    j := Stopped(w, n, t).done;
    StopIsReached(p, plan, kill, Stopped(w, n, t));
    StoredMovable(w[t.from.repo], t.from.id);
    q := StopsMovable(p, HopMove(n, t.from, t.to), t.from.id, w[t.from.repo].beads[t.from.id], j);
  }

  lemma StopsInWorld(w: World, v: World, t: Try, q: Pair, j: nat, n: nat)
    requires Sane(w) && Stored(w, t.from) && t.to.repo in w
    requires v == w[t.from.repo := q.source][t.to.repo := q.dest] && (j == 0 ==> q == Stores(w, t.from, t.to))
    requires Leaves(Stores(w, t.from, t.to), q, t.from.id, t.to.id, j, n)
    requires Contained(Stores(w, t.from, t.to), q, t.from.id, t.to.id)
    ensures TryLeaves(w, v, t, j, n)
  {
    HopsAround(w, v, t.from, t.to, q);
    StopsAtEnds(w, v, t, q, j, n);
    if j == 0 { assert v == w; }
  }

  lemma StopsAtEnds(w: World, v: World, t: Try, q: Pair, j: nat, n: nat)
    requires Stored(w, t.from) && t.to.repo in w && v == w[t.from.repo := q.source][t.to.repo := q.dest]
    requires Leaves(Stores(w, t.from, t.to), q, t.from.id, t.to.id, j, n) && Joined(q)
    requires q.same == (t.from.repo == t.to.repo)
    ensures Stored(v, t.from) && (CanMove(v, t.from) <==> j + 2 < n)
    ensures j > 0 ==> !Stored(w, t.to) && Stored(v, t.to) && CanMove(v, t.to)
  {
  }

  lemma TryMoves(w: World, n: Naming, t: Try)
    requires Sane(w) && Stored(w, t.from) && Begins(w, t)
    ensures TryLeaves(w, Tried(w, n, t), t, Stopped(w, n, t).done, |PlanOf(w, n, t)|)
  {
    var q, j := TryStops(w, n, t);
    StopsInWorld(w, Tried(w, n, t), t, q, j, |PlanOf(w, n, t)|);
  }

  // ----- Any number of tries -----

  ghost function After(w: World, n: Naming, tries: seq<Try>): World {
    if tries == [] then w else Tried(After(w, n, tries[..|tries| - 1]), n, tries[|tries| - 1])
  }

  ghost function PlacesAfter(w: World, n: Naming, t: Try, places: set<Location>): set<Location> {
    places + if Begins(w, t) && Stopped(w, n, t).done > 0 then {t.to} else {}
  }

  /** Every place the bead has got to. */
  ghost function Places(w: World, n: Naming, start: Location, tries: seq<Try>): set<Location> {
    if tries == [] then {start}
    else
      var init, t := tries[..|tries| - 1], tries[|tries| - 1];
      PlacesAfter(After(w, n, init), n, t, Places(w, n, start, init))
  }

  /** How many of the tries stop half-way. */
  ghost function HalfWays(w: World, n: Naming, tries: seq<Try>): nat {
    if tries == [] then 0
    else
      var init, t := tries[..|tries| - 1], tries[|tries| - 1];
      HalfWays(w, n, init) + if HalfWay(After(w, n, init), n, t) then 1 else 0
  }

  /** Each try moves the bead from a place it has got to. */
  ghost predicate Follows(w: World, n: Naming, start: Location, tries: seq<Try>) {
    tries == [] ||
    (Follows(w, n, start, tries[..|tries| - 1])
     && tries[|tries| - 1].from in Places(w, n, start, tries[..|tries| - 1]))
  }

  ghost function CanMoveAt(w: World, places: set<Location>): set<Location> {
    set l | l in places && CanMove(w, l)
  }

  ghost predicate AllStored(w: World, places: set<Location>) {
    forall l :: l in places ==> Stored(w, l)
  }

  lemma Gained(w: World, v: World, places: set<Location>, t: Try, j: nat, n: nat)
    requires AllStored(w, places) && t.from in places && CanMove(w, t.from) && TryLeaves(w, v, t, j, n) && j > 0
    ensures AllStored(v, places + {t.to})
    ensures CanMoveAt(v, places + {t.to})
            == CanMoveAt(w, places) - (if j + 2 < n then {} else {t.from}) + {t.to}
  {
    assert t.to !in places;
    forall l | l in places && l != t.from ensures Stored(v, l) && (CanMove(v, l) <==> CanMove(w, l)) {
      assert Stored(w, l);
    }
  }

  /** A try from one of the places: one more of them is movable if it stops half-way, and else as many as before. */
  lemma TryCounts(w: World, v: World, places: set<Location>, t: Try, j: nat, n: nat)
    requires AllStored(w, places) && t.from in places && CanMove(w, t.from) && TryLeaves(w, v, t, j, n) && 4 <= n
    ensures var after := places + if j > 0 then {t.to} else {};
            && AllStored(v, after)
            && |CanMoveAt(v, after)| == |CanMoveAt(w, places)| + if 0 < j && j + 2 < n then 1 else 0
  {
    if j > 0 {
      assert t.to !in places;
      var before := CanMoveAt(w, places);
      Gained(w, v, places, t, j, n);
      assert t.from in before && t.to !in before;
    } else {
      assert places + {} == places;
    }
  }

  lemma PlanIsLong(w: World, n: Naming, t: Try)
    requires CanMove(w, t.from)
    ensures |PlanOf(w, n, t)| >= 4
  {
    var (id, b) := GetBead(w[t.from.repo], t.from.id).value;
    PlanEnds(HopMove(n, t.from, t.to), w[t.from.repo], id, b);
  }

  /** The bead is at all its places, and can be moved from so many of them. */
  ghost predicate CountsTo(w: World, places: set<Location>, count: nat) {
    Sane(w) && AllStored(w, places) && |CanMoveAt(w, places)| == count
  }

  lemma CountsNext(w: World, n: Naming, t: Try, places: set<Location>, count: nat)
    requires CountsTo(w, places, count) && t.from in places
    ensures CountsTo(Tried(w, n, t), PlacesAfter(w, n, t, places), count + if HalfWay(w, n, t) then 1 else 0)
  {
    if Begins(w, t) {
      TryMoves(w, n, t);
      PlanIsLong(w, n, t);
      TryCounts(w, Tried(w, n, t), places, t, Stopped(w, n, t).done, |PlanOf(w, n, t)|);
    } else {
      assert places + {} == places;
    }
  }

  /**
   * After any tries to move a bead on, each from a place it has got to, and each failing, killed or finished
   * wherever it may be: it can be moved from at least one place, and from exactly one if and only if no try stopped
   * half-way.
   */
  lemma {:induction false} NoTryLosesTheBead(w: World, n: Naming, start: Location, tries: seq<Try>)
    requires Sane(w) && Stored(w, start) && CanMove(w, start) && Follows(w, n, start, tries)
    ensures CountsTo(After(w, n, tries), Places(w, n, start, tries), 1 + HalfWays(w, n, tries))
    decreases |tries|
  {
    if tries == [] {
      assert CanMoveAt(w, {start}) == {start};
    } else {
      var init := tries[..|tries| - 1];
      NoTryLosesTheBead(w, n, start, init);
      CountsNext(After(w, n, init), n, tries[|tries| - 1], Places(w, n, start, init), 1 + HalfWays(w, n, init));
    }
  }

  // ----- A destination that fills up half-way -----

  lemma {:induction false} NothingGoesThrough(p: Pair, steps: seq<Step>)
    requires p.source.quota == 0 && p.dest.quota == 0
    ensures Attempt(Perform, p, steps) == Run(p, 0)
  {
    if steps != [] { NothingGoesThrough(p, steps[..|steps| - 1]); }
  }

  /** A bead with one comment, and a destination that takes one more write. */
  ghost function Cramped(like: (string, string) -> bool): Pair {
    Pair(Store(map["a" := Plain(None)], map["a" := [Comment("x", "y", false)]], 0, like), Store(map[], map[], 1, like),
         false)
  }

  lemma CrampedStops(like: (string, string) -> bool, m: Move)
    requires m.newId == "b"
    ensures Attempt(Perform, Cramped(like), Plan(m, Cramped(like).source, "a", Plain(None))).done == 1
  {
    var p := Cramped(like);
    var create := OnDest(Create(Relocated(m, "a", Plain(None))));
    var rest := Filling(m, p.source, "a", Plain(None)) + Burying(m, "a");
    AttemptOne(Perform, p, create);
    var made := Perform(p, create).value;
    NothingGoesThrough(made, rest);
    AttemptConcat(Perform, p, [create], rest);
  }

  lemma CrampedMayMove(like: (string, string) -> bool)
    ensures MayMove(Cramped(like), "a", Plain(None))
  {
    var p := Cramped(like);
    assert CommentsOf(p.source, "a") == [Comment("x", "y", false)];
    assert !IsTombstone(Comment("x", "y", false));
  }

  /** The move fails at the comment and leaves two beads that can be moved: the one it copied, and the copy. */
  lemma HalfWayLeavesTwo(like: (string, string) -> bool, m: Move)
    requires m.newId == "b"
    ensures var p := Cramped(like);
            var Run(q, k) := Attempt(Perform, p, Plan(m, p.source, "a", Plain(None)));
            k < |Plan(m, p.source, "a", Plain(None))| && Movable(q.source, "a") && Movable(q.dest, "b")
  {
    var p := Cramped(like);
    CrampedStops(like, m);
    CrampedMayMove(like);
    PlanEnds(m, p.source, "a", Plain(None));
    var q := StopsMovable(p, m, "a", Plain(None), 1);
    AttemptPrefix(Perform, p, Plan(m, p.source, "a", Plain(None)), 1);
  }
}
