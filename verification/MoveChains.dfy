/** Moving a bead again and again, between any stores: one copy stays movable, and its provenance grows by a hop. */
module MoveChains {
  import opened Text
  import opened BeadStore
  import opened Runs
  import opened BeadMove
  import opened MoveLaws

  /** Scrubbing secrets neither makes nor breaks the start of a tombstone. */
  ghost predicate KeepsTombstones(scrub: string -> string) {
    forall t :: HasPrefix(scrub(t), TOMBSTONE) <==> HasPrefix(t, TOMBSTONE)
  }

  /** The stores by repository, and where in them a bead is. */
  type World = map<string, State>

  datatype Location = Location(repo: string, id: string)

  datatype Naming = Naming(agentFor: string -> string, listed: seq<string> -> string)

  /** The provenance entry of a hop. */
  function HopOrigin(from: Location): Provenance {
    Manual("moved from " + from.id + " (" + from.repo + ")")
  }

  function HopMove(n: Naming, from: Location, to: Location): Move {
    Move(from.repo, to.repo, to.id, n.agentFor, n.listed)
  }

  ghost function Stores(w: World, from: Location, to: Location): Pair
    requires from.repo in w && to.repo in w
  {
    Pair(w[from.repo], w[to.repo], from.repo == to.repo)
  }

  /** The stores after moving the bead at `from` to `to`, or None when the move fails. */
  ghost function Hop(w: World, n: Naming, from: Location, to: Location): Option<World> {
    if from.repo !in w || to.repo !in w || !Movable(w[from.repo], from.id) then None
    else
      var (id, b) := GetBead(w[from.repo], from.id).value;
      var plan := Plan(HopMove(n, from, to), w[from.repo], id, b);
      var r := Attempt(Perform, Stores(w, from, to), plan);
      if r.done < |plan| then None else Some(w[from.repo := r.state.source][to.repo := r.state.dest])
  }

  /** The stores after moving a bead along a list of locations. */
  ghost function Journey(w: World, n: Naming, route: seq<Location>): Option<World>
    requires route != []
  {
    var last := |route| - 1;
    if last == 0 then Some(w)
    else
      match Journey(w, n, route[..last])
      case None => None
      case Some(v) => Hop(v, n, route[last - 1], route[last])
  }

  ghost predicate Stored(w: World, l: Location) {
    l.repo in w && l.id in w[l.repo].beads
  }

  ghost function Bead(w: World, l: Location): Bead
    requires Stored(w, l)
  {
    w[l.repo].beads[l.id]
  }

  ghost predicate CanMove(w: World, l: Location) {
    l.repo in w && Movable(w[l.repo], l.id)
  }

  ghost predicate Sane(w: World) {
    forall r :: r in w ==> Sound(w[r]) && KeepsTombstones(w[r].scrub)
  }

  // ----- Tombstones -----

  lemma StoredMovable(s: State, id: string)
    requires id in s.beads
    ensures Movable(s, id) <==> !Tombstoned(CommentsOf(s, id))
  {
  }

  lemma {:induction false} LiveAmong(cs: seq<Comment>)
    ensures forall c :: c in Live(cs) ==> c in cs
  {
    if cs != [] { LiveAmong(cs[..|cs| - 1]); }
  }

  lemma NoteIsNoTombstone(m: Move, deps: seq<string>, dependents: seq<string>)
    ensures !HasPrefix(EdgesNote(m, deps, dependents), TOMBSTONE)
  {
    assert EDGES_NOTE[0] == 'c' && TOMBSTONE[0] == 'm';
    StartsWith(EDGES_NOTE, " after move from " + m.sourceRepo);
    assert EdgesNote(m, deps, dependents)[0] == 'c';
  }

  lemma StartsWith(a: string, b: string)
    requires a != ""
    ensures (a + b)[0] == a[0]
  {
  }

  lemma CopyIsMovable(d: State, m: Move, s: State, id: string, b: Bead)
    requires HoldsCopy(d, m, s, id, b) && KeepsTombstones(d.scrub) && !Tombstoned(CommentsOf(s, id))
    ensures Movable(d, m.newId)
  {
    var cs := Live(CommentsOf(s, id));
    LiveAmong(CommentsOf(s, id));
    NoteIsNoTombstone(m, Targets(s.edges, id), Sources(s.edges, id));
    forall c | c in Copied(cs, d.scrub) ensures !IsTombstone(c) {
      var i :| 0 <= i < |cs| && c == Comment(cs[i].author, d.scrub(cs[i].text), false);
      assert cs[i] in CommentsOf(s, id) && !IsTombstone(cs[i]);
    }
  }

  lemma TombstoneStarts(m: Move)
    ensures HasPrefix(TombstoneText(m), TOMBSTONE)
  {
    assert TombstoneText(m) == TOMBSTONE + (" " + m.newId + " (" + m.destRepo + ")");
  }

  lemma BuriedIsTombstoned(p: Pair, q: Pair, m: Move, id: string, b: Bead, status: string)
    requires Buried(p, q, m, id, b, status) && KeepsTombstones(p.source.scrub)
    ensures !Movable(q.source, id)
  {
    TombstoneStarts(m);
    var c := Comment(MOVER, p.source.scrub(TombstoneText(m)), false);
    assert CommentsOf(q.source, id)[|CommentsOf(p.source, id)|] == c;
    assert IsTombstone(c);
    StoredMovable(q.source, id);
  }

  // ----- Where a move can stop -----

  /** None of the steps adds a tombstone comment. */
  ghost predicate Harmless(steps: seq<Step>) {
    forall i :: 0 <= i < |steps| && steps[i].write.InsertComment? ==>
      !IsTombstone(Comment(steps[i].write.author, steps[i].write.text, false))
  }

  lemma {:induction false} HarmlessKeep(c: Copy, steps: seq<Step>, scrub: string -> string)
    requires KeepsTombstones(scrub) && Harmless(steps) && !Tombstoned(c.comments)
    ensures !Tombstoned(EvolveAll(c, steps, scrub).comments)
  {
    if steps != [] {
      var n := |steps| - 1;
      HarmlessKeep(c, steps[..n], scrub);
      var before := EvolveAll(c, steps[..n], scrub).comments;
      forall x | x in EvolveAll(c, steps, scrub).comments ensures !IsTombstone(x) {
        if x !in before { assert IsTombstone(x) <==> HasPrefix(steps[n].write.text, TOMBSTONE) && x.author == MOVER; }
      }
    }
  }

  lemma HarmlessConcat(a: seq<Step>, b: seq<Step>)
    requires Harmless(a) && Harmless(b)
    ensures Harmless(a + b)
  {
  }

  lemma {:induction false} CopyingHarmless(m: Move, cs: seq<Comment>)
    requires !Tombstoned(cs)
    ensures Harmless(Copying(m, cs))
  {
    if cs != [] {
      var n := |cs| - 1;
      assert forall c :: c in cs[..n] ==> c in cs;
      CopyingHarmless(m, cs[..n]);
      assert cs[n] in cs && !IsTombstone(cs[n]);
      HarmlessConcat(Copying(m, cs[..n]), Commenting(m.newId, cs[n].text, cs[n].author));
    }
  }

  lemma FillingHarmless(m: Move, s: State, id: string, b: Bead)
    requires !Tombstoned(CommentsOf(s, id))
    ensures Harmless(Filling(m, s, id, b))
  {
    var copying, noting := Copying(m, Live(CommentsOf(s, id))), Noting(m, Targets(s.edges, id), Sources(s.edges, id));
    LiveAmong(CommentsOf(s, id));
    CopyingHarmless(m, Live(CommentsOf(s, id)));
    NoteIsNoTombstone(m, Targets(s.edges, id), Sources(s.edges, id));
    HarmlessConcat(copying, noting);
    HarmlessConcat(Referencing(m, b), copying + noting);
    HarmlessConcat(Closing(m, b), Referencing(m, b) + (copying + noting));
  }

  lemma FilledIsMovable(p: Pair, q: Pair, m: Move, id: string, b: Bead, k: nat)
    requires k <= |Filling(m, p.source, id, b)| && Filled(p, q, m, id, b, k)
    requires KeepsTombstones(p.dest.scrub) && !Tombstoned(CommentsOf(p.source, id))
    ensures Movable(q.dest, m.newId)
  {
    FillingHarmless(m, p.source, id, b);
    HarmlessKeep(Blank(p, m, id, b), Filling(m, p.source, id, b)[..k], p.dest.scrub);
    StoredMovable(q.dest, m.newId);
  }

  /** The destination got a bead of the new id, which it did not have. */
  ghost predicate Made(p: Pair, q: Pair, newId: string) {
    newId !in p.dest.beads && newId in q.dest.beads
  }

  /** What a move leaves after k of its n writes: the copy from the first on, the source's until the last three. */
  ghost predicate Leaves(p: Pair, q: Pair, id: string, newId: string, k: nat, n: nat) {
    && id in q.source.beads && (Movable(q.source, id) <==> k + 2 < n)
    && (Made(p, q, newId) <==> k > 0) && (k > 0 ==> Movable(q.dest, newId))
  }

  /** The two stores stay joined when they are one, and nothing changes in them but the two beads. */
  ghost predicate Contained(p: Pair, q: Pair, id: string, newId: string) {
    Joined(q) && q.same == p.same && Sound(q.source) && Sound(q.dest) && Elsewhere(p, q, id, newId)
  }

  lemma UntouchedMovable(p: Pair, q: Pair, id: string)
    requires Untouched(p, q, id) && !Tombstoned(CommentsOf(p.source, id))
    ensures id in q.source.beads && Movable(q.source, id)
  {
    StoredMovable(q.source, id);
  }

  lemma HalfDoneMade(p: Pair, q: Pair, m: Move, id: string, b: Bead, k: nat)
    requires HalfDone(p, q, m, id, b, k) && k > 0 && m.newId !in p.dest.beads
    requires KeepsTombstones(p.dest.scrub) && !Tombstoned(CommentsOf(p.source, id))
    ensures Made(p, q, m.newId) && Movable(q.dest, m.newId)
  {
    FilledIsMovable(p, q, m, id, b, k - 1);
  }

  lemma HalfDoneLeaves(p: Pair, q: Pair, m: Move, id: string, b: Bead, k: nat, n: nat)
    requires HalfDone(p, q, m, id, b, k) && k + 2 < n && (k > 0 ==> m.newId !in p.dest.beads)
    requires KeepsTombstones(p.dest.scrub) && !Tombstoned(CommentsOf(p.source, id))
    ensures Leaves(p, q, id, m.newId, k, n)
  {
    UntouchedMovable(p, q, id);
    if k > 0 { HalfDoneMade(p, q, m, id, b, k); }
  }

  lemma CopyContained(p: Pair, q: Pair, id: string, newId: string)
    requires Joined(p) && Sound(p.source) && OnlyCopyChanged(p, q, newId)
    ensures Contained(p, q, id, newId)
  {
  }

  lemma HalfDoneContained(p: Pair, q: Pair, m: Move, id: string, b: Bead, k: nat)
    requires Starts(p, id, b) && HalfDone(p, q, m, id, b, k)
    ensures Contained(p, q, id, m.newId)
  {
    if k > 0 { CopyContained(p, q, id, m.newId); }
  }

  lemma StopLeaves(p: Pair, q: Pair, m: Move, id: string, b: Bead, k: nat, n: nat)
    requires Starts(p, id, b) && StoppedAt(p, q, m, id, b, k, n) && k <= n && 4 <= n
    requires KeepsTombstones(p.source.scrub) && KeepsTombstones(p.dest.scrub) && !Tombstoned(CommentsOf(p.source, id))
    ensures Leaves(p, q, id, m.newId, k, n) && Contained(p, q, id, m.newId)
  {
    if k + 2 < n {
      HalfDoneLeaves(p, q, m, id, b, k, n);
      HalfDoneContained(p, q, m, id, b, k);
    } else {
      BuriedIsTombstoned(p, q, m, id, b, if k < n then b.status else "done");
      CopyIsMovable(q.dest, m, p.source, id, b);
    }
  }

  /** The bead may be moved, and the stores' scrubbing leaves tombstones alone. */
  ghost predicate MayMove(p: Pair, id: string, b: Bead) {
    && Starts(p, id, b) && !Tombstoned(CommentsOf(p.source, id))
    && KeepsTombstones(p.source.scrub) && KeepsTombstones(p.dest.scrub)
  }

  /**
   * Wherever a move stops: the source's bead can be moved again exactly when one of the last three writes is not
   * reached, and the copy is there, and can be moved, from the first write on.
   */
  lemma StopsMovable(p: Pair, m: Move, id: string, b: Bead, k: nat) returns (q: Pair)
    requires MayMove(p, id, b) && k <= Attempt(Perform, p, Plan(m, p.source, id, b)).done
    ensures Reaches(p, Plan(m, p.source, id, b), k, q)
    ensures Leaves(p, q, id, m.newId, k, |Plan(m, p.source, id, b)|) && Contained(p, q, id, m.newId)
  {
    q := MoveStops(p, m, id, b, k);
    PlanEnds(m, p.source, id, b);
    StopLeaves(p, q, m, id, b, k, |Plan(m, p.source, id, b)|);
  }

  /** So there is exactly one movable copy unless the move stops behind the first write and before the last three. */
  lemma OneMovableIff(p: Pair, m: Move, id: string, b: Bead, k: nat) returns (q: Pair)
    requires MayMove(p, id, b) && k <= Attempt(Perform, p, Plan(m, p.source, id, b)).done
    ensures Reaches(p, Plan(m, p.source, id, b), k, q)
    ensures Movable(q.source, id) || (Made(p, q, m.newId) && Movable(q.dest, m.newId))
    ensures !(Movable(q.source, id) && Made(p, q, m.newId) && Movable(q.dest, m.newId)) <==>
      k == 0 || k + 2 >= |Plan(m, p.source, id, b)|
  {
    q := StopsMovable(p, m, id, b, k);
  }

  /**
   * Until its last write a move leaves the source's bead as open as it was; it can be moved again exactly while the
   * tombstone comment is missing, and when that is there so is the whole copy.
   */
  lemma InterruptedStaysOpen(p: Pair, m: Move, id: string, b: Bead, k: nat) returns (q: Pair)
    requires MayMove(p, id, b) && k <= Attempt(Perform, p, Plan(m, p.source, id, b)).done
    ensures Reaches(p, Plan(m, p.source, id, b), k, q) && id in q.source.beads
    ensures k < |Plan(m, p.source, id, b)| ==> q.source.beads[id].status == b.status
    ensures Movable(q.source, id) <==> k + 2 < |Plan(m, p.source, id, b)|
    ensures !Movable(q.source, id) ==> HoldsCopy(q.dest, m, p.source, id, b)
  {
    q := MoveStops(p, m, id, b, k);
    PlanEnds(m, p.source, id, b);
    StopLeaves(p, q, m, id, b, k, |Plan(m, p.source, id, b)|);
  }

  // ----- One hop -----

  /** The fields that a move takes over as they are: owner, unless there is none, details, reference, and being done. */
  ghost predicate Keeps(b: Bead, c: Bead) {
    && c.details == b.details && c.externalRef == b.externalRef
    && (b.owner.Some? && b.owner.value != "" ==> c.owner == b.owner)
    && (StateOf(c.status) == Done <==> StateOf(b.status) == Done)
  }

  lemma KeepsTwice(a: Bead, b: Bead, c: Bead)
    requires Keeps(a, b) && Keeps(b, c)
    ensures Keeps(a, c)
  {
  }

  lemma CopyKeeps(d: State, m: Move, s: State, id: string, b: Bead)
    requires HoldsCopy(d, m, s, id, b)
    ensures Keeps(b, d.beads[m.newId])
  {
  }

  /** The bead at `from` has a live comment of the mover's that names `to`. */
  ghost predicate PointsTo(w: World, from: Location, to: Location) {
    from.repo in w && Names(CommentsOf(w[from.repo], from.id), w[from.repo].scrub, to)
  }

  ghost predicate Names(cs: seq<Comment>, scrub: string -> string, to: Location) {
    exists k :: 0 <= k < |cs| && cs[k].author == "rsry-move" && !cs[k].deleted
                && cs[k].text == scrub("moved \U{2192} " + to.id + " (" + to.repo + ")")
  }

  lemma TombstoneNames(cs: seq<Comment>, scrub: string -> string, n: Naming, from: Location, to: Location)
    ensures Names(cs + [Comment(MOVER, scrub(TombstoneText(HopMove(n, from, to))), false)], scrub, to)
  {
    MoveTexts(HopMove(n, from, to), from.id, [], []);
    var all := cs + [Comment(MOVER, scrub(TombstoneText(HopMove(n, from, to))), false)];
    assert all[|cs|].author == "rsry-move";
  }

  ghost predicate SameScrubs(w: World, v: World) {
    forall r :: r in w ==> r in v && v[r].scrub == w[r].scrub
  }

  /** A hop buries the bead where it was, makes a movable copy where there was none, and leaves all else alone. */
  ghost predicate Hopped(w: World, v: World, from: Location, to: Location) {
    && Sane(v) && Stored(w, from) && !Stored(w, to) && from != to
    && Stored(v, from) && !CanMove(v, from)
    && Stored(v, to) && CanMove(v, to)
    && Bead(v, to).derivedFrom == Bead(w, from).derivedFrom + [HopOrigin(from)] && Keeps(Bead(w, from), Bead(v, to))
    && PointsTo(v, from, to) && SameScrubs(w, v)
    && (forall l :: l != from && l != to && Stored(w, l) ==> SameAt(w, v, l) && (CanMove(v, l) <==> CanMove(w, l)))
  }

  lemma HopBuries(w: World, n: Naming, from: Location, to: Location) returns (q: Pair)
    requires Sane(w) && Stored(w, from) && Hop(w, n, from, to).Some?
    ensures !Stored(w, to) && to.repo in w && from != to && CanMove(w, from)
    ensures Hop(w, n, from, to).value == w[from.repo := q.source][to.repo := q.dest]
    ensures Buried(Stores(w, from, to), q, HopMove(n, from, to), from.id, Bead(w, from), "done")
  {
    MoveSucceeds(Stores(w, from, to), HopMove(n, from, to), from.id, Bead(w, from));
    q := Attempt(Perform, Stores(w, from, to), Plan(HopMove(n, from, to), w[from.repo], from.id, Bead(w, from))).state;
  }

  lemma HopEnds(w: World, v: World, n: Naming, from: Location, to: Location, q: Pair)
    requires Sane(w) && Stored(w, from) && CanMove(w, from) && to.repo in w && !Stored(w, to)
    requires v == w[from.repo := q.source][to.repo := q.dest]
    requires Buried(Stores(w, from, to), q, HopMove(n, from, to), from.id, Bead(w, from), "done")
    ensures Stored(v, from) && !CanMove(v, from) && Stored(v, to) && CanMove(v, to)
    ensures Bead(v, to).derivedFrom == Bead(w, from).derivedFrom + [HopOrigin(from)]
    ensures Keeps(Bead(w, from), Bead(v, to))
  {
    var p, m := Stores(w, from, to), HopMove(n, from, to);
    CopyIsMovable(q.dest, m, p.source, from.id, Bead(w, from));
    BuriedIsTombstoned(p, q, m, from.id, Bead(w, from), "done");
    CopyKeeps(q.dest, m, p.source, from.id, Bead(w, from));
  }

  lemma HopPoints(w: World, v: World, n: Naming, from: Location, to: Location, q: Pair)
    requires Stored(w, from) && to.repo in w && v == w[from.repo := q.source][to.repo := q.dest]
    requires Buried(Stores(w, from, to), q, HopMove(n, from, to), from.id, Bead(w, from), "done")
    ensures PointsTo(v, from, to) && SameScrubs(w, v)
  {
    TombstoneNames(CommentsOf(w[from.repo], from.id), w[from.repo].scrub, n, from, to);
  }

  lemma HopSane(w: World, v: World, from: Location, to: Location, q: Pair)
    requires Sane(w) && from.repo in w && to.repo in w && v == w[from.repo := q.source][to.repo := q.dest]
    requires Contained(Stores(w, from, to), q, from.id, to.id)
    ensures Sane(v)
  {
  }

  /** Another bead keeps its fields and its comments. */
  ghost predicate SameAt(w: World, v: World, l: Location) {
    && Stored(w, l) && Stored(v, l) && Bead(v, l) == Bead(w, l)
    && CommentsOf(v[l.repo], l.id) == CommentsOf(w[l.repo], l.id)
  }

  lemma HopElsewhere(w: World, v: World, from: Location, to: Location, q: Pair, l: Location)
    requires from.repo in w && to.repo in w && v == w[from.repo := q.source][to.repo := q.dest]
    requires l != from && l != to && Stored(w, l)
    requires Contained(Stores(w, from, to), q, from.id, to.id)
    ensures SameAt(w, v, l) && (CanMove(v, l) <==> CanMove(w, l))
  {
    StoredMovable(w[l.repo], l.id);
    StoredMovable(v[l.repo], l.id);
  }

  lemma HopHops(w: World, n: Naming, from: Location, to: Location)
    requires Sane(w) && Stored(w, from) && Hop(w, n, from, to).Some?
    ensures Hopped(w, Hop(w, n, from, to).value, from, to)
  {
    var q := HopBuries(w, n, from, to);
    HopEnds(w, w[from.repo := q.source][to.repo := q.dest], n, from, to, q);
    HopPoints(w, w[from.repo := q.source][to.repo := q.dest], n, from, to, q);
    HopsAround(w, w[from.repo := q.source][to.repo := q.dest], from, to, q);
  }

  lemma HopsAround(w: World, v: World, from: Location, to: Location, q: Pair)
    requires Sane(w) && from.repo in w && to.repo in w && v == w[from.repo := q.source][to.repo := q.dest]
    requires Contained(Stores(w, from, to), q, from.id, to.id)
    ensures Sane(v)
    ensures forall l: Location :: l != from && l != to && Stored(w, l) ==>
              SameAt(w, v, l) && (CanMove(v, l) <==> CanMove(w, l))
  {
    HopSane(w, v, from, to, q);
    forall l: Location | l != from && l != to && Stored(w, l)
      ensures SameAt(w, v, l) && (CanMove(v, l) <==> CanMove(w, l))
    {
      HopElsewhere(w, v, from, to, q, l);
    }
  }

  // ----- Chains -----

  ghost function Origins(route: seq<Location>): seq<Provenance> {
    seq(|route|, i requires 0 <= i < |route| => HopOrigin(route[i]))
  }

  /** Every place but the last names the next. */
  ghost predicate Crumbs(v: World, route: seq<Location>) {
    forall i :: 0 <= i < |route| - 1 ==> PointsTo(v, route[i], route[i + 1])
  }

  lemma PointsKept(w: World, v: World, l: Location, to: Location)
    requires PointsTo(w, l, to) && SameAt(w, v, l) && SameScrubs(w, v)
    ensures PointsTo(v, l, to)
  {
  }

  lemma CrumbsNext(u: World, v: World, route: seq<Location>, to: Location)
    requires route != [] && Crumbs(u, route) && PointsTo(v, route[|route| - 1], to) && SameScrubs(u, v)
    requires forall i :: 0 <= i < |route| - 1 ==> SameAt(u, v, route[i])
    ensures Crumbs(v, route + [to])
  {
    forall i | 0 <= i < |route| - 1 ensures PointsTo(v, route[i], route[i + 1]) {
      PointsKept(u, v, route[i], route[i + 1]);
    }
  }

  lemma OthersSame(w: World, u: World, v: World, route: seq<Location>, to: Location)
    requires route != [] && Stored(w, route[0]) && Trail(w, u, route) && Hopped(u, v, route[|route| - 1], to)
    ensures forall i :: 0 <= i < |route| - 1 ==> SameAt(u, v, route[i])
  {
    forall i | 0 <= i < |route| - 1 ensures SameAt(u, v, route[i]) { assert Stored(u, route[i]); }
  }

  ghost predicate Trail(w: World, v: World, route: seq<Location>)
    requires route != [] && Stored(w, route[0])
  {
    var last := |route| - 1;
    && Sane(v) && Crumbs(v, route)
    && (forall i :: 0 <= i <= last ==> Stored(v, route[i]) && (CanMove(v, route[i]) <==> i == last))
    && (forall i, j :: 0 <= i < j <= last ==> route[i] != route[j])
    && Bead(v, route[last]).derivedFrom == Bead(w, route[0]).derivedFrom + Origins(route[..last])
    && Keeps(Bead(w, route[0]), Bead(v, route[last]))
  }

  lemma OriginsNext(route: seq<Location>, before: seq<Provenance>)
    requires route != []
    ensures before + Origins(route[..|route| - 1]) + [HopOrigin(route[|route| - 1])] == before + Origins(route)
  {
    assert Origins(route) == Origins(route[..|route| - 1]) + [HopOrigin(route[|route| - 1])];
  }

  lemma TrailNext(w: World, u: World, v: World, route: seq<Location>, to: Location)
    requires route != [] && Stored(w, route[0]) && Trail(w, u, route) && Hopped(u, v, route[|route| - 1], to)
    ensures Trail(w, v, route + [to])
  {
    var all := route + [to];
    assert all[..|route|] == route;
    OthersSame(w, u, v, route, to);
    CrumbsNext(u, v, route, to);
    OriginsNext(route, Bead(w, route[0]).derivedFrom);
    KeepsTwice(Bead(w, route[0]), Bead(u, route[|route| - 1]), Bead(v, to));
    forall i | 0 <= i < |route| ensures StaysBehind(v, route[i], to) { TrailBehind(w, u, v, route, to, i); }
    assert forall i :: 0 <= i < |route| ==> StaysBehind(v, all[i], to);
  }

  ghost predicate StaysBehind(v: World, l: Location, to: Location) {
    Stored(v, l) && !CanMove(v, l) && l != to
  }

  lemma TrailBehind(w: World, u: World, v: World, route: seq<Location>, to: Location, i: nat)
    requires i < |route| && Stored(w, route[0]) && Trail(w, u, route) && Hopped(u, v, route[|route| - 1], to)
    ensures StaysBehind(v, route[i], to)
  {
    assert Stored(u, route[i]);
  }

  /**
   * After any chain of moves that succeed, every place the bead was at holds a bead that cannot be moved again and
   * whose tombstone names the next place, the place it is at now holds one that can, no place occurs twice, its
   * provenance has grown by one entry per hop, and its owner, details and external reference are what they were.
   */
  lemma {:induction false} OneCopyStaysMovable(w: World, n: Naming, route: seq<Location>)
    requires Sane(w) && route != [] && Stored(w, route[0]) && CanMove(w, route[0]) && Journey(w, n, route).Some?
    ensures Trail(w, Journey(w, n, route).value, route)
  {
    var last := |route| - 1;
    if last == 0 {
      TrailStarts(w, route);
    } else {
      OneCopyStaysMovable(w, n, route[..last]);
      var u := Journey(w, n, route[..last]).value;
      LastOf(route);
      HopHops(u, n, route[last - 1], route[last]);
      TrailNext(w, u, Journey(w, n, route).value, route[..last], route[last]);
    }
  }

  lemma TrailStarts(w: World, route: seq<Location>)
    requires Sane(w) && |route| == 1 && Stored(w, route[0]) && CanMove(w, route[0])
    ensures Trail(w, w, route)
  {
    assert Origins(route[..0]) == [];
  }

  lemma LastOf(route: seq<Location>)
    requires |route| > 1
    ensures var init := route[..|route| - 1];
            init[|init| - 1] == route[|route| - 2] && init + [route[|route| - 1]] == route
  {
  }
}
