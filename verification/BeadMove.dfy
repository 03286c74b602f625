/** Relocating a bead from one store to another: the steps, and the states a move can stop in. */
module BeadMove {
  import opened Text
  import opened BeadStore
  import opened Runs

  const MOVER := "rsry-move"
  const TOMBSTONE := "moved \U{2192}"
  const EDGES_NOTE := "cross-repo dependency edges"

  /** What the caller names; `agentFor` is the default agent of an issue type and `listed` prints a list of ids. */
  datatype Move = Move(
    sourceRepo: string, destRepo: string, newId: string, agentFor: string -> string, listed: seq<string> -> string)

  predicate IsTombstone(c: Comment) {
    c.author == MOVER && HasPrefix(c.text, TOMBSTONE)
  }

  predicate Tombstoned(cs: seq<Comment>) {
    exists c :: c in cs && IsTombstone(c)
  }

  function Targets(edges: seq<Edge>, id: string): seq<string> {
    if edges == [] then [] else (if edges[0].issue == id then [edges[0].target] else []) + Targets(edges[1..], id)
  }

  function Sources(edges: seq<Edge>, id: string): seq<string> {
    if edges == [] then [] else (if edges[0].target == id then [edges[0].issue] else []) + Sources(edges[1..], id)
  }

  function OwnerFor(m: Move, b: Bead): string {
    if b.owner.Some? && b.owner.value != "" then b.owner.value else m.agentFor(b.details.issueType)
  }

  function Origin(m: Move, id: string): Provenance {
    Manual("moved from " + id + " (" + m.sourceRepo + ")")
  }

  function Relocated(m: Move, id: string, b: Bead): NewBead {
    NewBead(m.newId, b.title, b.description, b.details, b.derivedFrom + [Origin(m, id)], OwnerFor(m, b))
  }

  function EdgesNote(m: Move, deps: seq<string>, dependents: seq<string>): string {
    EDGES_NOTE + " after move from " + m.sourceRepo + ": depends_on=" + m.listed(deps) + ", dependents="
    + m.listed(dependents) + " \U{2014} re-link manually (cross-repo dep rewrite is follow-up work)"
  }

  function TombstoneText(m: Move): string {
    TOMBSTONE + " " + m.newId + " (" + m.destRepo + ")"
  }

  // ----- The writes of a move, in order -----

  datatype Step = OnSource(write: Write) | OnDest(write: Write)

  /** Adding a comment to the copy. */
  function Commenting(id: string, text: string, author: string): seq<Step> {
    [OnDest(InsertComment(id, text, author)), OnDest(Touch(id))]
  }

  function Closing(m: Move, b: Bead): seq<Step> {
    if StateOf(b.status) == Done then [OnDest(Close(m.newId))] else []
  }

  function Referencing(m: Move, b: Bead): seq<Step> {
    if b.externalRef.Some? then [OnDest(SetExternalRef(m.newId, b.externalRef.value))] else []
  }

  function CopyingOne(m: Move): Comment -> seq<Step> {
    (c: Comment) => Commenting(m.newId, c.text, c.author)
  }

  function Copying(m: Move, cs: seq<Comment>): seq<Step> {
    Flat(CopyingOne(m), cs)
  }

  function Noting(m: Move, deps: seq<string>, dependents: seq<string>): seq<Step> {
    if deps == [] && dependents == [] then [] else Commenting(m.newId, EdgesNote(m, deps, dependents), MOVER)
  }

  function Burying(m: Move, id: string): seq<Step> {
    [OnSource(InsertComment(id, TombstoneText(m), MOVER)), OnSource(Touch(id)), OnSource(Close(id))]
  }

  /** The writes that fill in the copy once it is created. */
  function Filling(m: Move, s: State, id: string, b: Bead): seq<Step> {
    Closing(m, b) + (Referencing(m, b) + (Copying(m, Live(CommentsOf(s, id)))
    + Noting(m, Targets(s.edges, id), Sources(s.edges, id))))
  }

  /** Every write of moving bead b, stored as `id` in s. */
  function Plan(m: Move, s: State, id: string, b: Bead): seq<Step> {
    [OnDest(Create(Relocated(m, id, b)))] + (Filling(m, s, id, b) + Burying(m, id))
  }

  // ----- Running writes until one fails -----

  /** The two stores, which are one when `same`. */
  datatype Pair = Pair(source: State, dest: State, same: bool)

  function Perform(p: Pair, step: Step): Option<Pair> {
    match Apply(if step.OnSource? then p.source else p.dest, step.write)
    case None => None
    case Some(t) =>
      Some(Pair(if step.OnSource? || p.same then t else p.source, if step.OnDest? || p.same then t else p.dest, p.same))
  }

  ghost predicate Joined(p: Pair) {
    p.same ==> p.source == p.dest
  }

  lemma {:induction false} AttemptKeepsEdges(p: Pair, steps: seq<Step>)
    requires Joined(p) && forall step :: step in steps ==> !step.write.RestoreDependency?
    ensures var q := Attempt(Perform, p, steps).state;
            Joined(q) && q.same == p.same && q.source.edges == p.source.edges && q.dest.edges == p.dest.edges
  {
    if steps != [] {
      AttemptKeepsEdges(p, steps[..|steps| - 1]);
      var q := Attempt(Perform, p, steps[..|steps| - 1]).state;
      if Perform(q, steps[|steps| - 1]).Some? { PerformKeepsEdges(q, steps[|steps| - 1]); }
    }
  }

  lemma PerformKeepsEdges(p: Pair, step: Step)
    requires Joined(p) && !step.write.RestoreDependency? && Perform(p, step).Some?
    ensures var q := Perform(p, step).value;
            Joined(q) && q.same == p.same && q.source.edges == p.source.edges && q.dest.edges == p.dest.edges
  {
  }

  // ----- The move -----

  datatype MoveOutcome = MoveOutcome(
    newId: string, status: string, commentsCopied: nat,
    danglingDependencies: seq<string>, orphanedDependents: seq<string>)

  /** A bead that is there and not yet moved can be moved. */
  predicate Movable(s: State, beadId: string) {
    GetBead(s, beadId).Some? && !Tombstoned(CommentsOf(s, GetBead(s, beadId).value.0))
  }

  /** The two stores as they are now. */
  ghost function Both(source: BeadStore, dest: BeadStore): Pair
    reads source, dest
  {
    Pair(source.state, dest.state, source == dest)
  }

  /** The steps ran from p up to the first that fails, ending in q; ok says whether all of them went through. */
  ghost predicate Performed(p: Pair, steps: seq<Step>, q: Pair, ok: bool) {
    q == Attempt(Perform, p, steps).state && (ok <==> Attempt(Perform, p, steps).done == |steps|)
  }

  lemma CommentPerforms(p: Pair, id: string, text: string, author: string)
    requires Joined(p)
    ensures var Run(t, k) := Attempt(Apply, p.dest, AddComment(id, text, author));
            Attempt(Perform, p, Commenting(id, text, author)) == Run(Pair(if p.same then t else p.source, t, p.same), k)
  {
    AttemptTwo(Apply, p.dest, InsertComment(id, text, author), Touch(id));
    AttemptTwo(Perform, p, OnDest(InsertComment(id, text, author)), OnDest(Touch(id)));
  }

  method CommentOnCopy(source: BeadStore, dest: BeadStore, id: string, text: string, author: string) returns (ok: bool)
    modifies dest
    ensures Performed(old(Both(source, dest)), Commenting(id, text, author), Both(source, dest), ok)
  {
    CommentPerforms(Both(source, dest), id, text, author);
    ok := dest.CommentOn(id, text, author);
  }

  /** Copies comments onto the new bead, oldest first, up to the first write that fails. */
  method CopyComments(m: Move, source: BeadStore, dest: BeadStore, cs: seq<Comment>) returns (ok: bool)
    modifies dest
    ensures Performed(old(Both(source, dest)), Copying(m, cs), Both(source, dest), ok)
  {
    ghost var p := Both(source, dest);
    assert cs[..0] == [];
    for i := 0 to |cs|
      invariant Attempt(Perform, p, Copying(m, cs[..i])) == Run(Both(source, dest), |Copying(m, cs[..i])|)
    {
      AttemptEach(Perform, p, CopyingOne(m), cs, i, Both(source, dest));
      ok := CommentOnCopy(source, dest, m.newId, cs[i].text, cs[i].author);
      if !ok { return; }
    }
    assert cs[..|cs|] == cs;
    ok := true;
  }

  lemma Onward(p: Pair, a: seq<Step>, rest: seq<Step>)
    requires Joined(p) && forall step :: step in a ==> !step.write.RestoreDependency?
    ensures var Run(q, k) := Attempt(Perform, p, a);
            var Run(end, n) := Attempt(Perform, p, a + rest);
            && q.source.edges == p.source.edges
            && (k < |a| ==> end == q && n < |a + rest|)
            && (k == |a| ==> end == Attempt(Perform, q, rest).state)
            && (k == |a| ==> (n == |a + rest| <==> Attempt(Perform, q, rest).done == |rest|))
  {
    Advance(Perform, p, a, rest);
    AttemptKeepsEdges(p, a);
  }

  method MaybeClose(m: Move, source: BeadStore, dest: BeadStore, b: Bead) returns (ok: bool)
    modifies dest
    ensures Performed(old(Both(source, dest)), Closing(m, b), Both(source, dest), ok)
  {
    ok := true;
    if StateOf(b.status) == Done {
      AttemptOne(Perform, Both(source, dest), OnDest(Close(m.newId)));
      ok := dest.CloseBead(m.newId);
    }
  }

  method MaybeReference(m: Move, source: BeadStore, dest: BeadStore, b: Bead) returns (ok: bool)
    modifies dest
    ensures Performed(old(Both(source, dest)), Referencing(m, b), Both(source, dest), ok)
  {
    ok := true;
    if b.externalRef.Some? {
      AttemptOne(Perform, Both(source, dest), OnDest(SetExternalRef(m.newId, b.externalRef.value)));
      ok := dest.SetReference(m.newId, b.externalRef.value);
    }
  }

  method MaybeNote(m: Move, source: BeadStore, dest: BeadStore, deps: seq<string>, dependents: seq<string>)
    returns (ok: bool)
    modifies dest
    ensures Performed(old(Both(source, dest)), Noting(m, deps, dependents), Both(source, dest), ok)
  {
    ok := true;
    if deps != [] || dependents != [] {
      var note := EdgesNote(m, deps, dependents);
      ok := CommentOnCopy(source, dest, m.newId, note, MOVER);
    }
  }

  lemma TombstonePerforms(p: Pair, id: string, text: string, author: string)
    requires Joined(p)
    ensures var Run(t, k) := Attempt(Apply, p.source, AddComment(id, text, author));
            Attempt(Perform, p, [OnSource(InsertComment(id, text, author)), OnSource(Touch(id))])
            == Run(Pair(t, if p.same then t else p.dest, p.same), k)
  {
    AttemptTwo(Apply, p.source, InsertComment(id, text, author), Touch(id));
    AttemptTwo(Perform, p, OnSource(InsertComment(id, text, author)), OnSource(Touch(id)));
  }

  method Bury(m: Move, source: BeadStore, dest: BeadStore, id: string) returns (ok: bool)
    modifies source
    ensures Performed(old(Both(source, dest)), Burying(m, id), Both(source, dest), ok)
  {
    ghost var comment := [Burying(m, id)[0], Burying(m, id)[1]];
    assert Burying(m, id) == comment + [OnSource(Close(id))];
    Advance(Perform, Both(source, dest), comment, [OnSource(Close(id))]);
    TombstonePerforms(Both(source, dest), id, TombstoneText(m), MOVER);
    ok := source.CommentOn(id, TombstoneText(m), MOVER);
    if !ok { return; }
    AttemptOne(Perform, Both(source, dest), OnSource(Close(id)));
    ok := source.CloseBead(id);
  }

  lemma {:induction false} CopyingComments(m: Move, cs: seq<Comment>)
    ensures forall step :: step in Copying(m, cs) ==> !step.write.RestoreDependency?
  {
    if cs != [] { CopyingComments(m, cs[..|cs| - 1]); }
  }

  /** Fills in the copy: its status, its reference, its comments, and a note of its edges. */
  method Fill(m: Move, source: BeadStore, dest: BeadStore, id: string, b: Bead, cs: seq<Comment>)
    returns (ok: bool, deps: seq<string>, dependents: seq<string>)
    requires cs == Live(CommentsOf(source.state, id))
    modifies dest
    ensures Performed(old(Both(source, dest)), Filling(m, old(source.state), id, b), Both(source, dest), ok)
    ensures ok ==> deps == Targets(old(source.state.edges), id) && dependents == Sources(old(source.state.edges), id)
  {
    ghost var edges := source.state.edges;
    ghost var note := Noting(m, Targets(edges, id), Sources(edges, id));
    deps, dependents := [], [];
    Onward(Both(source, dest), Closing(m, b), Referencing(m, b) + (Copying(m, cs) + note));
    ok := MaybeClose(m, source, dest, b);
    if !ok { return; }
    Onward(Both(source, dest), Referencing(m, b), Copying(m, cs) + note);
    ok := MaybeReference(m, source, dest, b);
    if !ok { return; }
    CopyingComments(m, cs);
    Onward(Both(source, dest), Copying(m, cs), note);
    ok := CopyComments(m, source, dest, cs);
    if !ok { return; }
    deps, dependents := Targets(source.state.edges, id), Sources(source.state.edges, id);
    ok := MaybeNote(m, source, dest, deps, dependents);
  }

  /** Makes the copy, fills it in, and buries the source's bead. */
  method Relocate(m: Move, source: BeadStore, dest: BeadStore, id: string, b: Bead, cs: seq<Comment>)
    returns (ok: bool, deps: seq<string>, dependents: seq<string>)
    requires cs == Live(CommentsOf(source.state, id))
    modifies source, dest
    ensures Performed(old(Both(source, dest)), Plan(m, old(source.state), id, b), Both(source, dest), ok)
    ensures ok ==> deps == Targets(old(source.state.edges), id) && dependents == Sources(old(source.state.edges), id)
  {
    ghost var p, create := Both(source, dest), [OnDest(Create(Relocated(m, id, b)))];
    ghost var fill := Filling(m, source.state, id, b);
    deps, dependents := [], [];
    AttemptOne(Perform, p, create[0]);
    ok := dest.CreateBeadFull(Relocated(m, id, b));
    ghost var made := Both(source, dest);
    assert Performed(p, create, made, ok);
    if !ok {
      PerformedStops(p, create, fill + Burying(m, id), made);
      return;
    }
    CreatePerforms(p, made, m, id, b, ok);
    ok, deps, dependents := Fill(m, source, dest, id, b, cs);
    ghost var filled := Both(source, dest);
    if !ok {
      PerformedStops(made, fill, Burying(m, id), filled);
      PerformedThen(p, create, made, fill + Burying(m, id), filled, false);
      return;
    }
    ok := Bury(m, source, dest, id);
    PerformedThen(made, fill, filled, Burying(m, id), Both(source, dest), ok);
    PerformedThen(p, create, made, fill + Burying(m, id), Both(source, dest), ok);
  }

  lemma CreatePerforms(p: Pair, q: Pair, m: Move, id: string, b: Bead, ok: bool)
    requires Joined(p) && Performed(p, [OnDest(Create(Relocated(m, id, b)))], q, ok)
    ensures AsBefore(p, q, m, id, b)
  {
    AttemptOne(Perform, p, OnDest(Create(Relocated(m, id, b))));
  }

  lemma PerformedStops(p: Pair, a: seq<Step>, rest: seq<Step>, q: Pair)
    requires Performed(p, a, q, false)
    ensures Performed(p, a + rest, q, false)
  {
    Advance(Perform, p, a, rest);
  }

  lemma PerformedThen(p: Pair, a: seq<Step>, q: Pair, rest: seq<Step>, r: Pair, ok: bool)
    requires Performed(p, a, q, true) && Performed(q, rest, r, ok)
    ensures Performed(p, a + rest, r, ok)
  {
    Advance(Perform, p, a, rest);
  }

  ghost predicate AsBefore(p: Pair, q: Pair, m: Move, id: string, b: Bead) {
    && q.source.edges == p.source.edges && CommentsOf(q.source, id) == CommentsOf(p.source, id)
    && Filling(m, q.source, id, b) == Filling(m, p.source, id, b)
  }

  /**
   * Moves a bead. It is refused, changing nothing, when the bead is missing or already moved; otherwise the writes
   * happen in order up to the first that fails, and the move succeeds exactly when all of them go through.
   */
  method MoveBead(m: Move, source: BeadStore, dest: BeadStore, beadId: string) returns (r: Option<MoveOutcome>)
    modifies source, dest
    ensures !old(Movable(source.state, beadId)) ==>
      r.None? && source.state == old(source.state) && dest.state == old(dest.state)
    ensures old(Movable(source.state, beadId)) ==>
      var (id, b) := GetBead(old(source.state), beadId).value;
      var plan := Plan(m, old(source.state), id, b);
      var Run(q, k) := Attempt(Perform, old(Both(source, dest)), plan);
      && Both(source, dest) == q
      && r == if k < |plan| then None
              else Some(MoveOutcome(m.newId, b.status, |Live(CommentsOf(old(source.state), id))|,
                     Targets(old(source.state).edges, id), Sources(old(source.state).edges, id)))
  {
    var found := GetBead(source.state, beadId);
    if found.None? { return None; }
    var (id, b) := found.value;
    var comments := CommentsOf(source.state, id);
    if Tombstoned(comments) { return None; }
    var live := Live(comments);
    var ok, deps, dependents := Relocate(m, source, dest, id, b, live);
    r := if ok then Some(MoveOutcome(m.newId, b.status, |live|, deps, dependents)) else None;
  }
}
