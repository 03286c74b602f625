/** What a move leaves behind wherever it stops, and what a chain of moves leaves behind. */
module MoveLaws {
  import opened Text
  import opened BeadStore
  import opened Runs
  import opened BeadMove

  /** Comments belong to beads of the store. */
  ghost predicate Sound(s: State) {
    s.comments.Keys <= s.beads.Keys
  }

  // ----- What the writes of a move do to one bead -----

  /** A bead and its comments, leaving out when it was last updated. */
  datatype Copy = Copy(bead: Bead, comments: seq<Comment>)

  ghost function CopyAt(s: State, id: string): Copy
    requires id in s.beads
  {
    Copy(s.beads[id].(updated := 0), CommentsOf(s, id))
  }

  predicate FieldWrite(w: Write) {
    w.Close? || w.SetExternalRef? || w.InsertComment? || w.Touch?
  }

  ghost function Evolve(c: Copy, w: Write, scrub: string -> string): Copy {
    match w
    case Close(_) => c.(bead := c.bead.(status := "done"))
    case SetExternalRef(_, reference) => c.(bead := c.bead.(externalRef := Some(reference)))
    case InsertComment(_, text, author) => c.(comments := c.comments + [Comment(author, scrub(text), false)])
    case _ => c
  }

  /** Everything but the bead x stays as it was. */
  ghost predicate OnlyAt(s: State, t: State, x: string) {
    && t.edges == s.edges && t.scrub == s.scrub && t.like == s.like
    && t.beads.Keys == s.beads.Keys + {x}
    && (forall y :: y in s.beads && y != x ==> t.beads[y] == s.beads[y])
    && (forall y :: y != x ==> CommentsOf(t, y) == CommentsOf(s, y))
  }

  lemma FieldWriteEvolves(s: State, w: Write)
    requires FieldWrite(w) && w.id in s.beads && Apply(s, w).Some? && Sound(s)
    ensures var t := Apply(s, w).value;
            Sound(t) && OnlyAt(s, t, w.id) && CopyAt(t, w.id) == Evolve(CopyAt(s, w.id), w, s.scrub)
  {
  }

  lemma CreateMakes(s: State, b: NewBead)
    requires Apply(s, Create(b)).Some? && Sound(s)
    ensures var t := Apply(s, Create(b)).value;
            && b.id !in s.beads && Sound(t) && OnlyAt(s, t, b.id)
            && CopyAt(t, b.id) == Copy(Created(s, b).(updated := 0), [])
  {
  }

  // ----- Filling in the copy -----

  ghost predicate FillStep(step: Step, id: string) {
    step.OnDest? && FieldWrite(step.write) && step.write.id == id
  }

  ghost predicate Fills(steps: seq<Step>, x: string) {
    forall i :: 0 <= i < |steps| ==> FillStep(steps[i], x)
  }

  ghost function EvolveAll(c: Copy, steps: seq<Step>, scrub: string -> string): Copy {
    if steps == [] then c
    else Evolve(EvolveAll(c, steps[..|steps| - 1], scrub), steps[|steps| - 1].write, scrub)
  }

  lemma {:induction false} EvolveConcat(c: Copy, a: seq<Step>, b: seq<Step>, scrub: string -> string)
    ensures EvolveAll(c, a + b, scrub) == EvolveAll(EvolveAll(c, a, scrub), b, scrub)
    decreases |b|
  {
    if b == [] {
      assert a + b == a;
    } else {
      assert (a + b)[..|a + b| - 1] == a + b[..|b| - 1];
      EvolveConcat(c, a, b[..|b| - 1], scrub);
    }
  }

  ghost predicate OnlyCopyChanged(p: Pair, q: Pair, x: string) {
    && Joined(q) && q.same == p.same && OnlyAt(p.dest, q.dest, x) && Sound(q.dest)
    && (q.same || q.source == p.source)
  }

  lemma FillOne(p: Pair, q: Pair, x: string, step: Step)
    requires Joined(p) && OnlyCopyChanged(p, q, x) && x in q.dest.beads
    requires FillStep(step, x) && Perform(q, step).Some?
    ensures var r := Perform(q, step).value;
            && OnlyCopyChanged(p, r, x) && x in r.dest.beads
            && CopyAt(r.dest, x) == Evolve(CopyAt(q.dest, x), step.write, p.dest.scrub)
  {
    FieldWriteEvolves(q.dest, step.write);
  }

  /** A run of filling steps from p has changed the bead x as the steps done so far say, and nothing else. */
  ghost predicate Tracks(p: Pair, r: Run<Pair>, steps: seq<Step>, x: string)
    requires x in p.dest.beads && r.done <= |steps|
  {
    && OnlyCopyChanged(p, r.state, x) && x in r.state.dest.beads
    && CopyAt(r.state.dest, x) == EvolveAll(CopyAt(p.dest, x), steps[..r.done], p.dest.scrub)
  }

  lemma TrackNext(p: Pair, r: Run<Pair>, steps: seq<Step>, step: Step, x: string)
    requires Joined(p) && x in p.dest.beads && FillStep(step, x) && r.done <= |steps| && Tracks(p, r, steps, x)
    ensures Tracks(p, Extend(Perform, r, |steps|, step), steps + [step], x)
  {
    var all := steps + [step];
    assert all[..r.done] == steps[..r.done];
    if r.done == |steps| && Perform(r.state, step).Some? {
      FillOne(p, r.state, x, step);
      assert all[..|all|] == all && all[..|all| - 1] == steps && steps[..|steps|] == steps;
    }
  }

  lemma {:induction false} FillTracks(p: Pair, steps: seq<Step>, x: string)
    requires Joined(p) && Sound(p.dest) && x in p.dest.beads && Fills(steps, x)
    ensures Tracks(p, Attempt(Perform, p, steps), steps, x)
  {
    if steps != [] {
      var n := |steps| - 1;
      FillTracks(p, steps[..n], x);
      TrackNext(p, Attempt(Perform, p, steps[..n]), steps[..n], steps[n], x);
      assert steps[..n] + [steps[n]] == steps;
    }
  }

  // ----- What a filled copy holds -----

  ghost function Noted(m: Move, s: State, id: string, scrub: string -> string): seq<Comment> {
    var deps, dependents := Targets(s.edges, id), Sources(s.edges, id);
    if deps == [] && dependents == [] then [] else [Comment(MOVER, scrub(EdgesNote(m, deps, dependents)), false)]
  }

  /** The copy's owner: b's own, unless that is missing or empty; then the agent for its type, if that has a name. */
  ghost function CopyOwner(m: Move, b: Bead): Option<string> {
    if b.owner.Some? && |b.owner.value| > 0 then b.owner
    else if |m.agentFor(b.details.issueType)| > 0 then Some(m.agentFor(b.details.issueType))
    else None
  }

  /** The copy of bead b: open unless b is done, with b's fields and its source added to its provenance. */
  ghost function CopyOf(m: Move, id: string, b: Bead, scrub: string -> string, created: int): Bead {
    Bead(scrub(b.title), scrub(b.description), b.details, b.derivedFrom + [Origin(m, id)],
         if StateOf(b.status) == Done then "done" else "open",
         CopyOwner(m, b), b.externalRef, created, 0)
  }

  /**
   * d holds bead b of store s under the new id: every field, and all live comments in order, then a note if b had
   * dependency edges. Title, description and comments are as the store scrubs them.
   */
  ghost predicate HoldsCopy(d: State, m: Move, s: State, id: string, b: Bead) {
    && m.newId in d.beads
    && CopyAt(d, m.newId) == Copy(CopyOf(m, id, b, d.scrub, d.beads[m.newId].created),
                                  Copied(Live(CommentsOf(s, id)), d.scrub) + Noted(m, s, id, d.scrub))
  }

  // ----- The texts of a move -----

  /** The provenance entry, the tombstone and the note of the edges, word for word. */
  lemma MoveTexts(m: Move, id: string, deps: seq<string>, dependents: seq<string>)
    ensures Origin(m, id) == Manual("moved from " + id + " (" + m.sourceRepo + ")")
    ensures TombstoneText(m) == "moved \U{2192} " + m.newId + " (" + m.destRepo + ")"
    ensures EdgesNote(m, deps, dependents)
            == "cross-repo dependency edges after move from " + m.sourceRepo + ": depends_on=" + m.listed(deps)
               + ", dependents=" + m.listed(dependents)
               + " \U{2014} re-link manually (cross-repo dep rewrite is follow-up work)"
  {
    assert "moved \U{2192}" + " " == "moved \U{2192} ";
    assert "cross-repo dependency edges" + " after move from " == "cross-repo dependency edges after move from ";
  }

  /** A tombstone is a comment of the mover's that begins with those words. */
  lemma TombstoneIff(c: Comment)
    ensures IsTombstone(c) <==> c.author == "rsry-move" && "moved \U{2192}" <= c.text
  {
  }

  /** Edges are listed by the end that is another bead, in order: one by one, */
  lemma EdgeEnd(id: string, e: Edge)
    ensures Targets([e], id) == if e.issue == id then [e.target] else []
    ensures Sources([e], id) == if e.target == id then [e.issue] else []
  {
    assert [e][1..] == [];
  }

  /** and so all of them. */
  lemma {:induction false} TargetsConcat(a: seq<Edge>, b: seq<Edge>, id: string)
    ensures Targets(a + b, id) == Targets(a, id) + Targets(b, id)
  {
    if a == [] {
      assert a + b == b;
    } else {
      assert (a + b)[1..] == a[1..] + b;
      TargetsConcat(a[1..], b, id);
    }
  }

  lemma {:induction false} SourcesConcat(a: seq<Edge>, b: seq<Edge>, id: string)
    ensures Sources(a + b, id) == Sources(a, id) + Sources(b, id)
  {
    if a == [] {
      assert a + b == b;
    } else {
      assert (a + b)[1..] == a[1..] + b;
      SourcesConcat(a[1..], b, id);
    }
  }

  lemma {:induction false} EvolveCopying(c: Copy, m: Move, cs: seq<Comment>, scrub: string -> string)
    ensures EvolveAll(c, Copying(m, cs), scrub) == c.(comments := c.comments + Copied(cs, scrub))
  {
    if cs == [] {
      assert c.comments + [] == c.comments;
    } else {
      var n := |cs| - 1;
      EvolveCopying(c, m, cs[..n], scrub);
      EvolveConcat(c, Copying(m, cs[..n]), Commenting(m.newId, cs[n].text, cs[n].author), scrub);
      EvolveCommenting(c.(comments := c.comments + Copied(cs[..n], scrub)), m.newId, cs[n].text, cs[n].author, scrub);
      assert Copied(cs, scrub) == Copied(cs[..n], scrub) + [Comment(cs[n].author, scrub(cs[n].text), false)];
      assert c.comments + Copied(cs, scrub)
          == (c.comments + Copied(cs[..n], scrub)) + [Comment(cs[n].author, scrub(cs[n].text), false)];
    }
  }

  lemma EvolveCommenting(c: Copy, id: string, text: string, author: string, scrub: string -> string)
    ensures EvolveAll(c, Commenting(id, text, author), scrub)
            == c.(comments := c.comments + [Comment(author, scrub(text), false)])
  {
    var insert, touch := OnDest(InsertComment(id, text, author)), OnDest(Touch(id));
    EvolveAtMostOne(c, [insert], scrub);
    assert Commenting(id, text, author) == [insert] + [touch];
    EvolveConcat(c, [insert], [touch], scrub);
    EvolveAtMostOne(Evolve(c, insert.write, scrub), [touch], scrub);
  }

  lemma EvolveAtMostOne(c: Copy, steps: seq<Step>, scrub: string -> string)
    requires |steps| <= 1
    ensures EvolveAll(c, steps, scrub) == if steps == [] then c else Evolve(c, steps[0].write, scrub)
  {
    if steps != [] { assert EvolveAll(c, steps[..0], scrub) == c; }
  }

  ghost function ClosedIf(c: Copy, b: Bead): Copy {
    if StateOf(b.status) == Done then c.(bead := c.bead.(status := "done")) else c
  }

  ghost function ReferencedIf(c: Copy, b: Bead): Copy {
    if b.externalRef.Some? then c.(bead := c.bead.(externalRef := b.externalRef)) else c
  }

  lemma EvolveClosing(c: Copy, m: Move, b: Bead, scrub: string -> string)
    ensures EvolveAll(c, Closing(m, b), scrub) == ClosedIf(c, b)
  {
    EvolveAtMostOne(c, Closing(m, b), scrub);
  }

  lemma EvolveReferencing(c: Copy, m: Move, b: Bead, scrub: string -> string)
    ensures EvolveAll(c, Referencing(m, b), scrub) == ReferencedIf(c, b)
  {
    EvolveAtMostOne(c, Referencing(m, b), scrub);
  }

  lemma EvolveNoting(c: Copy, m: Move, s: State, id: string, scrub: string -> string)
    ensures EvolveAll(c, Noting(m, Targets(s.edges, id), Sources(s.edges, id)), scrub)
            == c.(comments := c.comments + Noted(m, s, id, scrub))
  {
    var deps, dependents := Targets(s.edges, id), Sources(s.edges, id);
    if deps == [] && dependents == [] {
      assert c.comments + [] == c.comments;
    } else {
      EvolveCommenting(c, m.newId, EdgesNote(m, deps, dependents), MOVER, scrub);
    }
  }

  lemma EvolveFilling(c: Copy, m: Move, s: State, id: string, b: Bead, scrub: string -> string)
    ensures var d := ReferencedIf(ClosedIf(c, b), b);
            EvolveAll(c, Filling(m, s, id, b), scrub)
            == d.(comments := d.comments + Copied(Live(CommentsOf(s, id)), scrub) + Noted(m, s, id, scrub))
  {
    var copying, noting := Copying(m, Live(CommentsOf(s, id))), Noting(m, Targets(s.edges, id), Sources(s.edges, id));
    EvolveConcat(c, Closing(m, b), Referencing(m, b) + (copying + noting), scrub);
    EvolveClosing(c, m, b, scrub);
    EvolveConcat(ClosedIf(c, b), Referencing(m, b), copying + noting, scrub);
    EvolveReferencing(ClosedIf(c, b), m, b, scrub);
    var d := ReferencedIf(ClosedIf(c, b), b);
    EvolveConcat(d, copying, noting, scrub);
    EvolveCopying(d, m, Live(CommentsOf(s, id)), scrub);
    EvolveNoting(d.(comments := d.comments + Copied(Live(CommentsOf(s, id)), scrub)), m, s, id, scrub);
  }

  lemma FillsConcat(a: seq<Step>, b: seq<Step>, x: string)
    requires Fills(a, x) && Fills(b, x)
    ensures Fills(a + b, x)
  {
  }

  lemma CommentingFills(id: string, text: string, author: string)
    ensures Fills(Commenting(id, text, author), id)
  {
  }

  lemma {:induction false} CopyingFills(m: Move, cs: seq<Comment>)
    ensures Fills(Copying(m, cs), m.newId)
  {
    if cs != [] {
      var n := |cs| - 1;
      CopyingFills(m, cs[..n]);
      CommentingFills(m.newId, cs[n].text, cs[n].author);
      FillsConcat(Copying(m, cs[..n]), Commenting(m.newId, cs[n].text, cs[n].author), m.newId);
    }
  }

  lemma PiecesFill(m: Move, b: Bead, cs: seq<Comment>, deps: seq<string>, dependents: seq<string>)
    ensures Fills(Closing(m, b), m.newId) && Fills(Referencing(m, b), m.newId)
    ensures Fills(Copying(m, cs), m.newId) && Fills(Noting(m, deps, dependents), m.newId)
  {
    CopyingFills(m, cs);
    CommentingFills(m.newId, EdgesNote(m, deps, dependents), MOVER);
  }

  lemma FillsNested(a: seq<Step>, b: seq<Step>, c: seq<Step>, d: seq<Step>, x: string)
    requires Fills(a, x) && Fills(b, x) && Fills(c, x) && Fills(d, x)
    ensures Fills(a + (b + (c + d)), x)
  {
    FillsConcat(c, d, x);
    FillsConcat(b, c + d, x);
    FillsConcat(a, b + (c + d), x);
  }

  lemma FillingFills(m: Move, s: State, id: string, b: Bead)
    ensures Fills(Filling(m, s, id, b), m.newId)
  {
    var cs, deps, dependents := Live(CommentsOf(s, id)), Targets(s.edges, id), Sources(s.edges, id);
    PiecesFill(m, b, cs, deps, dependents);
    FillsNested(Closing(m, b), Referencing(m, b), Copying(m, cs), Noting(m, deps, dependents), m.newId);
  }

  // ----- Where a move can stop -----

  /** The source still holds the bead and its comments as they were. */
  ghost predicate Untouched(p: Pair, q: Pair, id: string) {
    && id in p.source.beads && id in q.source.beads
    && q.source.beads[id] == p.source.beads[id] && CommentsOf(q.source, id) == CommentsOf(p.source, id)
  }

  /** The move may begin: the bead is b, stored as `id`. */
  ghost predicate Starts(p: Pair, id: string, b: Bead) {
    Joined(p) && Sound(p.source) && Sound(p.dest) && id in p.source.beads && p.source.beads[id] == b
  }

  lemma Made(p: Pair, m: Move, id: string, b: Bead) returns (made: Pair)
    requires Starts(p, id, b) && Attempt(Perform, p, [OnDest(Create(Relocated(m, id, b)))]).done == 1
    ensures Attempt(Perform, p, [OnDest(Create(Relocated(m, id, b)))]).state == made
    ensures OnlyCopyChanged(p, made, m.newId) && m.newId in made.dest.beads && m.newId !in p.dest.beads
    ensures CopyAt(made.dest, m.newId) == Blank(p, m, id, b)
  {
    AttemptOne(Perform, p, OnDest(Create(Relocated(m, id, b))));
    made := Perform(p, OnDest(Create(Relocated(m, id, b)))).value;
    CreateMakes(p.dest, Relocated(m, id, b));
  }

  lemma ChangedTwice(p: Pair, q: Pair, r: Pair, x: string)
    requires OnlyCopyChanged(p, q, x) && OnlyCopyChanged(q, r, x)
    ensures OnlyCopyChanged(p, r, x)
  {
  }

  lemma CopyLeavesSource(p: Pair, q: Pair, id: string, b: Bead, x: string)
    requires Starts(p, id, b) && OnlyCopyChanged(p, q, x) && (p.same ==> id != x)
    ensures Untouched(p, q, id)
  {
  }

  lemma PlanPrefix(m: Move, s: State, id: string, b: Bead, k: nat)
    requires k <= |Filling(m, s, id, b)|
    ensures Plan(m, s, id, b)[..1 + k] == [OnDest(Create(Relocated(m, id, b)))] + Filling(m, s, id, b)[..k]
  {
  }

  lemma FreshFills(before: State, m: Move, id: string, b: Bead)
    ensures var c := Copy(Created(before, Relocated(m, id, b)).(updated := 0), []);
            ReferencedIf(ClosedIf(c, b), b) == Copy(CopyOf(m, id, b, before.scrub, c.bead.created), [])
  {
  }

  /** A new bead that has gone through the whole filling is the copy. */
  lemma FilledIsCopy(start: Copy, filled: Copy, before: State, m: Move, s: State, id: string, b: Bead)
    requires start == Copy(Created(before, Relocated(m, id, b)).(updated := 0), [])
    requires filled == EvolveAll(start, Filling(m, s, id, b), before.scrub)
    ensures filled.bead == CopyOf(m, id, b, before.scrub, start.bead.created)
    ensures filled.comments == Copied(Live(CommentsOf(s, id)), before.scrub) + Noted(m, s, id, before.scrub)
  {
    EvolveFilling(start, m, s, id, b, before.scrub);
    FreshFills(before, m, id, b);
    assert [] + Copied(Live(CommentsOf(s, id)), before.scrub) == Copied(Live(CommentsOf(s, id)), before.scrub);
  }

  /** The copy of bead b as it is created. */
  ghost function Blank(p: Pair, m: Move, id: string, b: Bead): Copy {
    Copy(Created(p.dest, Relocated(m, id, b)).(updated := 0), [])
  }

  lemma FillFrom(p: Pair, made: Pair, m: Move, id: string, b: Bead, k: nat) returns (q: Pair)
    requires Starts(p, id, b) && k <= |Filling(m, p.source, id, b)|
    requires OnlyCopyChanged(p, made, m.newId) && m.newId in made.dest.beads
    requires CopyAt(made.dest, m.newId) == Blank(p, m, id, b)
    requires Attempt(Perform, made, Filling(m, p.source, id, b)[..k]).done == k
    ensures Attempt(Perform, made, Filling(m, p.source, id, b)[..k]).state == q
    ensures Filled(p, q, m, id, b, k)
  {
    var steps := Filling(m, p.source, id, b)[..k];
    FillingFills(m, p.source, id, b);
    FillTracks(made, steps, m.newId);
    q := Attempt(Perform, made, steps).state;
    ChangedTwice(p, made, q, m.newId);
    assert steps[..k] == steps;
  }

  /** The copy is what the first k filling writes make of it, and nothing else has changed. */
  ghost predicate Filled(p: Pair, q: Pair, m: Move, id: string, b: Bead, k: nat)
    requires k <= |Filling(m, p.source, id, b)|
  {
    && OnlyCopyChanged(p, q, m.newId) && m.newId in q.dest.beads
    && CopyAt(q.dest, m.newId) == EvolveAll(Blank(p, m, id, b), Filling(m, p.source, id, b)[..k], p.dest.scrub)
  }

  /** All the filling writes make it whole. */
  lemma FilledWhole(p: Pair, q: Pair, m: Move, id: string, b: Bead)
    requires Filled(p, q, m, id, b, |Filling(m, p.source, id, b)|)
    ensures HoldsCopy(q.dest, m, p.source, id, b)
  {
    var fill := Filling(m, p.source, id, b);
    assert fill[..|fill|] == fill;
    FilledIsCopy(Blank(p, m, id, b), CopyAt(q.dest, m.newId), p.dest, m, p.source, id, b);
  }

  /** After the creation and k further writes, all on the copy. */
  lemma Midway(p: Pair, m: Move, id: string, b: Bead, k: nat) returns (q: Pair)
    requires Starts(p, id, b) && k <= |Filling(m, p.source, id, b)|
    requires Attempt(Perform, p, Plan(m, p.source, id, b)[..1 + k]).done == 1 + k
    ensures Attempt(Perform, p, Plan(m, p.source, id, b)[..1 + k]).state == q
    ensures Filled(p, q, m, id, b, k) && Untouched(p, q, id) && m.newId !in p.dest.beads
  {
    var create, steps := OnDest(Create(Relocated(m, id, b))), Filling(m, p.source, id, b)[..k];
    PlanPrefix(m, p.source, id, b, k);
    AttemptConcat(Perform, p, [create], steps);
    var made := Made(p, m, id, b);
    q := FillFrom(p, made, m, id, b, k);
    CopyLeavesSource(p, q, id, b, m.newId);
  }

  /** The copy is in place and the source's bead has got the tombstone comment, and the status `status`. */
  ghost predicate Buried(p: Pair, q: Pair, m: Move, id: string, b: Bead, status: string) {
    && Joined(q) && q.same == p.same && Sound(q.source) && Sound(q.dest)
    && HoldsCopy(q.dest, m, p.source, id, b)
    && id in q.source.beads && q.source.beads[id].status == status
    && CommentsOf(q.source, id) == CommentsOf(p.source, id) + [Comment(MOVER, p.source.scrub(TombstoneText(m)), false)]
    && Elsewhere(p, q, id, m.newId)
  }

  /** Nothing changed but the bead `id` of the source and the bead `newId` of the destination. */
  ghost predicate Elsewhere(p: Pair, q: Pair, id: string, newId: string) {
    && q.source.scrub == p.source.scrub && q.source.like == p.source.like
    && q.dest.scrub == p.dest.scrub && q.dest.like == p.dest.like
    && p.source.beads.Keys <= q.source.beads.Keys && p.dest.beads.Keys <= q.dest.beads.Keys
    && (forall y :: y in p.source.beads && y != id && !(p.same && y == newId) ==>
          q.source.beads[y] == p.source.beads[y])
    && (forall y :: y in p.dest.beads && y != newId && !(p.same && y == id) ==>
          q.dest.beads[y] == p.dest.beads[y])
    && (forall y :: y != id && !(p.same && y == newId) ==> CommentsOf(q.source, y) == CommentsOf(p.source, y))
    && (forall y :: y != newId && !(p.same && y == id) ==> CommentsOf(q.dest, y) == CommentsOf(p.dest, y))
  }

  lemma PerformOnSource(q: Pair, w: Write)
    requires Joined(q) && Sound(q.source) && Sound(q.dest) && FieldWrite(w) && w.id in q.source.beads
    requires Perform(q, OnSource(w)).Some?
    ensures var r := Perform(q, OnSource(w)).value;
            && Joined(r) && r.same == q.same && Sound(r.source) && Sound(r.dest)
            && OnlyAt(q.source, r.source, w.id)
            && CopyAt(r.source, w.id) == Evolve(CopyAt(q.source, w.id), w, q.source.scrub)
            && (!q.same ==> r.dest == q.dest)
  {
    FieldWriteEvolves(q.source, w);
  }

  lemma CopySurvives(q: Pair, r: Pair, m: Move, s: State, id: string, b: Bead)
    requires HoldsCopy(q.dest, m, s, id, b) && Joined(q) && Joined(r) && r.same == q.same
    requires q.same ==> id != m.newId && OnlyAt(q.source, r.source, id)
    requires !q.same ==> r.dest == q.dest
    ensures HoldsCopy(r.dest, m, s, id, b)
  {
  }

  lemma TombstoneFirst(p: Pair, q: Pair, m: Move, id: string, b: Bead) returns (r: Pair)
    requires Starts(p, id, b) && OnlyCopyChanged(p, q, m.newId) && Untouched(p, q, id) && (p.same ==> id != m.newId)
    requires HoldsCopy(q.dest, m, p.source, id, b)
    requires Attempt(Perform, q, [Burying(m, id)[0]]).done == 1
    ensures Attempt(Perform, q, [Burying(m, id)[0]]).state == r
    ensures Buried(p, r, m, id, b, b.status)
  {
    AttemptOne(Perform, q, Burying(m, id)[0]);
    r := Perform(q, Burying(m, id)[0]).value;
    PerformOnSource(q, Burying(m, id)[0].write);
    CopySurvives(q, r, m, p.source, id, b);
  }

  /** The two writes behind the tombstone: its bead's timestamp, and closing it. */
  lemma BuryNext(p: Pair, q: Pair, m: Move, id: string, b: Bead, w: Write) returns (r: Pair)
    requires Starts(p, id, b) && (p.same ==> id != m.newId) && Buried(p, q, m, id, b, b.status)
    requires (w == Touch(id) || w == Close(id)) && Attempt(Perform, q, [OnSource(w)]).done == 1
    ensures Attempt(Perform, q, [OnSource(w)]).state == r
    ensures Buried(p, r, m, id, b, if w.Close? then "done" else b.status)
  {
    AttemptOne(Perform, q, OnSource(w));
    r := Perform(q, OnSource(w)).value;
    PerformOnSource(q, w);
    CopySurvives(q, r, m, p.source, id, b);
  }

  lemma PlanEnds(m: Move, s: State, id: string, b: Bead)
    ensures var plan := Plan(m, s, id, b);
            var n := 1 + |Filling(m, s, id, b)|;
            && |plan| == n + 3 && plan[n] == Burying(m, id)[0]
            && plan[n + 1] == OnSource(Touch(id)) && plan[n + 2] == OnSource(Close(id))
  {
  }

  /** The first k writes of the plan went through and left q. */
  ghost predicate Reaches(p: Pair, plan: seq<Step>, k: nat, q: Pair) {
    k <= |plan| && Attempt(Perform, p, plan[..k]) == Run(q, k)
  }

  lemma NextReaches(p: Pair, plan: seq<Step>, k: nat, q: Pair)
    requires k < Attempt(Perform, p, plan).done && Reaches(p, plan, k, q)
    ensures Attempt(Perform, q, [plan[k]]).done == 1
    ensures Reaches(p, plan, k + 1, Attempt(Perform, q, [plan[k]]).state)
  {
    AttemptThen(Perform, p, plan, k, q);
  }

  /** The copy is whole, and nothing has happened to the source. */
  lemma Completed(p: Pair, m: Move, id: string, b: Bead) returns (q: Pair)
    requires Starts(p, id, b)
    requires Attempt(Perform, p, Plan(m, p.source, id, b)).done > |Filling(m, p.source, id, b)|
    ensures Reaches(p, Plan(m, p.source, id, b), 1 + |Filling(m, p.source, id, b)|, q)
    ensures OnlyCopyChanged(p, q, m.newId) && Untouched(p, q, id) && HoldsCopy(q.dest, m, p.source, id, b)
    ensures m.newId !in p.dest.beads
  {
    AttemptPrefix(Perform, p, Plan(m, p.source, id, b), 1 + |Filling(m, p.source, id, b)|);
    q := Midway(p, m, id, b, |Filling(m, p.source, id, b)|);
    FilledWhole(p, q, m, id, b);
  }

  /** The tombstone's comment is written, and nothing behind it yet. */
  lemma Entombed(p: Pair, m: Move, id: string, b: Bead) returns (q: Pair)
    requires Starts(p, id, b)
    requires Attempt(Perform, p, Plan(m, p.source, id, b)).done > 1 + |Filling(m, p.source, id, b)|
    ensures Reaches(p, Plan(m, p.source, id, b), 2 + |Filling(m, p.source, id, b)|, q)
    ensures Buried(p, q, m, id, b, b.status) && m.newId !in p.dest.beads
  {
    PlanEnds(m, p.source, id, b);
    var filled := Completed(p, m, id, b);
    NextReaches(p, Plan(m, p.source, id, b), 1 + |Filling(m, p.source, id, b)|, filled);
    q := TombstoneFirst(p, filled, m, id, b);
  }

  /** And its bead's timestamp. */
  lemma Touched(p: Pair, m: Move, id: string, b: Bead) returns (q: Pair)
    requires Starts(p, id, b)
    requires Attempt(Perform, p, Plan(m, p.source, id, b)).done > 2 + |Filling(m, p.source, id, b)|
    ensures Reaches(p, Plan(m, p.source, id, b), 3 + |Filling(m, p.source, id, b)|, q)
    ensures Buried(p, q, m, id, b, b.status) && m.newId !in p.dest.beads
  {
    PlanEnds(m, p.source, id, b);
    q := Entombed(p, m, id, b);
    NextReaches(p, Plan(m, p.source, id, b), 2 + |Filling(m, p.source, id, b)|, q);
    q := BuryNext(p, q, m, id, b, Touch(id));
  }

  /** And the bead is closed. */
  lemma Finished(p: Pair, m: Move, id: string, b: Bead) returns (q: Pair)
    requires Starts(p, id, b)
    requires Attempt(Perform, p, Plan(m, p.source, id, b)).done > 3 + |Filling(m, p.source, id, b)|
    ensures Reaches(p, Plan(m, p.source, id, b), 4 + |Filling(m, p.source, id, b)|, q)
    ensures Buried(p, q, m, id, b, "done") && m.newId !in p.dest.beads
  {
    PlanEnds(m, p.source, id, b);
    q := Touched(p, m, id, b);
    NextReaches(p, Plan(m, p.source, id, b), 3 + |Filling(m, p.source, id, b)|, q);
    q := BuryNext(p, q, m, id, b, Close(id));
  }

  /** Before that, nothing has happened to the source. */
  lemma Unburied(p: Pair, m: Move, id: string, b: Bead, k: nat) returns (q: Pair)
    requires Starts(p, id, b) && k <= Attempt(Perform, p, Plan(m, p.source, id, b)).done
    requires 0 < k <= 1 + |Filling(m, p.source, id, b)|
    ensures Reaches(p, Plan(m, p.source, id, b), k, q)
    ensures Untouched(p, q, id) && Filled(p, q, m, id, b, k - 1) && m.newId !in p.dest.beads
  {
    AttemptPrefix(Perform, p, Plan(m, p.source, id, b), k);
    q := Midway(p, m, id, b, k - 1);
  }

  /** Before the last three of n writes the copy is what k of them make of it, and the source is as it was. */
  ghost predicate HalfDone(p: Pair, q: Pair, m: Move, id: string, b: Bead, k: nat) {
    && Untouched(p, q, id)
    && (k == 0 ==> q == p)
    && (k > 0 ==> k - 1 <= |Filling(m, p.source, id, b)| && Filled(p, q, m, id, b, k - 1))
  }

  /**
   * A move of b that stopped after k of n writes: nothing on the source but the last three, and those once the copy
   * is whole. Of the three the first two leave the source's bead as open as it was.
   */
  ghost predicate StoppedAt(p: Pair, q: Pair, m: Move, id: string, b: Bead, k: nat, n: nat) {
    && (k + 2 < n ==> HalfDone(p, q, m, id, b, k))
    && (k + 2 >= n ==> Buried(p, q, m, id, b, if k < n then b.status else "done"))
    && (k > 0 ==> m.newId !in p.dest.beads)
  }

  lemma PlanLength(m: Move, s: State, id: string, b: Bead)
    ensures |Plan(m, s, id, b)| == 4 + |Filling(m, s, id, b)|
  {
  }

  /** The state after the first k of n writes. */
  lemma StopsAt(p: Pair, m: Move, id: string, b: Bead, k: nat, n: nat) returns (q: Pair)
    requires Starts(p, id, b) && k <= Attempt(Perform, p, Plan(m, p.source, id, b)).done
    requires n == 4 + |Filling(m, p.source, id, b)| && k <= n
    ensures Reaches(p, Plan(m, p.source, id, b), k, q)
    ensures StoppedAt(p, q, m, id, b, k, n)
  {
    if k == 0 {
      q := p;
    } else if k + 3 <= n {
      q := Unburied(p, m, id, b, k);
    } else if k + 2 == n {
      q := Entombed(p, m, id, b);
    } else if k + 1 == n {
      q := Touched(p, m, id, b);
    } else {
      q := Finished(p, m, id, b);
    }
  }

  lemma MoveStops(p: Pair, m: Move, id: string, b: Bead, k: nat) returns (q: Pair)
    requires Starts(p, id, b) && k <= Attempt(Perform, p, Plan(m, p.source, id, b)).done
    ensures Reaches(p, Plan(m, p.source, id, b), k, q)
    ensures StoppedAt(p, q, m, id, b, k, |Plan(m, p.source, id, b)|)
  {
    PlanLength(m, p.source, id, b);
    q := StopsAt(p, m, id, b, k, 4 + |Filling(m, p.source, id, b)|);
  }

  /** When all its writes go through, the copy is whole and the source buried. */
  lemma MoveSucceeds(p: Pair, m: Move, id: string, b: Bead)
    requires Starts(p, id, b)
    requires Attempt(Perform, p, Plan(m, p.source, id, b)).done == |Plan(m, p.source, id, b)|
    ensures Buried(p, Attempt(Perform, p, Plan(m, p.source, id, b)).state, m, id, b, "done")
    ensures m.newId !in p.dest.beads
  {
    var q := MoveStops(p, m, id, b, |Plan(m, p.source, id, b)|);
    var plan := Plan(m, p.source, id, b);
    assert plan[..|plan|] == plan;
  }

  /**
   * Wherever a move stops, or is interrupted, the source's bead is there; and if it has been closed or got its
   * tombstone, the destination holds its fields and its live comments in order.
   */
  lemma ClosedMeansCopied(p: Pair, m: Move, id: string, b: Bead, k: nat)
    requires Starts(p, id, b) && k <= Attempt(Perform, p, Plan(m, p.source, id, b)).done
    ensures var q := Attempt(Perform, p, Plan(m, p.source, id, b)[..k]).state;
            && id in q.source.beads
            && (StateOf(q.source.beads[id].status) == Done && StateOf(b.status) != Done ==>
                  HoldsCopy(q.dest, m, p.source, id, b))
            && (CommentsOf(q.source, id) != CommentsOf(p.source, id) ==> HoldsCopy(q.dest, m, p.source, id, b))
  {
    var q := MoveStops(p, m, id, b, k);
  }
}
