/** What the store's writes do to a bead, its comments and its edges, field by field. */
module StoreLaws {
  import opened Text
  import opened ShortIds
  import opened BeadStore

  // ----- Statuses and times -----

  /** Which strings mean which state; every other string means open. */
  lemma StatusMeans(s: string)
    ensures StateOf(s) == Backlog <==> s == "backlog"
    ensures StateOf(s) == Queued <==> s == "queued"
    ensures StateOf(s) == Dispatched <==> s == "dispatched" || s == "in_progress"
    ensures StateOf(s) == Verifying <==> s == "verifying"
    ensures StateOf(s) == PrOpen <==> s == "pr_open"
    ensures StateOf(s) == Done <==> s == "done" || s == "closed"
    ensures StateOf(s) == Rejected <==> s == "rejected"
    ensures StateOf(s) == Blocked <==> s == "blocked"
    ensures StateOf(s) == Stale <==> s == "stale"
    ensures StateOf(s) == DeadLetter <==> s == "dead_letter" || s == "deadletter"
  {
  }

  /** t falls into the second that begins at r. */
  ghost predicate InSecond(t: int, r: int) {
    r % 1_000_000_000 == 0 && r <= t < r + 1_000_000_000
  }

  lemma WholeSecondsMeans(t: int)
    ensures InSecond(t, WholeSeconds(t))
  {
  }

  // ----- Comments and edges -----

  /** The live comments are those not deleted, in order: one by one, */
  lemma LiveOne(c: Comment)
    ensures Live([c]) == if c.deleted then [] else [c]
  {
    assert [c][..0] == [] && Live([]) == [];
  }

  /** and so all of them. */
  lemma {:induction false} LiveConcat(a: seq<Comment>, b: seq<Comment>)
    ensures Live(a + b) == Live(a) + Live(b)
    decreases |b|
  {
    if b == [] {
      assert a + b == a;
    } else {
      assert (a + b)[..|a + b| - 1] == a + b[..|b| - 1];
      LiveConcat(a, b[..|b| - 1]);
    }
  }

  ghost predicate SameEnds(d: Edge, e: Edge) {
    d.issue == e.issue && d.target == e.target
  }

  /** An edge replaces the first with its ends, and goes last when there is none. */
  lemma {:induction false} LinkedMeans(edges: seq<Edge>, e: Edge, i: nat)
    requires i <= |edges| && (i < |edges| ==> SameEnds(edges[i], e))
    requires forall j :: 0 <= j < i ==> !SameEnds(edges[j], e)
    ensures Linked(edges, e) == if i < |edges| then edges[i := e] else edges + [e]
  {
    if i > 0 {
      LinkedMeans(edges[1..], e, i - 1);
      assert edges == [edges[0]] + edges[1..];
    } else if edges != [] {
      assert edges[0 := e] == [e] + edges[1..];
    }
  }

  // ----- Writes -----

  /** A write fails when the store takes no more, when the id is taken, or when it names no bead. */
  lemma WriteFailsIff(s: State, w: Write)
    ensures Apply(s, w).None? <==>
      || s.quota == 0
      || (w.Create? && w.bead.id in s.beads)
      || (!w.Create? && !w.RestoreDependency? && Resolve(s.beads.Keys, s.like, w.id).None?)
  {
  }

  /** Nothing but the bead x, its comments and one more write has changed. */
  ghost predicate OnlyBead(s: State, u: State, x: string) {
    && u.quota == s.quota - 1 && u.clock == s.clock && u.scrub == s.scrub && u.like == s.like && u.edges == s.edges
    && u.beads.Keys == s.beads.Keys + {x}
    && (forall y :: y in s.beads && y != x ==> u.beads[y] == s.beads[y])
    && (forall y :: y != x ==> CommentsOf(u, y) == CommentsOf(s, y))
  }

  /** A new bead: open, with both times now, its texts scrubbed, without reference, unowned when the owner is empty. */
  lemma CreateMeans(s: State, n: NewBead)
    requires s.quota > 0 && n.id !in s.beads
    ensures var u := Apply(s, Create(n)).value;
            && OnlyBead(s, u, n.id) && CommentsOf(u, n.id) == CommentsOf(s, n.id)
            && var b := u.beads[n.id];
               && b.title == s.scrub(n.title) && b.description == s.scrub(n.description)
               && b.details == n.details && b.derivedFrom == n.derivedFrom
               && b.status == "open" && b.externalRef == None
               && (b.owner == None <==> |n.owner| == 0) && (b.owner.Some? ==> b.owner.value == n.owner)
               && InSecond(s.clock(s.quota), b.created) && InSecond(s.clock(s.quota), b.updated)
  {
    WholeSecondsMeans(s.clock(s.quota));
  }

  /** b but for its status, reference and times. */
  ghost predicate SameBut(b: Bead, c: Bead) {
    && c.title == b.title && c.description == b.description && c.details == b.details
    && c.derivedFrom == b.derivedFrom && c.owner == b.owner
  }

  /** A write to one bead's row, on the bead its id resolves to. */
  lemma UpdateMeans(s: State, w: Write, x: string)
    requires s.quota > 0 && !w.Create? && !w.RestoreDependency? && !w.InsertComment?
    requires Resolve(s.beads.Keys, s.like, w.id) == Some(x)
    ensures var u := Apply(s, w).value;
            && OnlyBead(s, u, x) && CommentsOf(u, x) == CommentsOf(s, x) && x in s.beads
            && var b, c := s.beads[x], u.beads[x];
               && SameBut(b, c)
               && c.externalRef == (if w.SetExternalRef? then Some(w.reference) else b.externalRef)
               && (w.Close? ==> c.status == "done")
               && (w.RestoreStatus? ==> c.status == StateName(StateOf(w.status)))
               && (!w.Close? && !w.RestoreStatus? ==> c.status == b.status)
               && (if w.RestoreTimestamps? then InSecond(w.created, c.created) && InSecond(w.updated, c.updated)
                   else c.created == b.created && InSecond(s.clock(s.quota), c.updated))
  {
    WholeSecondsMeans(s.clock(s.quota));
    if w.RestoreTimestamps? {
      WholeSecondsMeans(w.created);
      WholeSecondsMeans(w.updated);
    }
  }

  /** A comment goes behind those the bead has, its text scrubbed, and is not deleted. */
  lemma CommentMeans(s: State, id: string, text: string, author: string, x: string)
    requires s.quota > 0 && Resolve(s.beads.Keys, s.like, id) == Some(x)
    ensures var u := Apply(s, InsertComment(id, text, author)).value;
            && OnlyBead(s, u, x) && u.beads == s.beads
            && CommentsOf(u, x) == CommentsOf(s, x) + [Comment(author, s.scrub(text), false)]
  {
  }
}
