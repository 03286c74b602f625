/** What the report of a migration counts, over the source store. */
module MigrationCounts {
  import opened Text
  import opened Trimming
  import opened BeadStore
  import opened Runs
  import opened BeadMigrate
  import opened MigrationLaws

  ghost function Count<T>(which: T -> bool, xs: seq<T>): nat {
    if xs == [] then 0 else Count(which, xs[..|xs| - 1]) + if which(xs[|xs| - 1]) then 1 else 0
  }

  lemma CountNext<T>(which: T -> bool, front: seq<T>, last: T)
    ensures Count(which, front + [last]) == Count(which, front) + if which(last) then 1 else 0
  {
    assert (front + [last])[..|front|] == front;
  }

  lemma {:induction false} CountConcat<T>(which: T -> bool, a: seq<T>, b: seq<T>)
    ensures Count(which, a + b) == Count(which, a) + Count(which, b)
  {
    if b == [] {
      assert a + b == a;
    } else {
      var front, last := b[..|b| - 1], b[|b| - 1];
      assert b == front + [last] && a + b == (a + front) + [last];
      CountConcat(which, a, front);
      CountNext(which, a + front, last);
    }
  }

  // ----- Edges -----

  ghost function From(ids: set<string>): Edge -> bool {
    (e: Edge) => e.issue in ids
  }

  ghost function FromTo(ids: set<string>, local: set<string>): Edge -> bool {
    (e: Edge) => e.issue in ids && e.target !in local
  }

  /** The rows of one more bead are the edges it adds to those of the beads before. */
  lemma {:induction false} RowsAdd(edges: seq<Edge>, ids: set<string>, id: string)
    requires id !in ids
    ensures Count(From(ids + {id}), edges) == Count(From(ids), edges) + |Rows(edges, id)|
  {
    if edges != [] {
      var front, last := edges[..|edges| - 1], edges[|edges| - 1];
      assert edges == front + [last];
      RowsAdd(front, ids, id);
      RowsNext(front, last, id);
    }
  }

  lemma AbroadNext(front: seq<Edge>, last: Edge, local: set<string>)
    ensures Abroad(front + [last], local) == Abroad(front, local) + if last.target !in local then 1 else 0
  {
    assert (front + [last])[..|front|] == front;
  }

  lemma {:induction false} AbroadAdd(edges: seq<Edge>, ids: set<string>, id: string, local: set<string>)
    requires id !in ids
    ensures Count(FromTo(ids + {id}, local), edges) == Count(FromTo(ids, local), edges) + Abroad(Rows(edges, id), local)
  {
    if edges != [] {
      var front, last := edges[..|edges| - 1], edges[|edges| - 1];
      assert edges == front + [last];
      AbroadAdd(front, ids, id, local);
      RowsNext(front, last, id);
      AbroadNext(Rows(front, id), last, local);
      assert Rows(front, id) + [] == Rows(front, id);
    }
  }

  lemma {:induction false} NoneFrom(edges: seq<Edge>, local: set<string>)
    ensures Count(From({}), edges) == 0 && Count(FromTo({}, local), edges) == 0
  {
    if edges != [] { NoneFrom(edges[..|edges| - 1], local); }
  }

  // ----- Comments and acceptance -----

  ghost function NotDeleted(): Comment -> bool {
    (c: Comment) => !c.deleted
  }

  lemma {:induction false} LiveCount(cs: seq<Comment>)
    ensures |Live(cs)| == Count(NotDeleted(), cs)
  {
    if cs != [] { LiveCount(cs[..|cs| - 1]); }
  }

  ghost function CommentsIn(s: State): Listed -> seq<Comment> {
    (l: Listed) => CommentsOf(s, l.id)
  }

  ghost function HasCondition(): Listed -> bool {
    (l: Listed) => exists i :: 0 <= i < |l.bead.details.acceptance| && !IsSpace(l.bead.details.acceptance[i])
  }

  lemma {:induction false} AcceptanceCount(beads: seq<Listed>)
    ensures WithAcceptance(beads) == Count(HasCondition(), beads)
  {
    if beads != [] {
      AcceptanceCount(beads[..|beads| - 1]);
      BlankIff(beads[|beads| - 1].bead.details.acceptance);
    }
  }

  // ----- The report -----

  ghost predicate Counts(r: Report, s: State, all: seq<Listed>, beads: seq<Listed>) {
    && r.beads == |all| && r.beadsWithAcceptance == Count(HasCondition(), all)
    && r.dependencies == Count(From(Ids(beads)), s.edges)
    && r.crossRepoDependencies == Count(FromTo(Ids(beads), Ids(all)), s.edges)
    && r.comments == Count(NotDeleted(), Flat(CommentsIn(s), beads))
  }

  lemma CountsNext(r: Report, s: State, all: seq<Listed>, beads: seq<Listed>, l: Listed)
    requires Counts(r, s, all, beads) && l.id !in Ids(beads)
    ensures Counts(Tallied(r, Rows(s.edges, l.id), Live(CommentsOf(s, l.id)), Ids(all)), s, all, beads + [l])
  {
    IdsNext(beads, l);
    RowsAdd(s.edges, Ids(beads), l.id);
    AbroadAdd(s.edges, Ids(beads), l.id, Ids(all));
    LiveCount(CommentsOf(s, l.id));
    assert (beads + [l])[..|beads|] == beads;
    assert Flat(CommentsIn(s), beads + [l]) == Flat(CommentsIn(s), beads) + CommentsOf(s, l.id);
    CountConcat(NotDeleted(), Flat(CommentsIn(s), beads), CommentsOf(s, l.id));
  }

  lemma {:induction false} CountedCounts(s: State, all: seq<Listed>, beads: seq<Listed>)
    requires DistinctIds(beads)
    ensures Counts(Counted(s, all, beads), s, all, beads)
  {
    if beads == [] {
      assert Ids(beads) == {};
      AcceptanceCount(all);
      NoneFrom(s.edges, Ids(all));
    } else {
      var front, last := beads[..|beads| - 1], beads[|beads| - 1];
      assert beads == front + [last];
      CountedCounts(s, all, front);
      NotYet(front, last);
      CountsNext(Counted(s, all, front), s, all, front, last);
    }
  }

  /**
   * The report counts the listed beads, those with an acceptance condition that is not blank, the store's edges that
   * leave a listed bead, those of them that lead to no listed bead, and the comments that are not deleted.
   */
  lemma ReportCounts(s: State, beads: seq<Listed>)
    requires DistinctIds(beads)
    ensures Counts(Counted(s, beads, beads), s, beads, beads)
  {
    CountedCounts(s, beads, beads);
  }

  // ----- The writes -----

  ghost function IsOpen(): Listed -> bool {
    (l: Listed) => l.bead.status == "open"
  }

  ghost function HasReference(): Listed -> bool {
    (l: Listed) => l.bead.externalRef.Some? && l.bead.externalRef.value != ""
  }

  lemma {:induction false} RestoringWrites(beads: seq<Listed>)
    ensures |Flat(Restoring, beads)| + Count(IsOpen(), beads) == 3 * |beads| + Count(HasReference(), beads)
  {
    if beads != [] { RestoringWrites(beads[..|beads| - 1]); }
  }

  lemma {:induction false} RecommentingWrites(id: string, cs: seq<Comment>)
    ensures |Recommenting(id, cs)| == 2 * |cs|
  {
    if cs != [] { RecommentingWrites(id, cs[..|cs| - 1]); }
  }

  lemma AttachingWrites(s: State, l: Listed)
    ensures |Attaching(s, l)| == |Rows(s.edges, l.id)| + 2 * |Live(CommentsOf(s, l.id))| + 1
  {
    RecommentingWrites(l.id, Live(CommentsOf(s, l.id)));
  }

  lemma {:induction false} AttachingAllWrites(s: State, all: seq<Listed>, beads: seq<Listed>)
    ensures var r := Counted(s, all, beads);
            |Flat(AttachingFrom(s), beads)| == r.dependencies + 2 * r.comments + |beads|
  {
    if beads != [] {
      AttachingAllWrites(s, all, beads[..|beads| - 1]);
      AttachingWrites(s, beads[|beads| - 1]);
    }
  }

  /**
   * How many writes a migration takes: four for each bead, one less if it is open and one more if it has a reference,
   * one for each edge and two for each comment that the report counts.
   */
  lemma MigrationWrites(s: State, beads: seq<Listed>)
    ensures var r := Counted(s, beads, beads);
            |Migration(s, beads)| + Count(IsOpen(), beads)
            == 4 * |beads| + Count(HasReference(), beads) + r.dependencies + 2 * r.comments
  {
    RestoringWrites(beads);
    AttachingAllWrites(s, beads, beads);
  }
}
