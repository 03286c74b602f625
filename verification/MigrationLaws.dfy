/** What a migration into an empty store leaves there, and exactly when the verification that follows accepts it. */
module MigrationLaws {
  import opened Text
  import opened Trimming
  import opened BeadStore
  import opened Runs
  import opened BeadMigrate
  import opened StoreExamples

  // ----- First pass: one bead -----

  /** A bead as the migrated store holds it. */
  function Restored(l: Listed, scrub: string -> string): Bead {
    var b := l.bead;
    Bead(scrub(b.title), scrub(b.description), b.details, b.derivedFrom,
         if b.status == "open" then "open" else StateName(StateOf(b.status)),
         if b.owner == Some("") then None else b.owner, if b.externalRef == Some("") then None else b.externalRef,
         WholeSeconds(b.created), WholeSeconds(b.updated))
  }

  function Timeless(b: Bead): Bead {
    b.(created := 0, updated := 0)
  }

  /** n writes have gone through, making the bead `id` b but for its timestamps, and changing nothing else. */
  ghost predicate Became(t: State, u: State, id: string, b: Bead, n: nat) {
    && n <= t.quota && id in u.beads && Timeless(u.beads[id]) == b
    && u == t.(quota := t.quota - n, beads := t.beads[id := u.beads[id]])
  }

  lemma BecameTwice(t: State, u: State, v: State, id: string, a: Bead, b: Bead, n: nat, m: nat)
    requires Became(t, u, id, a, n) && Became(u, v, id, b, m)
    ensures Became(t, v, id, b, n + m)
  {
    assert t.beads[id := u.beads[id]][id := v.beads[id]] == t.beads[id := v.beads[id]];
  }

  lemma CreateBecomes(t: State, l: Listed)
    requires l.id !in t.beads && t.quota > 0
    ensures Attempt(Apply, t, [Create(NewFrom(l))]).done == 1
    ensures Became(t, Attempt(Apply, t, [Create(NewFrom(l))]).state, l.id, Timeless(Created(t, NewFrom(l))), 1)
  {
    AttemptOne(Apply, t, Create(NewFrom(l)));
  }

  lemma FieldApplies(t: State, w: Write)
    requires w.RestoreStatus? || w.SetExternalRef? || w.RestoreTimestamps?
    requires w.id in t.beads && t.quota > 0
    ensures Apply(t, w)
            == Some(t.(quota := t.quota - 1, beads := t.beads[w.id := Updated(t, t.beads[w.id], w)]))
  {
  }

  lemma FieldBecomes(t: State, w: Write, id: string)
    requires w.RestoreStatus? || w.SetExternalRef? || w.RestoreTimestamps?
    requires w.id == id && id in t.beads && t.quota > 0
    ensures Attempt(Apply, t, [w]).done == 1
    ensures Became(t, Attempt(Apply, t, [w]).state, id, Timeless(Updated(t, t.beads[id], w)), 1)
    ensures Attempt(Apply, t, [w]).state.beads[id] == Updated(t, t.beads[id], w)
  {
    AttemptOne(Apply, t, w);
    FieldApplies(t, w);
  }

  lemma NothingBecomes(t: State, id: string)
    requires id in t.beads
    ensures Attempt(Apply, t, []) == Run(t, 0) && Became(t, t, id, Timeless(t.beads[id]), 0)
  {
  }

  lemma RestatusBecomes(t: State, l: Listed)
    requires l.id in t.beads && t.quota >= |Restatus(l)| && t.beads[l.id].status == "open"
    ensures var status := if l.bead.status == "open" then "open" else StateName(StateOf(l.bead.status));
            var Run(u, k) := Attempt(Apply, t, Restatus(l));
            k == |Restatus(l)| && Became(t, u, l.id, Timeless(t.beads[l.id]).(status := status), k)
  {
    NothingBecomes(t, l.id);
    if l.bead.status != "open" { FieldBecomes(t, RestoreStatus(l.id, l.bead.status), l.id); }
  }

  lemma RereferBecomes(t: State, l: Listed)
    requires l.id in t.beads && t.quota >= |Rerefer(l)| && t.beads[l.id].externalRef == None
    ensures var reference := if l.bead.externalRef == Some("") then None else l.bead.externalRef;
            var Run(u, k) := Attempt(Apply, t, Rerefer(l));
            k == |Rerefer(l)| && Became(t, u, l.id, Timeless(t.beads[l.id]).(externalRef := reference), k)
  {
    NothingBecomes(t, l.id);
    if l.bead.externalRef.Some? && l.bead.externalRef != Some("") {
      FieldBecomes(t, SetExternalRef(l.id, l.bead.externalRef.value), l.id);
    }
  }

  lemma RestampBecomes(t: State, l: Listed)
    requires l.id in t.beads && t.quota >= 1
    ensures var Run(u, k) := Attempt(Apply, t, Restamp(l));
            && k == 1 && Became(t, u, l.id, Timeless(t.beads[l.id]), 1)
            && u.beads[l.id]
               == t.beads[l.id].(created := WholeSeconds(l.bead.created), updated := WholeSeconds(l.bead.updated))
  {
    FieldBecomes(t, RestoreTimestamps(l.id, l.bead.created, l.bead.updated), l.id);
  }

  /** All the writes go through, and make the bead b but for its timestamps. */
  ghost predicate Makes(t: State, writes: seq<Write>, id: string, b: Bead) {
    var Run(u, k) := Attempt(Apply, t, writes);
    k == |writes| && Became(t, u, id, b, k)
  }

  lemma MakesThen(t: State, first: seq<Write>, rest: seq<Write>, id: string, a: Bead, b: Bead)
    requires Makes(t, first, id, a) && Makes(Attempt(Apply, t, first).state, rest, id, b)
    ensures Makes(t, first + rest, id, b)
    ensures Attempt(Apply, t, first + rest).state == Attempt(Apply, Attempt(Apply, t, first).state, rest).state
  {
    var u := Attempt(Apply, t, first).state;
    AttemptConcat(Apply, t, first, rest);
    BecameTwice(t, u, Attempt(Apply, u, rest).state, id, a, b, |first|, |rest|);
  }

  /** What follows the status: the reference, and then the timestamps. */
  lemma ReferAndStamp(t: State, l: Listed)
    requires l.id in t.beads && t.quota >= |Rerefer(l)| + 1 && t.beads[l.id].externalRef == None
    ensures var b := t.beads[l.id].(externalRef := if l.bead.externalRef == Some("") then None else l.bead.externalRef,
                                    created := WholeSeconds(l.bead.created), updated := WholeSeconds(l.bead.updated));
            var steps := Rerefer(l) + Restamp(l);
            Makes(t, steps, l.id, Timeless(b)) && Attempt(Apply, t, steps).state.beads[l.id] == b
  {
    RereferBecomes(t, l);
    var u := Attempt(Apply, t, Rerefer(l)).state;
    RestampBecomes(u, l);
    MakesThen(t, Rerefer(l), Restamp(l), l.id, Timeless(u.beads[l.id]), Timeless(u.beads[l.id]));
  }

  /** The first pass over a bead the store lacks: it goes through, and all it does is add the restored bead. */
  lemma RestoringAdds(t: State, l: Listed)
    requires l.id !in t.beads && t.quota >= |Restoring(l)|
    ensures var Run(u, k) := Attempt(Apply, t, Restoring(l));
            && k == |Restoring(l)|
            && u == t.(quota := t.quota - k, beads := t.beads[l.id := Restored(l, t.scrub)])
  {
    var create, rest := [Create(NewFrom(l))], Rerefer(l) + Restamp(l);
    CreateBecomes(t, l);
    var t1 := Attempt(Apply, t, create).state;
    RestatusBecomes(t1, l);
    var t2 := Attempt(Apply, t1, Restatus(l)).state;
    ReferAndStamp(t2, l);
    var end := Timeless(Attempt(Apply, t2, rest).state.beads[l.id]);
    MakesThen(t1, Restatus(l), rest, l.id, Timeless(t2.beads[l.id]), end);
    MakesThen(t, create, Restatus(l) + rest, l.id, Timeless(t1.beads[l.id]), end);
    assert end == Timeless(Restored(l, t.scrub));
  }

  // ----- Second pass: one bead -----

  /** No two edges share both ends: the edges table's primary key. */
  ghost predicate EdgesKeyed(edges: seq<Edge>) {
    forall i, j :: 0 <= i < j < |edges| ==> edges[i].issue != edges[j].issue || edges[i].target != edges[j].target
  }

  ghost predicate NoEdge(edges: seq<Edge>, e: Edge) {
    forall i :: 0 <= i < |edges| ==> edges[i].issue != e.issue || edges[i].target != e.target
  }

  lemma {:induction false} LinkedAppends(edges: seq<Edge>, e: Edge)
    requires NoEdge(edges, e)
    ensures Linked(edges, e) == edges + [e]
  {
    if edges != [] {
      LinkedAppends(edges[1..], e);
      assert [edges[0]] + (edges[1..] + [e]) == edges + [e];
    }
  }

  ghost function Relinked(t: State, rows: seq<Edge>): State
    requires t.quota >= |rows|
  {
    t.(quota := t.quota - |rows|, edges := t.edges + rows)
  }

  lemma RelinkOne(t: State, rows: seq<Edge>)
    requires rows != [] && t.quota >= |rows| && EdgesKeyed(t.edges + rows)
    ensures Apply(Relinked(t, rows[..|rows| - 1]), RestoreDependency(rows[|rows| - 1])) == Some(Relinked(t, rows))
  {
    RelinkNext(t.edges, rows);
  }

  lemma {:induction false} RelinkingAppends(t: State, rows: seq<Edge>)
    requires t.quota >= |rows| && EdgesKeyed(t.edges + rows)
    ensures Attempt(Apply, t, Relinking(rows)) == Run(Relinked(t, rows), |rows|)
  {
    if rows == [] {
      assert t.edges + [] == t.edges;
    } else {
      var n := |rows| - 1;
      KeyedPrefix(t.edges, rows);
      RelinkingAppends(t, rows[..n]);
      RelinkOne(t, rows);
      AttemptSnoc(Apply, t, Relinking(rows[..n]), RestoreDependency(rows[n]));
      assert Relinking(rows) == Relinking(rows[..n]) + [RestoreDependency(rows[n])];
    }
  }

  lemma KeyedPrefix(edges: seq<Edge>, rows: seq<Edge>)
    requires rows != [] && EdgesKeyed(edges + rows)
    ensures EdgesKeyed(edges + rows[..|rows| - 1])
  {
    assert (edges + rows)[..|edges| + |rows| - 1] == edges + rows[..|rows| - 1];
  }

  lemma RelinkNext(edges: seq<Edge>, rows: seq<Edge>)
    requires rows != [] && EdgesKeyed(edges + rows)
    ensures Linked(edges + rows[..|rows| - 1], rows[|rows| - 1]) == edges + rows
  {
    var all, before, e := edges + rows, edges + rows[..|rows| - 1], rows[|rows| - 1];
    assert all == before + [e];
    forall i | 0 <= i < |before| ensures before[i].issue != e.issue || before[i].target != e.target {
      assert all[i] == before[i] && all[|all| - 1] == e;
    }
    LinkedAppends(before, e);
  }

  /** n writes have gone through, adding comments to the bead `id` and touching it, and changing nothing else. */
  ghost predicate Commented(t: State, u: State, id: string, cs: seq<Comment>, n: nat) {
    && n <= t.quota && id in t.beads && id in u.beads && Timeless(u.beads[id]) == Timeless(t.beads[id])
    && u == t.(quota := t.quota - n, beads := t.beads[id := u.beads[id]], comments := u.comments)
    && CommentsOf(u, id) == CommentsOf(t, id) + cs
    && forall y :: y != id ==> CommentsOf(u, y) == CommentsOf(t, y)
  }

  lemma InsertComments(t: State, id: string, c: Comment)
    requires id in t.beads && t.quota > 0
    ensures var r := Apply(t, InsertComment(id, c.text, c.author));
            r.Some? && Commented(t, r.value, id, [Comment(c.author, t.scrub(c.text), false)], 1)
  {
    assert t.beads[id := t.beads[id]] == t.beads;
  }

  lemma TouchComments(t: State, id: string)
    requires id in t.beads && t.quota > 0
    ensures var r := Apply(t, Touch(id)); r.Some? && Commented(t, r.value, id, [], 1)
  {
  }

  lemma CommentedTwice(t: State, u: State, v: State, id: string, a: seq<Comment>, b: seq<Comment>, n: nat, m: nat)
    requires Commented(t, u, id, a, n) && Commented(u, v, id, b, m)
    ensures Commented(t, v, id, a + b, n + m)
  {
    assert t.beads[id := u.beads[id]][id := v.beads[id]] == t.beads[id := v.beads[id]];
    assert CommentsOf(t, id) + a + b == CommentsOf(t, id) + (a + b);
  }

  lemma AddCommentAdds(t: State, id: string, c: Comment)
    requires id in t.beads && t.quota >= 2
    ensures var Run(u, k) := Attempt(Apply, t, AddComment(id, c.text, c.author));
            k == 2 && Commented(t, u, id, [Comment(c.author, t.scrub(c.text), false)], 2)
  {
    AttemptTwo(Apply, t, InsertComment(id, c.text, c.author), Touch(id));
    InsertComments(t, id, c);
    var inserted := Apply(t, InsertComment(id, c.text, c.author)).value;
    TouchComments(inserted, id);
    var added := [Comment(c.author, t.scrub(c.text), false)];
    CommentedTwice(t, inserted, Apply(inserted, Touch(id)).value, id, added, [], 1, 1);
    assert added + [] == added;
  }

  lemma RecommentingNext(id: string, cs: seq<Comment>, scrub: string -> string)
    requires cs != []
    ensures var n := |cs| - 1;
            && Recommenting(id, cs) == Recommenting(id, cs[..n]) + AddComment(id, cs[n].text, cs[n].author)
            && Copied(cs, scrub) == Copied(cs[..n], scrub) + [Comment(cs[n].author, scrub(cs[n].text), false)]
  {
  }

  lemma CommentsBegin(t: State, id: string)
    requires id in t.beads
    ensures Commented(t, t, id, [], 0)
  {
    assert t.beads[id := t.beads[id]] == t.beads;
  }

  lemma {:induction false} RecommentingAdds(t: State, id: string, cs: seq<Comment>)
    requires id in t.beads && t.quota >= |Recommenting(id, cs)|
    ensures var Run(u, k) := Attempt(Apply, t, Recommenting(id, cs));
            k == |Recommenting(id, cs)| && Commented(t, u, id, Copied(cs, t.scrub), k)
  {
    if cs == [] {
      CommentsBegin(t, id);
    } else {
      var n := |cs| - 1;
      RecommentingNext(id, cs, t.scrub);
      RecommentingAdds(t, id, cs[..n]);
      var Run(u, k) := Attempt(Apply, t, Recommenting(id, cs[..n]));
      var last := AddComment(id, cs[n].text, cs[n].author);
      AttemptConcat(Apply, t, Recommenting(id, cs[..n]), last);
      AddCommentAdds(u, id, cs[n]);
      CommentedTwice(t, u, Attempt(Apply, u, last).state, id, Copied(cs[..n], t.scrub),
                     [Comment(cs[n].author, t.scrub(cs[n].text), false)], k, 2);
    }
  }

  /** n writes have gone through, adding the edges and the comments of the bead `id` and changing nothing else. */
  ghost predicate Attached(t: State, u: State, id: string, rows: seq<Edge>, cs: seq<Comment>, n: nat) {
    && n <= t.quota
    && u == t.(quota := t.quota - n, edges := t.edges + rows, comments := u.comments)
    && CommentsOf(u, id) == CommentsOf(t, id) + cs
    && forall y :: y != id ==> CommentsOf(u, y) == CommentsOf(t, y)
  }

  /** The bead has its timestamps from l already. */
  predicate Stamped(t: State, l: Listed) {
    && l.id in t.beads && t.beads[l.id].created == WholeSeconds(l.bead.created)
    && t.beads[l.id].updated == WholeSeconds(l.bead.updated)
  }

  lemma RestampUndoesTouch(t: State, u: State, l: Listed, cs: seq<Comment>, n: nat)
    requires Stamped(t, l) && Commented(t, u, l.id, cs, n) && n < t.quota
    ensures var Run(v, k) := Attempt(Apply, u, Restamp(l)); k == 1 && Attached(t, v, l.id, [], cs, n + 1)
  {
    RestampBecomes(u, l);
    var v := Attempt(Apply, u, Restamp(l)).state;
    assert v.beads == t.beads;
    assert t.edges + [] == t.edges;
  }

  lemma CommentsAttach(t: State, l: Listed, cs: seq<Comment>)
    requires Stamped(t, l) && t.quota > |Recommenting(l.id, cs)|
    ensures var steps := Recommenting(l.id, cs) + Restamp(l);
            var Run(u, k) := Attempt(Apply, t, steps);
            k == |steps| && Attached(t, u, l.id, [], Copied(cs, t.scrub), k)
  {
    RecommentingAdds(t, l.id, cs);
    AttemptConcat(Apply, t, Recommenting(l.id, cs), Restamp(l));
    var u := Attempt(Apply, t, Recommenting(l.id, cs)).state;
    RestampUndoesTouch(t, u, l, Copied(cs, t.scrub), |Recommenting(l.id, cs)|);
  }

  lemma AttachEdgesFirst(t: State, u: State, v: State, id: string, rows: seq<Edge>, cs: seq<Comment>, n: nat)
    requires |rows| <= t.quota && u == Relinked(t, rows)
    requires Attached(u, v, id, [], cs, n)
    ensures Attached(t, v, id, rows, cs, |rows| + n)
  {
    assert t.edges + rows + [] == t.edges + rows;
  }

  /**
   * The second pass over a restored bead: it adds the bead's edges and comments, and although each comment touches
   * the bead, its timestamps end as they were.
   */
  lemma AttachingAdds(t: State, l: Listed, rows: seq<Edge>, cs: seq<Comment>)
    requires Stamped(t, l) && t.quota >= |rows| + |Recommenting(l.id, cs)| + 1 && EdgesKeyed(t.edges + rows)
    ensures var steps := Relinking(rows) + (Recommenting(l.id, cs) + Restamp(l));
            var Run(u, k) := Attempt(Apply, t, steps);
            k == |steps| && Attached(t, u, l.id, rows, Copied(cs, t.scrub), k)
  {
    var rest := Recommenting(l.id, cs) + Restamp(l);
    RelinkingAppends(t, rows);
    var u := Relinked(t, rows);
    AttemptConcat(Apply, t, Relinking(rows), rest);
    CommentsAttach(u, l, cs);
    AttachEdgesFirst(t, u, Attempt(Apply, u, rest).state, l.id, rows, Copied(cs, t.scrub), |rest|);
  }

  // ----- The first pass -----

  ghost predicate DistinctIds(beads: seq<Listed>) {
    forall i, j :: 0 <= i < j < |beads| ==> beads[i].id != beads[j].id
  }

  /** n writes have gone through from a store without beads, and it has got exactly the restored beads. */
  ghost predicate FirstPassed(t: State, u: State, beads: seq<Listed>, n: nat) {
    && n <= t.quota && u == t.(quota := t.quota - n, beads := u.beads)
    && u.beads.Keys == Ids(beads)
    && forall i :: 0 <= i < |beads| ==> beads[i].id in u.beads && u.beads[beads[i].id] == Restored(beads[i], t.scrub)
  }

  lemma IdsNext(beads: seq<Listed>, l: Listed)
    ensures Ids(beads + [l]) == Ids(beads) + {l.id}
  {
    var all := beads + [l];
    forall id | id in Ids(beads) ensures id in Ids(all) {
      var i :| 0 <= i < |beads| && beads[i].id == id;
      assert all[i].id == id;
    }
    assert all[|beads|].id == l.id;
  }

  lemma NotYet(beads: seq<Listed>, l: Listed)
    requires DistinctIds(beads + [l])
    ensures l.id !in Ids(beads)
  {
    var all := beads + [l];
    forall i | 0 <= i < |beads| ensures beads[i].id != l.id { assert all[i] == beads[i] && all[|beads|] == l; }
  }

  lemma FirstPassNext(t: State, u: State, beads: seq<Listed>, l: Listed, n: nat)
    requires FirstPassed(t, u, beads, n) && DistinctIds(beads + [l]) && n + |Restoring(l)| <= t.quota
    ensures Attempt(Apply, u, Restoring(l)).done == |Restoring(l)|
    ensures FirstPassed(t, Attempt(Apply, u, Restoring(l)).state, beads + [l], n + |Restoring(l)|)
  {
    NotYet(beads, l);
    RestoringAdds(u, l);
    FirstPassAdds(t, u, Attempt(Apply, u, Restoring(l)).state, beads, l, n, |Restoring(l)|);
  }

  lemma FirstPassAdds(t: State, u: State, v: State, beads: seq<Listed>, l: Listed, n: nat, k: nat)
    requires FirstPassed(t, u, beads, n) && l.id !in Ids(beads) && n + k <= t.quota
    requires v == u.(quota := u.quota - k, beads := u.beads[l.id := Restored(l, t.scrub)])
    ensures FirstPassed(t, v, beads + [l], n + k)
  {
    IdsNext(beads, l);
    forall i | 0 <= i < |beads| ensures beads[i].id != l.id { assert beads[i].id in Ids(beads); }
  }

  ghost predicate FirstPasses(t: State, beads: seq<Listed>) {
    var r := Attempt(Apply, t, Flat(Restoring, beads));
    r.done == |Flat(Restoring, beads)| && FirstPassed(t, r.state, beads, r.done)
  }

  lemma FirstPassStep(t: State, beads: seq<Listed>, l: Listed)
    requires FirstPasses(t, beads) && DistinctIds(beads + [l]) && t.quota >= |Flat(Restoring, beads + [l])|
    ensures FirstPasses(t, beads + [l])
  {
    assert (beads + [l])[..|beads|] == beads;
    assert Flat(Restoring, beads + [l]) == Flat(Restoring, beads) + Restoring(l);
    var r := Attempt(Apply, t, Flat(Restoring, beads));
    AttemptConcat(Apply, t, Flat(Restoring, beads), Restoring(l));
    FirstPassNext(t, r.state, beads, l, r.done);
  }

  lemma FirstPassBegins(t: State)
    requires t.beads == map[]
    ensures FirstPasses(t, [])
  {
  }

  lemma SplitLast(steps: Listed -> seq<Write>, beads: seq<Listed>) returns (init: seq<Listed>, last: Listed)
    requires beads != [] && DistinctIds(beads)
    ensures beads == init + [last] && DistinctIds(init)
    ensures |init| < |beads| && |Flat(steps, init)| <= |Flat(steps, beads)|
  {
    init, last := beads[..|beads| - 1], beads[|beads| - 1];
  }

  lemma {:induction false} FirstPass(t: State, beads: seq<Listed>)
    requires t.beads == map[] && DistinctIds(beads) && t.quota >= |Flat(Restoring, beads)|
    ensures FirstPasses(t, beads)
    decreases |beads|
  {
    if beads == [] {
      FirstPassBegins(t);
    } else {
      var init, last := SplitLast(Restoring, beads);
      FirstPass(t, init);
      FirstPassStep(t, init, last);
    }
  }

  // ----- Edges by bead -----

  lemma {:induction false} RowsConcat(a: seq<Edge>, b: seq<Edge>, id: string)
    ensures Rows(a + b, id) == Rows(a, id) + Rows(b, id)
    decreases |b|
  {
    if b == [] {
      assert a + b == a;
    } else {
      RowsConcat(a, b[..|b| - 1], id);
      assert (a + b)[..|a + b| - 1] == a + b[..|b| - 1];
    }
  }

  lemma {:induction false} RowsLeave(edges: seq<Edge>, id: string)
    ensures forall i :: 0 <= i < |Rows(edges, id)| ==> Rows(edges, id)[i].issue == id
    ensures forall e :: e in Rows(edges, id) <==> e in edges && e.issue == id
  {
    if edges != [] { RowsLeave(edges[..|edges| - 1], id); }
  }

  lemma {:induction false} RowsOfOne(rows: seq<Edge>, id: string, x: string)
    requires forall i :: 0 <= i < |rows| ==> rows[i].issue == id
    ensures Rows(rows, x) == if x == id then rows else []
  {
    if rows != [] {
      var front, last := rows[..|rows| - 1], rows[|rows| - 1];
      assert last.issue == id && front + [last] == rows;
      RowsOfOne(front, id, x);
    }
  }

  lemma {:induction false} RowsKeyed(edges: seq<Edge>, id: string)
    requires EdgesKeyed(edges)
    ensures EdgesKeyed(Rows(edges, id))
  {
    if edges != [] {
      var n := |edges| - 1;
      RowsKeyed(edges[..n], id);
      RowsLeave(edges[..n], id);
      forall i | 0 <= i < |Rows(edges[..n], id)| && edges[n].issue == id
        ensures Rows(edges[..n], id)[i].target != edges[n].target
      {
        var e := Rows(edges[..n], id)[i];
        assert e in edges[..n];
        var j :| 0 <= j < n && edges[j] == e;
      }
    }
  }

  lemma KeyedAfter(edges: seq<Edge>, rows: seq<Edge>, id: string)
    requires EdgesKeyed(edges) && EdgesKeyed(rows) && Rows(edges, id) == []
    requires forall i :: 0 <= i < |rows| ==> rows[i].issue == id
    ensures EdgesKeyed(edges + rows)
  {
    RowsLeave(edges, id);
    forall i | 0 <= i < |edges| ensures edges[i].issue != id { assert edges[i] in edges; }
  }

  // ----- The second pass -----

  /** n writes have gone through, and each listed bead has got the edges and the live comments it has in s. */
  ghost predicate SecondPassed(t: State, u: State, s: State, beads: seq<Listed>, n: nat) {
    && n <= t.quota && u == t.(quota := t.quota - n, edges := u.edges, comments := u.comments)
    && EdgesKeyed(u.edges)
    && forall id :: (id in Ids(beads) ==> CarriesOver(u, s, id)) && (id !in Ids(beads) ==> Bare(u, id))
  }

  /** The bead has the edges it has in s, and its live comments, in order. */
  ghost predicate CarriesOver(u: State, s: State, id: string) {
    Rows(u.edges, id) == Rows(s.edges, id) && CommentsOf(u, id) == Copied(Live(CommentsOf(s, id)), u.scrub)
  }

  ghost predicate Bare(u: State, id: string) {
    Rows(u.edges, id) == [] && CommentsOf(u, id) == []
  }

  lemma AttachedCarries(t: State, u: State, s: State, l: Listed, n: nat)
    requires EdgesKeyed(t.edges) && EdgesKeyed(s.edges) && Bare(t, l.id)
    requires Attached(t, u, l.id, Rows(s.edges, l.id), Copied(Live(CommentsOf(s, l.id)), t.scrub), n)
    ensures EdgesKeyed(u.edges) && CarriesOver(u, s, l.id)
    ensures forall x :: x != l.id ==> Rows(u.edges, x) == Rows(t.edges, x) && CommentsOf(u, x) == CommentsOf(t, x)
  {
    var rows := Rows(s.edges, l.id);
    RowsLeave(s.edges, l.id);
    RowsKeyed(s.edges, l.id);
    KeyedAfter(t.edges, rows, l.id);
    forall x ensures Rows(u.edges, x) == Rows(t.edges, x) + if x == l.id then rows else [] {
      RowsConcat(t.edges, rows, x);
      RowsOfOne(rows, l.id, x);
    }
    assert [] + Copied(Live(CommentsOf(s, l.id)), t.scrub) == Copied(Live(CommentsOf(s, l.id)), t.scrub);
  }

  lemma SecondPassNext(t: State, u: State, s: State, beads: seq<Listed>, l: Listed, n: nat)
    requires SecondPassed(t, u, s, beads, n) && EdgesKeyed(s.edges) && l.id !in Ids(beads)
    requires l.id in t.beads && t.beads[l.id] == Restored(l, t.scrub) && n + |Attaching(s, l)| <= t.quota
    ensures Attempt(Apply, u, Attaching(s, l)).done == |Attaching(s, l)|
    ensures SecondPassed(t, Attempt(Apply, u, Attaching(s, l)).state, s, beads + [l], n + |Attaching(s, l)|)
  {
    AttachingKeyed(u, s, l);
    AttachingAdds(u, l, Rows(s.edges, l.id), Live(CommentsOf(s, l.id)));
    SecondPassAdds(t, u, Attempt(Apply, u, Attaching(s, l)).state, s, beads, l, n, |Attaching(s, l)|);
  }

  lemma AttachingKeyed(u: State, s: State, l: Listed)
    requires EdgesKeyed(u.edges) && EdgesKeyed(s.edges) && Bare(u, l.id)
    ensures EdgesKeyed(u.edges + Rows(s.edges, l.id))
  {
    RowsLeave(s.edges, l.id);
    RowsKeyed(s.edges, l.id);
    KeyedAfter(u.edges, Rows(s.edges, l.id), l.id);
  }

  lemma SecondPassAdds(t: State, u: State, v: State, s: State, beads: seq<Listed>, l: Listed, n: nat, k: nat)
    requires SecondPassed(t, u, s, beads, n) && EdgesKeyed(s.edges) && l.id !in Ids(beads) && n + k <= t.quota
    requires Attached(u, v, l.id, Rows(s.edges, l.id), Copied(Live(CommentsOf(s, l.id)), u.scrub), k)
    ensures SecondPassed(t, v, s, beads + [l], n + k)
  {
    AttachedCarries(u, v, s, l, k);
    CarriedThrough(u, v, s, beads, l);
  }

  lemma CarriedThrough(u: State, v: State, s: State, beads: seq<Listed>, l: Listed)
    requires v.scrub == u.scrub && CarriesOver(v, s, l.id)
    requires forall x :: x != l.id ==> Rows(v.edges, x) == Rows(u.edges, x) && CommentsOf(v, x) == CommentsOf(u, x)
    requires forall id :: (id in Ids(beads) ==> CarriesOver(u, s, id)) && (id !in Ids(beads) ==> Bare(u, id))
    ensures forall id :: (id in Ids(beads + [l]) ==> CarriesOver(v, s, id)) && (id !in Ids(beads + [l]) ==> Bare(v, id))
  {
    IdsNext(beads, l);
  }

  ghost predicate SecondPasses(t: State, s: State, beads: seq<Listed>) {
    var r := Attempt(Apply, t, Flat(AttachingFrom(s), beads));
    r.done == |Flat(AttachingFrom(s), beads)| && SecondPassed(t, r.state, s, beads, r.done)
  }

  lemma SecondPassBegins(t: State, s: State)
    requires t.edges == [] && t.comments == map[]
    ensures SecondPasses(t, s, [])
  {
  }

  lemma SecondPassStep(t: State, s: State, beads: seq<Listed>, l: Listed)
    requires SecondPasses(t, s, beads) && EdgesKeyed(s.edges) && l.id !in Ids(beads)
    requires l.id in t.beads && t.beads[l.id] == Restored(l, t.scrub)
    requires t.quota >= |Flat(AttachingFrom(s), beads + [l])|
    ensures SecondPasses(t, s, beads + [l])
  {
    var before := Flat(AttachingFrom(s), beads);
    assert (beads + [l])[..|beads|] == beads;
    assert AttachingFrom(s)(l) == Attaching(s, l);
    assert Flat(AttachingFrom(s), beads + [l]) == before + Attaching(s, l);
    var r := Attempt(Apply, t, before);
    AttemptConcat(Apply, t, before, Attaching(s, l));
    SecondPassNext(t, r.state, s, beads, l, r.done);
  }

  ghost predicate AllRestored(t: State, beads: seq<Listed>) {
    forall i :: 0 <= i < |beads| ==> beads[i].id in t.beads && t.beads[beads[i].id] == Restored(beads[i], t.scrub)
  }

  lemma RestoredParts(t: State, beads: seq<Listed>, l: Listed)
    requires AllRestored(t, beads + [l])
    ensures AllRestored(t, beads) && l.id in t.beads && t.beads[l.id] == Restored(l, t.scrub)
  {
    assert forall i :: 0 <= i < |beads| ==> (beads + [l])[i] == beads[i];
    assert (beads + [l])[|beads|] == l;
  }

  lemma {:induction false} SecondPass(t: State, s: State, beads: seq<Listed>)
    requires t.edges == [] && t.comments == map[] && EdgesKeyed(s.edges) && DistinctIds(beads)
    requires AllRestored(t, beads) && t.quota >= |Flat(AttachingFrom(s), beads)|
    ensures SecondPasses(t, s, beads)
    decreases |beads|
  {
    if beads == [] {
      SecondPassBegins(t, s);
    } else {
      var init, last := SplitLast(AttachingFrom(s), beads);
      NotYet(init, last);
      RestoredParts(t, init, last);
      SecondPass(t, s, init);
      SecondPassStep(t, s, init, last);
    }
  }

  // ----- The whole migration -----

  /** A store with nothing in it. */
  predicate Empty(t: State) {
    t.beads == map[] && t.edges == [] && t.comments == map[]
  }

  /** The store holds exactly the beads of s, restored, each with its edges and live comments. */
  ghost predicate HoldsAll(u: State, s: State, beads: seq<Listed>) {
    && u.beads.Keys == Ids(beads)
    && forall i :: 0 <= i < |beads| ==>
         beads[i].id in u.beads && u.beads[beads[i].id] == Restored(beads[i], u.scrub) && CarriesOver(u, s, beads[i].id)
  }

  /** With room for all its writes, migrating into an empty store goes through and copies everything. */
  lemma MigrationCopiesAll(t: State, s: State, beads: seq<Listed>)
    requires Empty(t) && Lists(beads, s) && EdgesKeyed(s.edges) && t.quota >= |Migration(s, beads)|
    ensures var Run(u, k) := Attempt(Apply, t, Migration(s, beads));
            k == |Migration(s, beads)| && HoldsAll(u, s, beads) && u.beads.Keys == s.beads.Keys
  {
    FirstPass(t, beads);
    assert FirstPasses(t, beads);
    var Run(t1, k1) := Attempt(Apply, t, Flat(Restoring, beads));
    AttemptConcat(Apply, t, Flat(Restoring, beads), Flat(AttachingFrom(s), beads));
    SecondPass(t1, s, beads);
    assert SecondPasses(t1, s, beads);
    ListedIds(beads, s);
    forall i | 0 <= i < |beads| ensures beads[i].id in Ids(beads) {
    }
  }

  lemma ListedIds(beads: seq<Listed>, s: State)
    requires Lists(beads, s)
    ensures Ids(beads) == s.beads.Keys
  {
    forall id | id in s.beads ensures id in Ids(beads) {
      var i :| 0 <= i < |beads| && beads[i].id == id;
    }
  }

  // ----- When verification accepts it -----

  /** What a bead needs for its restored copy to match: nothing to scrub, whole seconds, no empty external ref. */
  predicate Carried(l: Listed, scrub: string -> string) {
    && scrub(l.bead.title) == l.bead.title && scrub(l.bead.description) == l.bead.description
    && l.bead.externalRef != Some("")
    && l.bead.created % NANOS == 0 && l.bead.updated % NANOS == 0
  }

  lemma OwnerNormalises(owner: Option<string>)
    ensures Norm(if owner == Some("") then None else owner) == Norm(owner)
  {
  }

  lemma RestoredMatchesIff(l: Listed, scrub: string -> string)
    ensures SameFields(Restored(l, scrub), l.bead) <==> Carried(l, scrub)
  {
    OwnerNormalises(l.bead.owner);
  }

  lemma MatchesIff(u: State, s: State, l: Listed)
    requires l.id in s.beads && l.id in u.beads && u.beads[l.id] == Restored(l, u.scrub) && CarriesOver(u, s, l.id)
    ensures Matches(s, u, l) <==> Carried(l, u.scrub)
  {
    RestoredMatchesIff(l, u.scrub);
    assert TypedEdges(s, l.id) == TypedEdges(u, l.id);
  }

  /** What a migration of s leaves in t, when the comments of the beads in `unread` could not be read. */
  ghost function Migrated(t: State, s: State, beads: seq<Listed>, unread: set<string>): State {
    Attempt(Apply, t, Migration(Seen(s, unread), beads)).state
  }

  /**
   * Verifying right after a migration into an empty store succeeds exactly when no bead has an empty external ref,
   * a timestamp between seconds, or a title or description that the store scrubs. Edges, dangling ones included, and
   * every other field always survive; whether comments could be read makes no difference.
   */
  lemma MigrationVerifiesIff(t: State, s: State, beads: seq<Listed>, unread: set<string>)
    requires Empty(t) && Lists(beads, s) && EdgesKeyed(s.edges)
    requires t.quota >= |Migration(Seen(s, unread), beads)|
    ensures (forall i :: 0 <= i < |beads| ==> Matches(s, Migrated(t, s, beads, unread), beads[i])) <==>
            (forall i :: 0 <= i < |beads| ==> Carried(beads[i], t.scrub))
  {
    MigrationCopiesAll(t, Seen(s, unread), beads);
    MigrationKeepsScrub(t, Migration(Seen(s, unread), beads));
    var u := Migrated(t, s, beads, unread);
    forall i | 0 <= i < |beads| ensures Matches(s, u, beads[i]) <==> Carried(beads[i], t.scrub) {
      SeenMatchesIff(u, s, beads, unread, i);
    }
  }

  lemma SeenMatchesIff(u: State, s: State, beads: seq<Listed>, unread: set<string>, i: nat)
    requires Lists(beads, s) && HoldsAll(u, Seen(s, unread), beads) && i < |beads|
    ensures Matches(s, u, beads[i]) <==> Carried(beads[i], u.scrub)
  {
    MatchesIff(u, Seen(s, unread), beads[i]);
    assert TypedEdges(s, beads[i].id) == TypedEdges(Seen(s, unread), beads[i].id);
  }

  /**
   * The migration goes through, whatever comments cannot be read; a bead has its live comments exactly when they could
   * be read or there are none.
   */
  lemma UnreadCommentsAreLost(t: State, s: State, beads: seq<Listed>, unread: set<string>, i: nat)
    requires Empty(t) && Lists(beads, s) && EdgesKeyed(s.edges) && i < |beads|
    requires t.quota >= |Migration(Seen(s, unread), beads)|
    ensures Attempt(Apply, t, Migration(Seen(s, unread), beads)).done == |Migration(Seen(s, unread), beads)|
    ensures var id := beads[i].id;
            CommentsOf(Migrated(t, s, beads, unread), id) == Copied(Live(CommentsOf(s, id)), t.scrub) <==>
            id !in unread || Live(CommentsOf(s, id)) == []
  {
    MigrationCopiesAll(t, Seen(s, unread), beads);
    MigrationKeepsScrub(t, Migration(Seen(s, unread), beads));
    assert CarriesOver(Migrated(t, s, beads, unread), Seen(s, unread), beads[i].id);
    SeenComments(s, unread, beads[i].id);
    CopiedSome(Live(CommentsOf(s, beads[i].id)), t.scrub);
    CopiedSome([], t.scrub);
  }

  lemma CopiedSome(cs: seq<Comment>, scrub: string -> string)
    ensures Copied(cs, scrub) == [] <==> cs == []
  {
  }

  lemma {:induction false} MigrationKeepsScrub(t: State, writes: seq<Write>)
    ensures Attempt(Apply, t, writes).state.scrub == t.scrub
  {
    if writes != [] { MigrationKeepsScrub(t, writes[..|writes| - 1]); }
  }

  // ----- What a successful verification means -----

  /** No owner, or one of blanks only. */
  ghost predicate Unowned(owner: Option<string>) {
    owner.None? || AllSpace(owner.value)
  }

  /** Both unowned, or owned by the same text but for the whitespace around it. */
  ghost predicate SameOwner(a: Option<string>, b: Option<string>) {
    || (Unowned(a) && Unowned(b))
    || (!Unowned(a) && !Unowned(b) && exists core :: Core(a.value, core) && Core(b.value, core))
  }

  lemma NormIff(a: Option<string>, b: Option<string>)
    ensures Norm(a) == Norm(b) <==> SameOwner(a, b)
  {
    if a.Some? { BlankIff(a.value); }
    if b.Some? { BlankIff(b.value); }
    if a.Some? && b.Some? { SameCoreIff(a.value, b.value); }
  }

  /**
   * Field by field, the target's bead of that very id agrees with the source's, and each typed edge is there as often
   * in one store as in the other.
   */
  ghost predicate Agree(s: State, t: State, l: Listed) {
    && l.id in t.beads && SameOwner(t.beads[l.id].owner, l.bead.owner)
    && StateOf(t.beads[l.id].status) == StateOf(l.bead.status) && t.beads[l.id].externalRef == l.bead.externalRef
    && t.beads[l.id].created == l.bead.created && t.beads[l.id].updated == l.bead.updated
    && t.beads[l.id].title == l.bead.title && t.beads[l.id].description == l.bead.description
    && t.beads[l.id].details == l.bead.details && t.beads[l.id].derivedFrom == l.bead.derivedFrom
    && forall target, kind ::
         multiset(s.edges)[Edge(l.id, target, kind)] == multiset(t.edges)[Edge(l.id, target, kind)]
  }

  lemma RowsNext(front: seq<Edge>, last: Edge, id: string)
    ensures Rows(front + [last], id) == Rows(front, id) + if last.issue == id then [last] else []
  {
    assert (front + [last])[..|front|] == front;
  }

  lemma {:induction false} RowsCount(edges: seq<Edge>, id: string, e: Edge)
    requires e.issue == id
    ensures multiset(Rows(edges, id))[e] == multiset(edges)[e]
  {
    if edges != [] {
      var front, last := edges[..|edges| - 1], edges[|edges| - 1];
      assert edges == front + [last];
      RowsCount(front, id, e);
      RowsNext(front, last, id);
    }
  }

  ghost function Ends(rows: seq<Edge>): seq<(string, string)> {
    seq(|rows|, i requires 0 <= i < |rows| => (rows[i].target, rows[i].kind))
  }

  lemma {:induction false} EndsCount(rows: seq<Edge>, id: string, target: string, kind: string)
    requires forall i :: 0 <= i < |rows| ==> rows[i].issue == id
    ensures multiset(Ends(rows))[(target, kind)] == multiset(rows)[Edge(id, target, kind)]
  {
    if rows != [] {
      var front, last := rows[..|rows| - 1], rows[|rows| - 1];
      EndsCount(front, id, target, kind);
      assert rows == front + [last] && Ends(rows) == Ends(front) + [(last.target, last.kind)];
    }
  }

  lemma TypedEdgesCount(s: State, id: string, target: string, kind: string)
    requires id in s.beads
    ensures multiset(TypedEdges(s, id))[(target, kind)] == multiset(s.edges)[Edge(id, target, kind)]
  {
    RowsLeave(s.edges, id);
    RowsCount(s.edges, id, Edge(id, target, kind));
    EndsCount(Rows(s.edges, id), id, target, kind);
    assert TypedEdges(s, id) == Ends(Rows(s.edges, id));
  }

  /** The edge lists agree as the comparison of sorted lists has it exactly when each edge occurs as often in both. */
  lemma SameEdgesIff(s: State, t: State, id: string)
    requires id in s.beads && id in t.beads
    ensures multiset(TypedEdges(s, id)) == multiset(TypedEdges(t, id)) <==>
      forall target, kind :: multiset(s.edges)[Edge(id, target, kind)] == multiset(t.edges)[Edge(id, target, kind)]
  {
    var x, y := multiset(TypedEdges(s, id)), multiset(TypedEdges(t, id));
    forall target, kind ensures x[(target, kind)] == multiset(s.edges)[Edge(id, target, kind)] {
      TypedEdgesCount(s, id, target, kind);
    }
    forall target, kind ensures y[(target, kind)] == multiset(t.edges)[Edge(id, target, kind)] {
      TypedEdgesCount(t, id, target, kind);
    }
    if forall target, kind :: x[(target, kind)] == y[(target, kind)] {
      forall e ensures x[e] == y[e] { assert e == (e.0, e.1); }
    }
  }

  /**
   * With its edges read, a bead agrees with the target's bead of its id exactly when it passes verification and the
   * target has that id: the lookup also accepts a bead whose id merely ends in it.
   */
  lemma VerifiedMeansAgree(s: State, t: State, l: Listed, unread: set<string>, unreadThere: set<string>)
    requires l.id in s.beads && l.id !in unread + unreadThere
    ensures Agree(s, t, l) <==> Passes(s, t, l, unread, unreadThere) && l.id in t.beads
  {
    if l.id in t.beads {
      SameEdgesIff(s, t, l.id);
      NormIff(t.beads[l.id].owner, l.bead.owner);
    }
  }

  /** Edges that cannot be read in either store are not compared, and those of one store must then be none. */
  lemma UnreadEdgesPass(s: State, t: State, l: Listed, unread: set<string>, unreadThere: set<string>)
    requires l.id in unread + unreadThere && GetBead(t, l.id).Some? && SameFields(GetBead(t, l.id).value.1, l.bead)
    ensures Passes(s, t, l, unread, unreadThere) <==>
      (l.id !in unread ==> TypedEdges(s, l.id) == []) && (l.id !in unreadThere ==> TypedEdges(t, l.id) == [])
  {
    NoneOrSome(TypedEdges(s, l.id));
    NoneOrSome(TypedEdges(t, l.id));
  }

  lemma NoneOrSome<T>(xs: seq<T>)
    ensures multiset(xs) == multiset([]) <==> xs == []
  {
    if xs != [] { assert xs[0] in multiset(xs); }
  }

  /** Verification never looks at comments. */
  lemma VerifyIgnoresComments(s: State, t: State, l: Listed, comments: map<string, seq<Comment>>)
    ensures Matches(s, t.(comments := comments), l) <==> Matches(s, t, l)
  {
  }

  // ----- Beads that the verification rejects, and one that it should have -----

  /** A bead with an empty external ref: its migration goes through and its verification fails. */
  lemma EmptyRefIsRejected(quota: nat, like: (string, string) -> bool)
    ensures var l := Listed("a", Plain(Some("")));
            var s, t := Store(map["a" := l.bead], map[], 0, like), Store(map[], map[], quota, like);
            quota >= |Migration(Seen(s, {}), [l])| ==> !Matches(s, Migrated(t, s, [l], {}), l)
  {
    var l := Listed("a", Plain(Some("")));
    var s, t := Store(map["a" := l.bead], map[], 0, like), Store(map[], map[], quota, like);
    if quota >= |Migration(Seen(s, {}), [l])| {
      assert [l][0] == l;
      assert !Carried(l, t.scrub);
      MigrationVerifiesIff(t, s, [l], {});
    }
  }

  /** A target without the bead "abc", whose only bead "x-abc" passes for it. */
  lemma SuffixPasses()
    ensures var like := (q: string, id: string) => q == "x-" + id;
            var l := Listed("abc", Plain(None));
            var s, t := Store(map["abc" := l.bead], map[], 0, like), Store(map["x-abc" := l.bead], map[], 0, like);
            Matches(s, t, l) && !Agree(s, t, l)
  {
    var like := (q: string, id: string) => q == "x-" + id;
    var t := Store(map["x-abc" := Plain(None)], map[], 0, like);
    assert "x-" + "abc" == "x-abc";
    assert (set q | q in t.beads.Keys && like(q, "abc")) == {"x-abc"};
  }
}
