/** Copying a whole store into an empty one, and the field-level check that gates the switch to it. */
module BeadMigrate {
  import opened Text
  import opened ShortIds
  import opened BeadStore
  import opened Runs

  /** A bead as the store lists it. */
  datatype Listed = Listed(id: string, bead: Bead)

  /** The store's beads, each listed once. */
  ghost predicate Lists(beads: seq<Listed>, s: State) {
    && (forall i :: 0 <= i < |beads| ==> beads[i].id in s.beads && beads[i].bead == s.beads[beads[i].id])
    && (forall i, j :: 0 <= i < j < |beads| ==> beads[i].id != beads[j].id)
    && (forall id :: id in s.beads ==> exists i :: 0 <= i < |beads| && beads[i].id == id)
  }

  // ----- The writes of a migration -----

  function NewFrom(l: Listed): NewBead {
    NewBead(l.id, l.bead.title, l.bead.description, l.bead.details, l.bead.derivedFrom,
            if l.bead.owner.Some? then l.bead.owner.value else "")
  }

  function Restamp(l: Listed): seq<Write> {
    [RestoreTimestamps(l.id, l.bead.created, l.bead.updated)]
  }

  function Restatus(l: Listed): seq<Write> {
    if l.bead.status != "open" then [RestoreStatus(l.id, l.bead.status)] else []
  }

  function Rerefer(l: Listed): seq<Write> {
    match l.bead.externalRef
    case Some(reference) => if reference != "" then [SetExternalRef(l.id, reference)] else []
    case None => []
  }

  /** The first pass over a bead: the bead itself. */
  function Restoring(l: Listed): seq<Write> {
    [Create(NewFrom(l))] + (Restatus(l) + (Rerefer(l) + Restamp(l)))
  }

  /** The edges that leave a bead, in order. */
  function Rows(edges: seq<Edge>, id: string): seq<Edge> {
    if edges == [] then []
    else Rows(edges[..|edges| - 1], id) + if edges[|edges| - 1].issue == id then [edges[|edges| - 1]] else []
  }

  function Relinking(edges: seq<Edge>): seq<Write> {
    seq(|edges|, i requires 0 <= i < |edges| => RestoreDependency(edges[i]))
  }

  function RecommentingOne(id: string): Comment -> seq<Write> {
    (c: Comment) => AddComment(id, c.text, c.author)
  }

  function Recommenting(id: string, cs: seq<Comment>): seq<Write> {
    Flat(RecommentingOne(id), cs)
  }

  /** The second pass over a bead: its edges and live comments, then its timestamps again. */
  function Attaching(s: State, l: Listed): seq<Write> {
    Relinking(Rows(s.edges, l.id)) + (Recommenting(l.id, Live(CommentsOf(s, l.id))) + Restamp(l))
  }

  function AttachingFrom(s: State): Listed -> seq<Write> {
    l => Attaching(s, l)
  }

  function Migration(s: State, beads: seq<Listed>): seq<Write> {
    Flat(Restoring, beads) + Flat(AttachingFrom(s), beads)
  }

  // ----- Counts -----

  datatype Report = Report(
    beads: nat, dependencies: nat, crossRepoDependencies: nat, comments: nat, beadsWithAcceptance: nat)

  function WithAcceptance(beads: seq<Listed>): nat {
    if beads == [] then 0
    else WithAcceptance(beads[..|beads| - 1]) + if Trim(beads[|beads| - 1].bead.details.acceptance) != "" then 1 else 0
  }

  function Abroad(edges: seq<Edge>, local: set<string>): nat {
    if edges == [] then 0
    else Abroad(edges[..|edges| - 1], local) + if edges[|edges| - 1].target !in local then 1 else 0
  }

  function Ids(beads: seq<Listed>): set<string> {
    set i | 0 <= i < |beads| :: beads[i].id
  }

  /** The report once a bead's edges and live comments are copied. */
  function Tallied(r: Report, rows: seq<Edge>, cs: seq<Comment>, local: set<string>): Report {
    r.(dependencies := r.dependencies + |rows|,
       crossRepoDependencies := r.crossRepoDependencies + Abroad(rows, local),
       comments := r.comments + |cs|)
  }

  /** What the report counts: every bead, edge and live comment, and the edges whose target is not listed. */
  function Counted(s: State, all: seq<Listed>, beads: seq<Listed>): Report {
    if beads == [] then Report(|all|, 0, 0, 0, WithAcceptance(all))
    else
      var l := beads[|beads| - 1];
      Tallied(Counted(s, all, beads[..|beads| - 1]), Rows(s.edges, l.id), Live(CommentsOf(s, l.id)), Ids(all))
  }

  lemma CountedNext(s: State, all: seq<Listed>, i: nat)
    requires i < |all|
    ensures Counted(s, all, all[..i + 1])
            == Tallied(Counted(s, all, all[..i]), Rows(s.edges, all[i].id), Live(CommentsOf(s, all[i].id)), Ids(all))
  {
    assert all[..i + 1][..i] == all[..i];
  }

  /** A store as a migration reads it: the comments of the beads in `unread` cannot be read and count as none. */
  function Seen(s: State, unread: set<string>): State {
    s.(comments := s.comments - unread)
  }

  lemma SeenComments(s: State, unread: set<string>, id: string)
    ensures CommentsOf(Seen(s, unread), id) == if id in unread then [] else CommentsOf(s, id)
    ensures Live([]) == []
  {
  }

  // ----- The migration -----

  /** The writes ran from s up to the first that fails, ending in t; ok says whether all of them went through. */
  ghost predicate Applied(s: State, writes: seq<Write>, t: State, ok: bool) {
    t == Attempt(Apply, s, writes).state && (ok <==> Attempt(Apply, s, writes).done == |writes|)
  }

  method RestatusBead(target: BeadStore, l: Listed) returns (ok: bool)
    modifies target
    ensures Applied(old(target.state), Restatus(l), target.state, ok)
  {
    ok := true;
    if l.bead.status != "open" {
      AttemptOne(Apply, target.state, RestoreStatus(l.id, l.bead.status));
      ok := target.RestoreStatusOf(l.id, l.bead.status);
    }
  }

  method RereferBead(target: BeadStore, l: Listed) returns (ok: bool)
    modifies target
    ensures Applied(old(target.state), Rerefer(l), target.state, ok)
  {
    ok := true;
    if l.bead.externalRef.Some? && l.bead.externalRef.value != "" {
      AttemptOne(Apply, target.state, SetExternalRef(l.id, l.bead.externalRef.value));
      ok := target.SetReference(l.id, l.bead.externalRef.value);
    }
  }

  /** Creates a bead and restores what creation does not take. */
  method WriteBead(target: BeadStore, l: Listed) returns (ok: bool)
    modifies target
    ensures Applied(old(target.state), Restoring(l), target.state, ok)
  {
    Advance(Apply, target.state, [Create(NewFrom(l))], Restatus(l) + (Rerefer(l) + Restamp(l)));
    AttemptOne(Apply, target.state, Create(NewFrom(l)));
    ok := target.CreateBeadFull(NewFrom(l));
    if !ok { return; }
    Advance(Apply, target.state, Restatus(l), Rerefer(l) + Restamp(l));
    ok := RestatusBead(target, l);
    if !ok { return; }
    Advance(Apply, target.state, Rerefer(l), Restamp(l));
    ok := RereferBead(target, l);
    if !ok { return; }
    AttemptOne(Apply, target.state, RestoreTimestamps(l.id, l.bead.created, l.bead.updated));
    ok := target.RestoreTimes(l.id, l.bead.created, l.bead.updated);
  }

  method CopyEdges(target: BeadStore, edges: seq<Edge>, local: set<string>) returns (ok: bool, abroad: nat)
    modifies target
    ensures Applied(old(target.state), Relinking(edges), target.state, ok)
    ensures ok ==> abroad == Abroad(edges, local)
  {
    ghost var steps := Relinking(edges);
    assert steps[..0] == [] && edges[..0] == [];
    abroad := 0;
    for i := 0 to |edges|
      invariant Attempt(Apply, old(target.state), steps[..i]) == Run(target.state, i)
      invariant abroad == Abroad(edges[..i], local)
    {
      AttemptNext(Apply, old(target.state), steps, i, target.state);
      assert edges[..i + 1][..i] == edges[..i];
      ok := target.RestoreEdge(edges[i]);
      if !ok { return; }
      abroad := abroad + if edges[i].target !in local then 1 else 0;
    }
    assert steps[..|edges|] == steps && edges[..|edges|] == edges;
    ok := true;
  }

  method CopyComments(target: BeadStore, id: string, cs: seq<Comment>) returns (ok: bool)
    modifies target
    ensures Applied(old(target.state), Recommenting(id, cs), target.state, ok)
  {
    ghost var t0 := target.state;
    assert cs[..0] == [];
    for i := 0 to |cs|
      invariant Attempt(Apply, t0, Recommenting(id, cs[..i])) == Run(target.state, |Recommenting(id, cs[..i])|)
    {
      AttemptEach(Apply, t0, RecommentingOne(id), cs, i, target.state);
      ok := target.CommentOn(id, cs[i].text, cs[i].author);
      if !ok { return; }
    }
    assert cs[..|cs|] == cs;
    ok := true;
  }

  /** Copying comments touches the bead, so its timestamps are restored after. */
  method CopyCommentsOf(target: BeadStore, l: Listed, cs: seq<Comment>) returns (ok: bool)
    modifies target
    ensures Applied(old(target.state), Recommenting(l.id, cs) + Restamp(l), target.state, ok)
  {
    Advance(Apply, target.state, Recommenting(l.id, cs), Restamp(l));
    ok := CopyComments(target, l.id, cs);
    if !ok { return; }
    AttemptOne(Apply, target.state, RestoreTimestamps(l.id, l.bead.created, l.bead.updated));
    ok := target.RestoreTimes(l.id, l.bead.created, l.bead.updated);
  }

  /** Copies a bead's edges and live comments and restores its timestamps, counting what it copies. */
  method AttachBead(target: BeadStore, l: Listed, rows: seq<Edge>, cs: seq<Comment>, local: set<string>, report: Report)
    returns (ok: bool, next: Report)
    modifies target
    ensures Applied(old(target.state), Relinking(rows) + (Recommenting(l.id, cs) + Restamp(l)), target.state, ok)
    ensures ok ==> next == Tallied(report, rows, cs, local)
  {
    next := report;
    ghost var relink, rest := Relinking(rows), Recommenting(l.id, cs) + Restamp(l);
    Advance(Apply, target.state, relink, rest);
    assert |relink| == |rows|;
    var abroad;
    ok, abroad := CopyEdges(target, rows, local);
    if !ok { return; }
    ok := CopyCommentsOf(target, l, cs);
    next := report.(dependencies := report.dependencies + |rows|,
                    crossRepoDependencies := report.crossRepoDependencies + abroad,
                    comments := report.comments + |cs|);
  }

  /** The first pass. */
  method WriteBeads(target: BeadStore, beads: seq<Listed>) returns (ok: bool)
    modifies target
    ensures Applied(old(target.state), Flat(Restoring, beads), target.state, ok)
  {
    ghost var t0 := target.state;
    assert beads[..0] == [];
    for i := 0 to |beads|
      invariant Attempt(Apply, t0, Flat(Restoring, beads[..i])) == Run(target.state, |Flat(Restoring, beads[..i])|)
    {
      AttemptEach(Apply, t0, Restoring, beads, i, target.state);
      ok := WriteBead(target, beads[i]);
      if !ok { return; }
    }
    assert beads[..|beads|] == beads;
    ok := true;
  }

  /** The second pass, counting what it copies; a failure to read a bead's comments goes unnoticed. */
  method AttachBeads(s: State, unread: set<string>, target: BeadStore, beads: seq<Listed>)
    returns (ok: bool, report: Report)
    modifies target
    ensures Applied(old(target.state), Flat(AttachingFrom(Seen(s, unread)), beads), target.state, ok)
    ensures ok ==> report == Counted(Seen(s, unread), beads, beads)
  {
    ghost var t1, attach := target.state, AttachingFrom(Seen(s, unread));
    assert beads[..0] == [];
    var local := Ids(beads);
    report := Report(|beads|, 0, 0, 0, WithAcceptance(beads));
    for i := 0 to |beads|
      invariant Attempt(Apply, t1, Flat(attach, beads[..i])) == Run(target.state, |Flat(attach, beads[..i])|)
      invariant report == Counted(Seen(s, unread), beads, beads[..i])
    {
      AttemptEach(Apply, t1, attach, beads, i, target.state);
      CountedNext(Seen(s, unread), beads, i);
      SeenComments(s, unread, beads[i].id);
      var rows := Rows(s.edges, beads[i].id);
      var cs := if beads[i].id in unread then [] else Live(CommentsOf(s, beads[i].id));
      assert attach(beads[i]) == Relinking(rows) + (Recommenting(beads[i].id, cs) + Restamp(beads[i]));
      ok, report := AttachBead(target, beads[i], rows, cs, local, report);
      if !ok { return; }
    }
    assert beads[..|beads|] == beads;
    ok := true;
  }

  /** Copies the listed beads in two passes, stopping at the first write that fails. */
  method MigrateStore(source: BeadStore, unread: set<string>, target: BeadStore, beads: seq<Listed>)
    returns (r: Option<Report>)
    requires source != target
    modifies target
    ensures var seen := Seen(source.state, unread);
            var Run(t, k) := Attempt(Apply, old(target.state), Migration(seen, beads));
            && target.state == t
            && r == if k == |Migration(seen, beads)| then Some(Counted(seen, beads, beads)) else None
  {
    Advance(Apply, target.state, Flat(Restoring, beads), Flat(AttachingFrom(Seen(source.state, unread)), beads));
    var ok := WriteBeads(target, beads);
    if !ok { return None; }
    var report;
    ok, report := AttachBeads(source.state, unread, target, beads);
    r := if ok then Some(report) else None;
  }

  // ----- Verification -----

  /** An absent owner, an empty one and a blank one are the same. */
  function Norm(owner: Option<string>): Option<string> {
    match owner
    case Some(o) => if Trim(o) == "" then None else Some(Trim(o))
    case None => None
  }

  /** The typed edges of the bead an id names. */
  function TypedEdges(s: State, id: string): seq<(string, string)> {
    match Resolve(s.beads.Keys, s.like, id)
    case Some(full) => var rows := Rows(s.edges, full);
      seq(|rows|, i requires 0 <= i < |rows| => (rows[i].target, rows[i].kind))
    case None => []
  }

  predicate SameFields(t: Bead, b: Bead) {
    && t.title == b.title && t.description == b.description && t.details == b.details
    && StateOf(t.status) == StateOf(b.status) && Norm(t.owner) == Norm(b.owner)
    && t.externalRef == b.externalRef && t.derivedFrom == b.derivedFrom
    && t.created == b.created && t.updated == b.updated
  }

  /** The typed edges that verification gets to see: those that cannot be read count as none. */
  function EdgesRead(s: State, id: string, unread: set<string>): seq<(string, string)> {
    if id in unread then [] else TypedEdges(s, id)
  }

  /** The target has the bead, with the same fields and, as far as both can be read, the same typed edges. */
  predicate Passes(s: State, t: State, l: Listed, unread: set<string>, unreadThere: set<string>) {
    && GetBead(t, l.id).Some? && SameFields(GetBead(t, l.id).value.1, l.bead)
    && multiset(EdgesRead(s, l.id, unread)) == multiset(EdgesRead(t, l.id, unreadThere))
  }

  /** All edges can be read, and the bead passes. */
  predicate Matches(s: State, t: State, l: Listed) {
    Passes(s, t, l, {}, {})
  }

  method VerifyBead(source: BeadStore, target: BeadStore, l: Listed, unread: set<string>, unreadThere: set<string>)
    returns (ok: bool)
    ensures ok <==> Passes(source.state, target.state, l, unread, unreadThere)
  {
    var found := GetBead(target.state, l.id);
    if found.None? { return false; }
    var t, b := found.value.1, l.bead;
    if t.title != b.title || t.description != b.description || t.details != b.details { return false; }
    if StateOf(t.status) != StateOf(b.status) || Norm(t.owner) != Norm(b.owner) { return false; }
    if t.externalRef != b.externalRef || t.derivedFrom != b.derivedFrom { return false; }
    if t.created != b.created || t.updated != b.updated { return false; }
    var here := if l.id in unread then [] else TypedEdges(source.state, l.id);
    var there := if l.id in unreadThere then [] else TypedEdges(target.state, l.id);
    ok := multiset(here) == multiset(there);
  }

  /** Succeeds exactly when every source bead passes, and stops at the first that does not. */
  method VerifyMigration(source: BeadStore, target: BeadStore, beads: seq<Listed>,
                         unread: set<string>, unreadThere: set<string>)
    returns (ok: bool)
    ensures ok <==>
      forall i :: 0 <= i < |beads| ==> Passes(source.state, target.state, beads[i], unread, unreadThere)
  {
    for i := 0 to |beads|
      invariant forall j :: 0 <= j < i ==> Passes(source.state, target.state, beads[j], unread, unreadThere)
    {
      ok := VerifyBead(source, target, beads[i], unread, unreadThere);
      if !ok { return; }
    }
    ok := true;
  }
}
