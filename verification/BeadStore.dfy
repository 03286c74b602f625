/** A bead store: beads by id, typed dependency edges, and each bead's comments in order. */
module BeadStore {
  import opened Text
  import opened ShortIds
  import opened Runs

  // ----- Bead states -----

  datatype BeadState =
    Backlog | Open | Queued | Dispatched | Verifying | PrOpen | Done | Rejected | Blocked | Stale | DeadLetter

  /** The state a status string means; aliases are tolerated and anything unknown is open. */
  function StateOf(status: string): BeadState {
    if status == "backlog" then Backlog
    else if status == "queued" then Queued
    else if status == "dispatched" || status == "in_progress" then Dispatched
    else if status == "verifying" then Verifying
    else if status == "done" || status == "closed" then Done
    else if status == "rejected" then Rejected
    else if status == "blocked" then Blocked
    else if status == "stale" then Stale
    else if status == "pr_open" then PrOpen
    else if status == "dead_letter" || status == "deadletter" then DeadLetter
    else Open
  }

  function StateName(state: BeadState): (status: string)
    ensures StateOf(status) == state
    ensures status in ["backlog", "open", "queued", "dispatched", "verifying", "pr_open", "done", "rejected", "blocked",
                       "stale", "dead_letter"]
  {
    match state
    case Backlog => "backlog"
    case Open => "open"
    case Queued => "queued"
    case Dispatched => "dispatched"
    case Verifying => "verifying"
    case PrOpen => "pr_open"
    case Done => "done"
    case Rejected => "rejected"
    case Blocked => "blocked"
    case Stale => "stale"
    case DeadLetter => "dead_letter"
  }

  // ----- Beads -----

  datatype Provenance = Manual(note: string) | Cited(reference: string)

  /** The fields `create_bead_full` takes as they are given. */
  datatype Details = Details(
    priority: int, issueType: string, files: seq<string>, testFiles: seq<string>,
    createdBy: Option<string>, scope: string, acceptance: string)

  /** Instants are nanoseconds since the epoch. */
  datatype Bead = Bead(
    title: string, description: string, details: Details, derivedFrom: seq<Provenance>,
    status: string, owner: Option<string>, externalRef: Option<string>, created: int, updated: int)

  /** A bead to create, without dependencies. */
  datatype NewBead = NewBead(
    id: string, title: string, description: string, details: Details, derivedFrom: seq<Provenance>, owner: string)

  datatype Comment = Comment(author: string, text: string, deleted: bool)

  datatype Edge = Edge(issue: string, target: string, kind: string)

  /**
   * `quota` more writes go through before one fails; `clock` is the time the store reads when so many are left.
   * `scrub` redacts secrets, and `like(q, id)` says that q matches '%-<id>'.
   */
  datatype State = State(
    beads: map<string, Bead>, edges: seq<Edge>, comments: map<string, seq<Comment>>,
    quota: nat, clock: nat -> int, scrub: string -> string, like: (string, string) -> bool)

  const NANOS := 1_000_000_000

  /** The store keeps timestamps to the second. */
  function WholeSeconds(t: int): int {
    t - t % NANOS
  }

  function Now(s: State): int {
    WholeSeconds(s.clock(s.quota))
  }

  function CommentsOf(s: State, id: string): seq<Comment> {
    if id in s.comments then s.comments[id] else []
  }

  /** The comments that are not deleted. */
  function Live(cs: seq<Comment>): seq<Comment> {
    if cs == [] then [] else Live(cs[..|cs| - 1]) + if cs[|cs| - 1].deleted then [] else [cs[|cs| - 1]]
  }

  /** Comments as a store that they are added to keeps them. */
  ghost function Copied(cs: seq<Comment>, scrub: string -> string): seq<Comment> {
    seq(|cs|, i requires 0 <= i < |cs| => Comment(cs[i].author, scrub(cs[i].text), false))
  }

  function GetBead(s: State, id: string): (r: Option<(string, Bead)>)
    ensures id in s.beads ==> r == Some((id, s.beads[id]))
    ensures r.Some? ==> r.value.0 in s.beads && s.beads[r.value.0] == r.value.1
  {
    match Resolve(s.beads.Keys, s.like, id)
    case Some(full) => Some((full, s.beads[full]))
    case None => None
  }

  // ----- Writes, as functions of the state -----

  datatype Write =
    | Create(bead: NewBead)
    | Close(id: string)
    | SetExternalRef(id: string, reference: string)
    | InsertComment(id: string, text: string, author: string)
    | Touch(id: string)
    | RestoreStatus(id: string, status: string)
    | RestoreTimestamps(id: string, created: int, updated: int)
    | RestoreDependency(edge: Edge)

  /** A created bead: open, stamped now, its title and description scrubbed, and unowned when the owner is empty. */
  function Created(s: State, b: NewBead): Bead {
    Bead(s.scrub(b.title), s.scrub(b.description), b.details, b.derivedFrom,
         "open", if b.owner == "" then None else Some(b.owner), None, Now(s), Now(s))
  }

  /** The bead after a write that updates one of its fields. */
  function Updated(s: State, b: Bead, w: Write): Bead {
    match w
    case Close(_) => b.(status := "done", updated := Now(s))
    case SetExternalRef(_, reference) => b.(externalRef := Some(reference), updated := Now(s))
    case Touch(_) => b.(updated := Now(s))
    case RestoreStatus(_, status) => b.(status := StateName(StateOf(status)), updated := Now(s))
    case RestoreTimestamps(_, created, updated) =>
      b.(created := WholeSeconds(created), updated := WholeSeconds(updated))
    case _ => b
  }

  /** Upserts an edge: its kind is replaced where it stands, and a new edge goes last. */
  function Linked(edges: seq<Edge>, e: Edge): seq<Edge> {
    if edges == [] then [e]
    else if edges[0].issue == e.issue && edges[0].target == e.target then [e] + edges[1..]
    else [edges[0]] + Linked(edges[1..], e)
  }

  function Appended(s: State, id: string, c: Comment): map<string, seq<Comment>> {
    s.comments[id := CommentsOf(s, id) + [c]]
  }

  /** The state after a write, or None when the write fails. */
  function Apply(s: State, w: Write): Option<State> {
    if s.quota == 0 then None
    else
      var t := s.(quota := s.quota - 1);
      match w
      case Create(b) =>
        if b.id in s.beads then None else Some(t.(beads := s.beads[b.id := Created(s, b)]))
      case RestoreDependency(e) =>
        Some(t.(edges := Linked(s.edges, e)))
      case InsertComment(id, text, author) =>
        var full := Resolve(s.beads.Keys, s.like, id);
        if full.None? then None
        else Some(t.(comments := Appended(s, full.value, Comment(author, s.scrub(text), false))))
      case _ =>
        var full := Resolve(s.beads.Keys, s.like, w.id);
        if full.None? then None
        else Some(t.(beads := s.beads[full.value := Updated(s, s.beads[full.value], w)]))
  }

  /** Adding a comment is two writes: the comment, and then its bead's timestamp. */
  function AddComment(id: string, text: string, author: string): seq<Write> {
    [InsertComment(id, text, author), Touch(id)]
  }

  // ----- The store -----

  class BeadStore {
    var state: State

    constructor (state: State)
      ensures this.state == state
    {
      this.state := state;
    }

    /** What a single write promises: it happens whole, or it fails and changes nothing. */
    twostate predicate Does(w: Write, ok: bool)
      reads this
    {
      match Apply(old(state), w)
      case None => !ok && state == old(state)
      case Some(next) => ok && state == next
    }

    method CreateBeadFull(b: NewBead) returns (ok: bool)
      modifies this
      ensures Does(Create(b), ok)
    {
      if state.quota == 0 || b.id in state.beads { return false; }
      var bead := Bead(state.scrub(b.title), state.scrub(b.description), b.details, b.derivedFrom,
                       "open", None, None, Now(state), Now(state));
      if b.owner != "" {
        bead := bead.(owner := Some(b.owner));
      }
      state := state.(quota := state.quota - 1, beads := state.beads[b.id := bead]);
      ok := true;
    }

    method CloseBead(id: string) returns (ok: bool)
      modifies this
      ensures Does(Close(id), ok)
    {
      ok := Update(Close(id));
    }

    method SetReference(id: string, reference: string) returns (ok: bool)
      modifies this
      ensures Does(SetExternalRef(id, reference), ok)
    {
      ok := Update(SetExternalRef(id, reference));
    }

    method RestoreStatusOf(id: string, status: string) returns (ok: bool)
      modifies this
      ensures Does(RestoreStatus(id, status), ok)
    {
      ok := Update(RestoreStatus(id, status));
    }

    method RestoreTimes(id: string, created: int, updated: int) returns (ok: bool)
      modifies this
      ensures Does(RestoreTimestamps(id, created, updated), ok)
    {
      ok := Update(RestoreTimestamps(id, created, updated));
    }

    /** The single-row updates: resolve the id, then rewrite that bead's fields. */
    method Update(w: Write) returns (ok: bool)
      requires w.Close? || w.SetExternalRef? || w.RestoreStatus? || w.RestoreTimestamps? || w.Touch?
      modifies this
      ensures Does(w, ok)
    {
      var full := Resolve(state.beads.Keys, state.like, w.id);
      if state.quota == 0 || full.None? { return false; }
      var b := state.beads[full.value];
      state := state.(quota := state.quota - 1, beads := state.beads[full.value := Updated(state, b, w)]);
      ok := true;
    }

    method AppendComment(id: string, text: string, author: string) returns (ok: bool)
      modifies this
      ensures Does(InsertComment(id, text, author), ok)
    {
      var full := Resolve(state.beads.Keys, state.like, id);
      if state.quota == 0 || full.None? { return false; }
      var cs := CommentsOf(state, full.value) + [Comment(author, state.scrub(text), false)];
      state := state.(quota := state.quota - 1, comments := state.comments[full.value := cs]);
      ok := true;
    }

    /**
     * Appends a scrubbed comment and touches its bead, under one lock, so that the id names the same bead twice.
     * When only the second write fails, the comment stays and the call still reports an error.
     */
    method CommentOn(id: string, text: string, author: string) returns (ok: bool)
      modifies this
      ensures var Run(t, k) := Attempt(Apply, old(state), AddComment(id, text, author)); state == t && ok == (k == 2)
    {
      AttemptTwo(Apply, state, InsertComment(id, text, author), Touch(id));
      ok := AppendComment(id, text, author);
      if !ok { return; }
      ok := Update(Touch(id));
    }

    /** Inserts an edge verbatim, whether or not its target is a bead of this store. */
    method RestoreEdge(e: Edge) returns (ok: bool)
      modifies this
      ensures Does(RestoreDependency(e), ok)
    {
      if state.quota == 0 { return false; }
      state := state.(quota := state.quota - 1, edges := Linked(state.edges, e));
      ok := true;
    }
  }
}
