/** The ports a pool remembers: which call they come from, and when they send it back to reconnect. */
module RepoPorts {
  import opened Text
  import opened RepoPool

  /** The directory runs a server whose port is no longer the one that was seen. */
  ghost predicate Moved(w: World, dir: string, port: nat) {
    dir in w.dolt && (dir !in w.ports || w.ports[dir] != port)
  }

  /** What a lookup answers: the pooled client unless its server moved, else the recorded directory if that opens. */
  lemma LookupMeans(s: PoolState, w: World, name: string)
    requires Coherent(s)
    ensures var (t, client) := Lookup(s, w, name);
            var served := name in s.clients
                          && (name in s.knownPorts ==> !Moved(w, s.clients[name].dir, s.knownPorts[name]));
            && (served ==> t == s && client == Some(s.clients[name]))
            && (!served ==> (client.Some? <==> name in s.beadsDirs && s.beadsDirs[name] in w.openable))
            && (!served && client.Some? ==> client.value.dir == s.beadsDirs[name])
            && (client.None? ==> t == s)
  {
  }

  /** The client of a name is the one a call opened in that world, and the port the one that was announced then. */
  ghost predicate OpenedIn(s: PoolState, w: World, name: string) {
    && name in s.clients && s.clients[name].dir in w.openable
    && (name in s.knownPorts <==> s.clients[name].dir in w.ports)
    && (name in s.knownPorts ==> s.knownPorts[name] == w.ports[s.clients[name].dir])
  }

  ghost predicate OpenedDuring(s: PoolState, events: seq<Event>, name: string) {
    exists i :: 0 <= i < |events| && events[i].request == Store(name) && OpenedIn(s, events[i].world, name)
  }

  /** Nothing is known of a name that was not known before. */
  ghost predicate NothingNew(s: PoolState, t: PoolState, name: string) {
    name in t.clients ==>
      && name in s.clients && t.clients[name] == s.clients[name]
      && EntryOf(t.knownPorts, name) == EntryOf(s.knownPorts, name)
  }

  lemma RecordAddsNothing(s: PoolState, repo: Repo, beads: set<string>, name: string)
    ensures NothingNew(s, Record(s, repo, beads), name)
  {
  }

  lemma {:induction false} RecordAllAddsNothing(s: PoolState, repos: seq<Repo>, beads: set<string>, name: string)
    ensures NothingNew(s, RecordAll(s, repos, beads), name)
  {
    if repos != [] {
      RecordAllAddsNothing(s, repos[..|repos| - 1], beads, name);
      RecordAddsNothing(RecordAll(s, repos[..|repos| - 1], beads), repos[|repos| - 1], beads, name);
    }
  }

  lemma FreshenedAddsNothing(p: Pool, w: World, name: string)
    ensures NothingNew(p.state, Freshened(p, w).state, name)
  {
    if Outdated(p, w) { RecordAllAddsNothing(p.state, w.config.value, w.beads, name); }
  }

  lemma ServeOpens(s: PoolState, w: World, r: Request, name: string)
    ensures NothingNew(s, Serve(s, w, r).0, name) || (r == Store(name) && OpenedIn(Serve(s, w, r).0, w, name))
  {
  }

  lemma GatedOpens(p: Pool, e: Event, name: string)
    ensures var t := Gated(p, e).0.state;
            NothingNew(p.state, t, name) || (e.request == Store(name) && OpenedIn(t, e.world, name))
  {
    FreshenedAddsNothing(p, e.world, name);
    ServeOpens(Freshened(p, e.world).state, e.world, e.request, name);
  }

  lemma OpenedKept(s: PoolState, t: PoolState, events: seq<Event>, last: Event, name: string)
    requires name in t.clients && NothingNew(s, t, name) && OpenedDuring(s, events, name)
    ensures OpenedDuring(t, events + [last], name)
  {
    var i :| 0 <= i < |events| && events[i].request == Store(name) && OpenedIn(s, events[i].world, name);
    assert (events + [last])[i] == events[i];
  }

  lemma OpenedNow(t: PoolState, events: seq<Event>, last: Event, name: string)
    requires last.request == Store(name) && OpenedIn(t, last.world, name)
    ensures OpenedDuring(t, events + [last], name)
  {
    assert (events + [last])[|events|] == last;
  }

  /**
   * After any run from a pool without clients, each pooled client was opened by a call of that run for its name, and
   * the pool remembers exactly the port that was announced at that call.
   */
  lemma {:induction false} PortsComeFromOpening(p: Pool, events: seq<Event>, name: string)
    requires p.state.clients == map[] && name in GatedRun(p, events).0.state.clients
    ensures OpenedDuring(GatedRun(p, events).0.state, events, name)
  {
    if events != [] {
      var front, last := events[..|events| - 1], events[|events| - 1];
      var q := GatedRun(p, front).0;
      GatedOpens(q, last, name);
      var t := Gated(q, last).0.state;
      assert events == front + [last];
      if NothingNew(q.state, t, name) {
        PortsComeFromOpening(p, front, name);
        OpenedKept(q.state, t, front, last, name);
      } else {
        OpenedNow(t, front, last, name);
      }
    }
  }

  /**
   * A client just opened in `w` is opened again in a later world exactly when its directory runs a server, announced
   * a port in `w`, and does not announce the same one now.
   */
  lemma ReopenedIff(s: PoolState, w: World, later: World, name: string)
    requires Coherent(s) && Reconnected(s, w, name).1.Some?
    ensures var t, dir := Reconnected(s, w, name).0, s.beadsDirs[name];
            && Coherent(t) && OpenedIn(t, w, name)
            && (PortStale(t, later, name) <==> dir in w.ports && Moved(later, dir, w.ports[dir]))
  {
  }
}
