/** Changes that leave the config file alone: exactly when the mtime gate makes a pool call answer differently. */
module RepoGaps {
  import opened Text
  import opened RepoPool

  /** The first call rescans when the config file is newer than at startup, or then had no mtime and has one now. */
  lemma FirstRescanIff(start: World, repos: seq<Repo>, w: World)
    ensures Outdated(Initial(start, repos), w) <==>
      w.config.Some? && w.mtime.Some? && w.mtime.value > 0 && (start.mtime.Some? ==> w.mtime.value > start.mtime.value)
  {
  }

  // ----- What a call answers -----

  predicate Stale(k: Known, w: World) {
    && k.port.Some? && k.dir.Some? && k.dir.value in w.dolt
    && EntryOf(w.ports, k.dir.value) != k.port
  }

  /** The answer, from what is known of the name alone. */
  function AnswerFrom(k: Known, w: World, r: Request): Answer {
    match r
    case PathOf(_) => PathAnswer(k.path)
    case Store(_) =>
      StoreAnswer(
        if !Stale(k, w) && k.client.Some? then k.client
        else if k.dir.Some? && k.dir.value in w.openable then Some(Client(k.dir.value))
        else None)
  }

  lemma ServesFromKnown(s: PoolState, w: World, r: Request)
    ensures Serve(s, w, r).1 == AnswerFrom(At(s, r.name), w, r)
  {
  }

  // ----- Where the two differ -----

  /** A rescan would leave the name as it is: recorded under its configured path, or not at all. */
  predicate SettledAt(k: Known, path: Option<string>, named: bool) {
    (path.Some? ==> k.path == path) && (k.path.Some? ==> named)
  }

  ghost predicate CoherentAt(k: Known) {
    && (k.path.Some? <==> k.dir.Some?) && (k.path.Some? ==> k.dir.value == BeadsDir(k.path.value))
    && (k.client.Some? ==> k.dir.Some? && k.client.value.dir == k.dir.value)
  }

  lemma CoherentEverywhere(s: PoolState, name: string)
    requires Coherent(s)
    ensures CoherentAt(At(s, name))
  {
  }

  /** The recorded directory, or the configured one, gives a client. */
  predicate SomeClient(k: Known, path: Option<string>, w: World) {
    || (k.client.Some? && !Stale(k, w))
    || (k.dir.Some? && k.dir.value in w.openable)
    || (path.Some? && BeadsDir(path.value) in w.openable)
  }

  lemma BeadsDirInjective(p: string, q: string)
    ensures BeadsDir(p) == BeadsDir(q) <==> p == q
  {
    assert BeadsDir(p)[..|p|] == p && BeadsDir(q)[..|q|] == q;
  }

  lemma AnswersDifferIff(k: Known, path: Option<string>, named: bool, w: World, r: Request)
    requires CoherentAt(k) && (path.Some? ==> named)
    ensures AnswerFrom(k, w, r) != AnswerFrom(Rescanned(k, path, named), w, r) <==>
      !SettledAt(k, path, named) && (r.PathOf? || SomeClient(k, path, w))
  {
    if path.Some? && k.path.Some? { BeadsDirInjective(path.value, k.path.value); }
  }

  /**
   * A call answers differently from one that rescans exactly when the config loads but its mtime has not risen, a
   * rescan would record another path for the name, a first one, or none, and, for a store, there is a client to get.
   */
  lemma GateDiffersIff(p: Pool, e: Event)
    requires Coherent(p.state) && (e.world.config.Some? ==> DistinctNames(e.world.config.value))
    ensures Gated(p, e).1 != Rescanning(p.state, e).1 <==>
      && !Outdated(p, e.world) && e.world.config.Some?
      && var k, repos := At(p.state, e.request.name), e.world.config.value;
         var path := Configured(repos, e.world.beads, e.request.name);
         && !SettledAt(k, path, e.request.name in Names(repos))
         && (e.request.PathOf? || SomeClient(k, path, e.world))
  {
    if !Outdated(p, e.world) && e.world.config.Some? {
      var name, repos, beads := e.request.name, e.world.config.value, e.world.beads;
      var path := Configured(repos, beads, name);
      RefreshAt(p.state, repos, beads, name);
      ServesFromKnown(p.state, e.world, e.request);
      ServesFromKnown(Refresh(p.state, repos, beads), e.world, e.request);
      CoherentEverywhere(p.state, name);
      if path.Some? { ConfiguredIsNamed(repos, beads, name); }
      AnswersDifferIff(At(p.state, name), path, name in Names(repos), e.world, e.request);
    }
  }

  /** A repository given its `.beads/` after startup, with the config file left alone: the pool still answers none. */
  lemma NewBeadsUnseen(mtime: nat)
    ensures var repos := [Repo("a", "p")];
            var start := World(Some(mtime), Some(repos), {}, {}, map[], {});
            var later := start.(beads := {"p"}, openable := {BeadsDir("p")});
            var e := Event(later, Store("a"));
            && Gated(Initial(start, repos), e).1 == StoreAnswer(None)
            && Rescanning(Initial(start, repos).state, e).1 == StoreAnswer(Some(Client(BeadsDir("p"))))
  {
    var repos := [Repo("a", "p")];
    var later := World(Some(mtime), Some(repos), {"p"}, {}, map[], {BeadsDir("p")});
    var none := RecordAll(NO_REPOS, repos, {});
    assert repos[..0] == [];
    RecordAllAt(NO_REPOS, repos, {}, "a");
    ServesFromKnown(none, later, Store("a"));
    RefreshAt(none, repos, {"p"}, "a");
    assert repos[0].name in Names(repos);
    ServesFromKnown(Refresh(none, repos, {"p"}), later, Store("a"));
  }
}
