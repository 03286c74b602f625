/** The connection pool and its mtime-gated config rescan. Each pool call is one atomic step. */
module RepoPool {
  import opened Text

  datatype Repo = Repo(name: string, path: string)

  /**
   * What a call sees: the config file's mtime, its repositories (none when it does not load), the paths that
   * hold a `.beads/`, which directories are Dolt-backed, announce a port, and open.
   */
  datatype World = World(
    mtime: Option<nat>, config: Option<seq<Repo>>, beads: set<string>,
    dolt: set<string>, ports: map<string, nat>, openable: set<string>)

  /** An open store, known by the directory it was opened from. */
  datatype Client = Client(dir: string)

  datatype PoolState = PoolState(
    clients: map<string, Client>, paths: map<string, string>,
    beadsDirs: map<string, string>, knownPorts: map<string, nat>)

  const NO_REPOS := PoolState(map[], map[], map[], map[])

  function BeadsDir(path: string): string {
    path + "/.beads"
  }

  // ----- Rescanning, as a function of the state -----

  function Forget(s: PoolState, names: set<string>): PoolState {
    PoolState(s.clients - names, s.paths - names, s.beadsDirs - names, s.knownPorts - names)
  }

  function Record(s: PoolState, repo: Repo, beads: set<string>): PoolState {
    if repo.path !in beads then s
    else
      var moved := repo.name !in s.paths || s.paths[repo.name] != repo.path;
      var t := s.(paths := s.paths[repo.name := repo.path], beadsDirs := s.beadsDirs[repo.name := BeadsDir(repo.path)]);
      if moved then t.(clients := s.clients - {repo.name}, knownPorts := s.knownPorts - {repo.name}) else t
  }

  function RecordAll(s: PoolState, repos: seq<Repo>, beads: set<string>): PoolState {
    if repos == [] then s else Record(RecordAll(s, repos[..|repos| - 1], beads), repos[|repos| - 1], beads)
  }

  function Names(repos: seq<Repo>): set<string> {
    set k | 0 <= k < |repos| :: repos[k].name
  }

  /** Record every configured repository that has beads, then forget the ones no longer configured. */
  function Refresh(s: PoolState, repos: seq<Repo>, beads: set<string>): PoolState {
    var t := RecordAll(s, repos, beads);
    Forget(t, t.paths.Keys - Names(repos))
  }

  // ----- Calls, as functions of the state -----

  datatype Pool = Pool(mtime: nat, state: PoolState)

  predicate Outdated(p: Pool, w: World) {
    w.mtime.Some? && w.config.Some? && w.mtime.value > p.mtime
  }

  function Freshened(p: Pool, w: World): Pool {
    if Outdated(p, w) then Pool(w.mtime.value, Refresh(p.state, w.config.value, w.beads)) else p
  }

  predicate PortStale(s: PoolState, w: World, name: string) {
    && name in s.knownPorts && name in s.beadsDirs && s.beadsDirs[name] in w.dolt
    && (s.beadsDirs[name] !in w.ports || w.ports[s.beadsDirs[name]] != s.knownPorts[name])
  }

  /** Open the recorded directory and remember its port; an unknown name or a failed open changes nothing. */
  function Reconnected(s: PoolState, w: World, name: string): (PoolState, Option<Client>) {
    if name !in s.beadsDirs || s.beadsDirs[name] !in w.openable then (s, None)
    else
      var dir := s.beadsDirs[name];
      var ports :=
        if dir in w.ports then s.knownPorts[name := w.ports[dir]] else s.knownPorts - {name};
      (s.(clients := s.clients[name := Client(dir)], knownPorts := ports), Some(Client(dir)))
  }

  function Lookup(s: PoolState, w: World, name: string): (PoolState, Option<Client>) {
    if !PortStale(s, w, name) && name in s.clients then (s, Some(s.clients[name]))
    else if !PortStale(s, w, name) && name !in s.beadsDirs then (s, None)
    else Reconnected(s, w, name)
  }

  // ----- The pool -----

  class RepoPool {
    const configured: bool
    var configMtime: nat
    var state: PoolState

    ghost function View(): Pool
      reads this
    {
      Pool(configMtime, state)
    }

    /** Records the configured repositories that have beads; connects nothing. */
    constructor FromConfig(w: World, repos: seq<Repo>)
      requires w.config == Some(repos)
      ensures configured && View() == Initial(w, repos)
    {
      configured := true;
      configMtime := if w.mtime.Some? then w.mtime.value else 0;
      var s := NO_REPOS;
      for i := 0 to |repos|
        invariant s == RecordAll(NO_REPOS, repos[..i], w.beads)
      {
        assert repos[..i + 1][..i] == repos[..i];
        s := Record(s, repos[i], w.beads);
      }
      assert repos[..|repos|] == repos;
      state := s;
    }

    method EnsureFresh(w: World)
      modifies this
      ensures View() == if configured then Freshened(old(View()), w) else old(View())
    {
      if !configured || w.mtime == None || w.mtime.value <= configMtime || w.config == None {
        return;
      }
      var repos := w.config.value;
      var s := state;
      var seen: set<string> := {};
      for i := 0 to |repos|
        invariant s == RecordAll(old(state), repos[..i], w.beads)
        invariant seen == Names(repos[..i])
      {
        assert repos[..i + 1][..i] == repos[..i];
        NamesNext(repos, i);
        s := Record(s, repos[i], w.beads);
        seen := seen + {repos[i].name};
      }
      assert repos[..|repos|] == repos;
      var gone := s.paths.Keys - seen;
      ghost var all, allGone := s, gone;
      while gone != {}
        invariant gone <= allGone && s == Forget(all, allGone - gone)
      {
        var name :| name in gone;
        ForgetMore(all, allGone - gone, name);
        gone := gone - {name};
        assert allGone - gone == allGone - (gone + {name}) + {name};
        s := Forget(s, {name});
      }
      assert allGone - {} == allGone;
      state := s;
      configMtime := w.mtime.value;
    }

    method PathFor(w: World, name: string) returns (path: Option<string>)
      modifies this
      ensures View() == if configured then Freshened(old(View()), w) else old(View())
      ensures path == if name in state.paths then Some(state.paths[name]) else None
    {
      EnsureFresh(w);
      path := if name in state.paths then Some(state.paths[name]) else None;
    }

    method ReapAndReconnect(w: World, name: string) returns (client: Option<Client>)
      modifies this`state
      ensures (state, client) == Reconnected(old(state), w, name)
    {
      if name !in state.beadsDirs || state.beadsDirs[name] !in w.openable {
        return None;
      }
      var dir := state.beadsDirs[name];
      var ports := state.knownPorts - {name};
      if dir in w.ports {
        ports := state.knownPorts[name := w.ports[dir]];
      }
      state := state.(clients := state.clients[name := Client(dir)], knownPorts := ports);
      client := Some(Client(dir));
    }

    method Get(w: World, name: string) returns (client: Option<Client>)
      modifies this
      ensures var p := if configured then Freshened(old(View()), w) else old(View());
              configMtime == p.mtime && (state, client) == Lookup(p.state, w, name)
    {
      EnsureFresh(w);
      if !PortStale(state, w, name) {
        if name in state.clients {
          return Some(state.clients[name]);
        }
        if name !in state.beadsDirs {
          return None;
        }
      }
      client := ReapAndReconnect(w, name);
    }
  }

  function Initial(w: World, repos: seq<Repo>): Pool {
    Pool(if w.mtime.Some? then w.mtime.value else 0, RecordAll(NO_REPOS, repos, w.beads))
  }

  lemma NamesNext(repos: seq<Repo>, i: nat)
    requires i < |repos|
    ensures Names(repos[..i + 1]) == Names(repos[..i]) + {repos[i].name}
  {
    assert repos[..i + 1] == repos[..i] + [repos[i]];
    NamesAppend(repos[..i], repos[i]);
  }

  lemma NamesAppend(repos: seq<Repo>, repo: Repo)
    ensures Names(repos + [repo]) == Names(repos) + {repo.name}
  {
    var all := repos + [repo];
    forall n | n in Names(repos) ensures n in Names(all) {
      var k :| 0 <= k < |repos| && repos[k].name == n;
      assert all[k].name == n;
    }
    assert all[|repos|].name == repo.name;
  }

  lemma ForgetMore(s: PoolState, names: set<string>, name: string)
    ensures Forget(Forget(s, names), {name}) == Forget(s, names + {name})
  {
  }

  // ----- Runs -----

  datatype Request = PathOf(name: string) | Store(name: string)
  datatype Event = Event(world: World, request: Request)
  datatype Answer = PathAnswer(path: Option<string>) | StoreAnswer(client: Option<Client>)

  /** What a request does and answers once the state is as fresh as it is going to be. */
  function Serve(s: PoolState, w: World, r: Request): (PoolState, Answer) {
    match r
    case PathOf(name) => (s, PathAnswer(if name in s.paths then Some(s.paths[name]) else None))
    case Store(name) => var (t, client) := Lookup(s, w, name); (t, StoreAnswer(client))
  }

  function Gated(p: Pool, e: Event): (Pool, Answer) {
    var q := Freshened(p, e.world);
    var (t, answer) := Serve(q.state, e.world, e.request);
    (Pool(q.mtime, t), answer)
  }

  /** The reference: rescan whenever the config loads, whatever its mtime. */
  function Rescanning(s: PoolState, e: Event): (PoolState, Answer) {
    var current := if e.world.config.Some? then Refresh(s, e.world.config.value, e.world.beads) else s;
    Serve(current, e.world, e.request)
  }

  function GatedRun(p: Pool, events: seq<Event>): (Pool, seq<Answer>) {
    if events == [] then (p, [])
    else
      var (q, answers) := GatedRun(p, events[..|events| - 1]);
      var (r, answer) := Gated(q, events[|events| - 1]);
      (r, answers + [answer])
  }

  function RescanningRun(s: PoolState, events: seq<Event>): (PoolState, seq<Answer>) {
    if events == [] then (s, [])
    else
      var (t, answers) := RescanningRun(s, events[..|events| - 1]);
      var (u, answer) := Rescanning(t, events[|events| - 1]);
      (u, answers + [answer])
  }

  // ----- Clients always belong to the recorded directory -----

  ghost predicate Coherent(s: PoolState) {
    && s.paths.Keys == s.beadsDirs.Keys
    && (forall n :: n in s.paths ==> s.beadsDirs[n] == s.paths[n] + "/.beads")
    && (forall n :: n in s.clients ==> n in s.beadsDirs && s.clients[n].dir == s.beadsDirs[n])
    && s.knownPorts.Keys <= s.clients.Keys
  }

  lemma RecordCoherent(s: PoolState, repo: Repo, beads: set<string>)
    requires Coherent(s)
    ensures Coherent(Record(s, repo, beads))
  {
  }

  lemma {:induction false} RecordAllCoherent(s: PoolState, repos: seq<Repo>, beads: set<string>)
    requires Coherent(s)
    ensures Coherent(RecordAll(s, repos, beads))
  {
    if repos != [] {
      RecordAllCoherent(s, repos[..|repos| - 1], beads);
      RecordCoherent(RecordAll(s, repos[..|repos| - 1], beads), repos[|repos| - 1], beads);
    }
  }

  lemma ForgetCoherent(s: PoolState, names: set<string>)
    requires Coherent(s)
    ensures Coherent(Forget(s, names))
  {
  }

  lemma RefreshCoherent(s: PoolState, repos: seq<Repo>, beads: set<string>)
    requires Coherent(s)
    ensures Coherent(Refresh(s, repos, beads))
  {
    RecordAllCoherent(s, repos, beads);
    var t := RecordAll(s, repos, beads);
    ForgetCoherent(t, t.paths.Keys - Names(repos));
  }

  lemma ServeCoherent(s: PoolState, w: World, r: Request)
    requires Coherent(s)
    ensures Coherent(Serve(s, w, r).0)
    ensures Serve(s, w, r).0.paths == s.paths && Serve(s, w, r).0.beadsDirs == s.beadsDirs
  {
  }

  /** In every state any run reaches, each pooled client was opened from the directory recorded for its name. */
  lemma {:induction false} ClientsMatchRecords(p: Pool, events: seq<Event>)
    requires Coherent(p.state)
    ensures Coherent(GatedRun(p, events).0.state)
  {
    if events != [] {
      var e := events[|events| - 1];
      ClientsMatchRecords(p, events[..|events| - 1]);
      var q := GatedRun(p, events[..|events| - 1]).0;
      if Outdated(q, e.world) { RefreshCoherent(q.state, e.world.config.value, e.world.beads); }
      ServeCoherent(Freshened(q, e.world).state, e.world, e.request);
    }
  }

  // ----- What the pool knows of one name -----

  ghost predicate DistinctNames(repos: seq<Repo>) {
    forall i, j :: 0 <= i < j < |repos| ==> repos[i].name != repos[j].name
  }

  datatype Known = Known(client: Option<Client>, path: Option<string>, dir: Option<string>, port: Option<nat>)

  function EntryOf<V>(m: map<string, V>, name: string): Option<V> {
    if name in m then Some(m[name]) else None
  }

  function At(s: PoolState, name: string): Known {
    Known(EntryOf(s.clients, name), EntryOf(s.paths, name), EntryOf(s.beadsDirs, name), EntryOf(s.knownPorts, name))
  }

  /** The path configured for a name, where that holds a `.beads/`. */
  function Configured(repos: seq<Repo>, beads: set<string>, name: string): Option<string> {
    if repos == [] then None
    else
      var repo := repos[|repos| - 1];
      if repo.name == name && repo.path in beads then Some(repo.path)
      else Configured(repos[..|repos| - 1], beads, name)
  }

  /** Recording a path again leaves the client alone; recording another one drops it. */
  function Recorded(k: Known, path: string): Known {
    if k.path == Some(path) then k.(dir := Some(BeadsDir(path)))
    else Known(None, Some(path), Some(BeadsDir(path)), None)
  }

  function RecordedIf(k: Known, path: Option<string>): Known {
    match path
    case Some(p) => Recorded(k, p)
    case None => k
  }

  lemma RecordAt(s: PoolState, repo: Repo, beads: set<string>, name: string)
    ensures At(Record(s, repo, beads), name)
            == if repo.name == name && repo.path in beads then Recorded(At(s, name), repo.path) else At(s, name)
  {
  }

  lemma {:induction false} ConfiguredIsNamed(repos: seq<Repo>, beads: set<string>, name: string)
    requires Configured(repos, beads, name).Some?
    ensures exists k :: 0 <= k < |repos| && repos[k].name == name && repos[k].path in beads
                        && repos[k].path == Configured(repos, beads, name).value
    ensures name in Names(repos)
  {
    var n := |repos| - 1;
    if repos[n].name != name || repos[n].path !in beads {
      ConfiguredIsNamed(repos[..n], beads, name);
      var k :| 0 <= k < n && repos[..n][k].name == name && repos[..n][k].path in beads
        && repos[..n][k].path == Configured(repos, beads, name).value;
      assert repos[k] == repos[..n][k];
    }
  }

  lemma {:induction false} RecordAllAt(s: PoolState, repos: seq<Repo>, beads: set<string>, name: string)
    requires DistinctNames(repos)
    ensures At(RecordAll(s, repos, beads), name) == RecordedIf(At(s, name), Configured(repos, beads, name))
  {
    if repos != [] {
      var n := |repos| - 1;
      RecordAllAt(s, repos[..n], beads, name);
      RecordAt(RecordAll(s, repos[..n], beads), repos[n], beads, name);
      if repos[n].name == name && Configured(repos[..n], beads, name).Some? {
        ConfiguredIsNamed(repos[..n], beads, name);
        assert false;
      }
    }
  }

  const NOTHING := Known(None, None, None, None)

  /** What a rescan makes of it: the configured path if it has beads; else nothing changes, or it is forgotten. */
  function Rescanned(k: Known, path: Option<string>, named: bool): Known {
    var t := RecordedIf(k, path);
    if named || t.path.None? then t else NOTHING
  }

  lemma RefreshAt(s: PoolState, repos: seq<Repo>, beads: set<string>, name: string)
    requires DistinctNames(repos)
    ensures At(Refresh(s, repos, beads), name)
            == Rescanned(At(s, name), Configured(repos, beads, name), name in Names(repos))
  {
    RecordAllAt(s, repos, beads, name);
  }

  // ----- The mtime gate loses nothing -----

  /** A rescan would find nothing to do. */
  ghost predicate Settled(s: PoolState, repos: seq<Repo>, beads: set<string>) {
    && (forall k :: 0 <= k < |repos| && repos[k].path in beads ==>
          repos[k].name in s.paths && s.paths[repos[k].name] == repos[k].path)
    && s.paths.Keys <= Names(repos)
  }

  lemma {:induction false} SettledRecords(s: PoolState, repos: seq<Repo>, beads: set<string>)
    requires Coherent(s)
    requires forall k :: 0 <= k < |repos| && repos[k].path in beads ==>
      repos[k].name in s.paths && s.paths[repos[k].name] == repos[k].path
    ensures RecordAll(s, repos, beads) == s
  {
    if repos != [] {
      var n := |repos| - 1;
      SettledRecords(s, repos[..n], beads);
      if repos[n].path in beads {
        assert s.paths[repos[n].name := repos[n].path] == s.paths;
        assert s.beadsDirs[repos[n].name := BeadsDir(repos[n].path)] == s.beadsDirs;
      }
    }
  }

  lemma SettledRefresh(s: PoolState, repos: seq<Repo>, beads: set<string>)
    requires Coherent(s) && Settled(s, repos, beads)
    ensures Refresh(s, repos, beads) == s
  {
    SettledRecords(s, repos, beads);
    assert s.paths.Keys - Names(repos) == {};
  }

  lemma NameListed(repos: seq<Repo>, k: nat)
    requires k < |repos|
    ensures repos[k].name in Names(repos)
  {
  }

  lemma {:induction false} ConfiguredAt(repos: seq<Repo>, beads: set<string>, k: nat)
    requires DistinctNames(repos) && k < |repos|
    ensures Configured(repos, beads, repos[k].name) == if repos[k].path in beads then Some(repos[k].path) else None
  {
    var n := |repos| - 1;
    if k < n {
      ConfiguredAt(repos[..n], beads, k);
    } else if repos[n].path !in beads && Configured(repos[..n], beads, repos[n].name).Some? {
      ConfiguredIsNamed(repos[..n], beads, repos[n].name);
    }
  }

  lemma RefreshSettles(s: PoolState, repos: seq<Repo>, beads: set<string>)
    requires DistinctNames(repos)
    ensures Settled(Refresh(s, repos, beads), repos, beads)
  {
    forall k | 0 <= k < |repos| && repos[k].path in beads
      ensures EntryOf(Refresh(s, repos, beads).paths, repos[k].name) == Some(repos[k].path)
    {
      NameListed(repos, k);
      ConfiguredAt(repos, beads, k);
      RefreshAt(s, repos, beads, repos[k].name);
    }
  }

  lemma InitialSettles(w: World, repos: seq<Repo>)
    requires DistinctNames(repos)
    ensures Settled(Initial(w, repos).state, repos, w.beads) && Coherent(Initial(w, repos).state)
  {
    RecordAllCoherent(NO_REPOS, repos, w.beads);
    var t := RecordAll(NO_REPOS, repos, w.beads);
    forall n | n in t.paths ensures n in Names(repos) {
      RecordAllAt(NO_REPOS, repos, w.beads, n);
      ConfiguredIsNamed(repos, w.beads, n);
    }
    forall k | 0 <= k < |repos| && repos[k].path in w.beads
      ensures EntryOf(t.paths, repos[k].name) == Some(repos[k].path)
    {
      ConfiguredAt(repos, w.beads, k);
      RecordAllAt(NO_REPOS, repos, w.beads, repos[k].name);
    }
  }

  /**
   * How the world may move between calls: the config file exists; its mtime never goes back, and rises strictly
   * whenever the configuration or the presence of a `.beads/` changes; configured names are distinct.
   */
  ghost predicate Progresses(before: World, w: World) {
    && before.mtime.Some? && w.mtime.Some?
    && (w.config.Some? ==> DistinctNames(w.config.value))
    && if w.config == before.config && w.beads == before.beads then w.mtime.value >= before.mtime.value
       else w.mtime.value > before.mtime.value
  }

  ghost function LastWorld(start: World, events: seq<Event>): World {
    if events == [] then start else events[|events| - 1].world
  }

  ghost predicate WellTimed(start: World, events: seq<Event>) {
    events == [] ||
    (WellTimed(start, events[..|events| - 1]) &&
     Progresses(LastWorld(start, events[..|events| - 1]), events[|events| - 1].world))
  }

  ghost predicate UpToDate(p: Pool, w: World) {
    && Coherent(p.state) && w.mtime.Some? && p.mtime <= w.mtime.value
    && (w.config.Some? ==> DistinctNames(w.config.value) && Settled(p.state, w.config.value, w.beads))
  }

  lemma GatedIsRescanning(p: Pool, before: World, e: Event)
    requires UpToDate(p, before) && Progresses(before, e.world)
    ensures Gated(p, e).0.state == Rescanning(p.state, e).0 && Gated(p, e).1 == Rescanning(p.state, e).1
    ensures UpToDate(Gated(p, e).0, e.world)
  {
    var w := e.world;
    if w.config.Some? {
      if !Outdated(p, w) { SettledRefresh(p.state, w.config.value, w.beads); }
      RefreshSettles(p.state, w.config.value, w.beads);
      RefreshCoherent(p.state, w.config.value, w.beads);
    }
    ServeCoherent(Freshened(p, w).state, w, e.request);
  }

  lemma {:induction false} GateKeepsPace(p: Pool, start: World, events: seq<Event>)
    requires UpToDate(p, start) && WellTimed(start, events)
    ensures GatedRun(p, events).0.state == RescanningRun(p.state, events).0
    ensures GatedRun(p, events).1 == RescanningRun(p.state, events).1
    ensures UpToDate(GatedRun(p, events).0, LastWorld(start, events))
  {
    if events != [] {
      var n := |events| - 1;
      GateKeepsPace(p, start, events[..n]);
      GatedIsRescanning(GatedRun(p, events[..n]).0, LastWorld(start, events[..n]), events[n]);
    }
  }

  /** From startup on, the gated pool gives the answers of one that rescans on every call. */
  lemma GateLosesNothing(start: World, repos: seq<Repo>, events: seq<Event>)
    requires start.config == Some(repos) && start.mtime.Some? && DistinctNames(repos) && WellTimed(start, events)
    ensures GatedRun(Initial(start, repos), events).1 == RescanningRun(Initial(start, repos).state, events).1
  {
    InitialSettles(start, repos);
    GateKeepsPace(Initial(start, repos), start, events);
  }

  // ----- What a rescan keeps that a restart would not -----

  lemma PathsAt(s: PoolState, repos: seq<Repo>, beads: set<string>, name: string)
    requires DistinctNames(repos)
    ensures EntryOf(Refresh(s, repos, beads).paths, name)
            == Rescanned(At(s, name), Configured(repos, beads, name), name in Names(repos)).path
    ensures EntryOf(RecordAll(NO_REPOS, repos, beads).paths, name) == Configured(repos, beads, name)
  {
    RefreshAt(s, repos, beads, name);
    RecordAllAt(NO_REPOS, repos, beads, name);
  }

  lemma StaleStays(s: PoolState, repos: seq<Repo>, beads: set<string>, k: nat)
    requires DistinctNames(repos) && k < |repos| && repos[k].path !in beads && repos[k].name in s.paths
    ensures repos[k].name in Refresh(s, repos, beads).paths
    ensures repos[k].name !in RecordAll(NO_REPOS, repos, beads).paths
  {
    NameListed(repos, k);
    ConfiguredAt(repos, beads, k);
    PathsAt(s, repos, beads, repos[k].name);
  }

  lemma SamePath(s: PoolState, repos: seq<Repo>, beads: set<string>, name: string)
    requires DistinctNames(repos)
    requires forall k :: 0 <= k < |repos| && repos[k].path !in beads ==> repos[k].name !in s.paths
    ensures EntryOf(Refresh(s, repos, beads).paths, name) == EntryOf(RecordAll(NO_REPOS, repos, beads).paths, name)
  {
    PathsAt(s, repos, beads, name);
    if Configured(repos, beads, name).Some? {
      ConfiguredIsNamed(repos, beads, name);
    } else if name in Names(repos) {
      var k :| 0 <= k < |repos| && repos[k].name == name;
      ConfiguredAt(repos, beads, k);
    }
  }

  lemma SameMap<V>(a: map<string, V>, b: map<string, V>)
    requires forall n :: EntryOf(a, n) == EntryOf(b, n)
    ensures a == b
  {
    assert forall n :: n in a <==> EntryOf(a, n).Some?;
    assert forall n :: n in b <==> EntryOf(b, n).Some?;
    assert forall n :: n in a ==> EntryOf(a, n) == Some(a[n]) && EntryOf(b, n) == Some(b[n]);
  }

  lemma RescanForgetsAll(s: PoolState, repos: seq<Repo>, beads: set<string>)
    requires DistinctNames(repos)
    requires forall k :: 0 <= k < |repos| && repos[k].path !in beads ==> repos[k].name !in s.paths
    ensures Refresh(s, repos, beads).paths == RecordAll(NO_REPOS, repos, beads).paths
  {
    forall n ensures EntryOf(Refresh(s, repos, beads).paths, n) == EntryOf(RecordAll(NO_REPOS, repos, beads).paths, n) {
      SamePath(s, repos, beads, n);
    }
    SameMap(Refresh(s, repos, beads).paths, RecordAll(NO_REPOS, repos, beads).paths);
  }

  /**
   * A rescan records what a fresh start would exactly when no recorded repository is still configured at a path
   * without `.beads/`: such a repository keeps its old path and client until it leaves the configuration.
   */
  lemma RescanIsRestartIff(s: PoolState, repos: seq<Repo>, beads: set<string>)
    requires DistinctNames(repos)
    ensures Refresh(s, repos, beads).paths == RecordAll(NO_REPOS, repos, beads).paths <==>
      forall k :: 0 <= k < |repos| && repos[k].path !in beads ==> repos[k].name !in s.paths
  {
    if k :| 0 <= k < |repos| && repos[k].path !in beads && repos[k].name in s.paths {
      StaleStays(s, repos, beads, k);
    } else {
      RescanForgetsAll(s, repos, beads);
    }
  }

  /** A repository that is still configured loses its `.beads/`: a rescan keeps it, a restart would not know it. */
  lemma LostBeadsStay()
    ensures var repos, s := [Repo("a", "p")], RecordAll(NO_REPOS, [Repo("a", "p")], {"p"});
            && "a" in Refresh(s, repos, {}).paths && "a" !in RecordAll(NO_REPOS, repos, {}).paths
  {
    var repos := [Repo("a", "p")];
    PathsAt(NO_REPOS, repos, {"p"}, repos[0].name);
    ConfiguredAt(repos, {"p"}, 0);
    StaleStays(RecordAll(NO_REPOS, repos, {"p"}), repos, {}, 0);
  }
}
