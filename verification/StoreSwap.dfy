/** Switching a `.beads/` directory from Dolt to SQLite, as ordered file steps, and what connecting finds meanwhile. */
module StoreSwap {
  import opened Text
  import opened Runs

  datatype Node = Dir(data: string) | File(data: string)

  /** Paths and what they hold; the paths in `stuck` cannot be removed, renamed or renamed to. */
  datatype Files = Files(nodes: map<string, Node>, stuck: set<string>)

  function Join(dir: string, name: string): string {
    dir + "/" + name
  }

  lemma JoinInjective(dir: string, a: string, b: string)
    ensures Join(dir, a) == Join(dir, b) <==> a == b
  {
    assert Join(dir, a)[|dir| + 1..] == a && Join(dir, b)[|dir| + 1..] == b;
  }

  lemma JoinReads(dir: string)
    ensures Join(dir, "dolt") == dir + "/dolt" && Join(dir, "dolt.bak") == dir + "/dolt.bak"
    ensures Join(dir, "beads.db") == dir + "/beads.db" && Join(dir, "beads.db.migrated") == dir + "/beads.db.migrated"
    ensures Join(dir, "beads.db-wal") == dir + "/beads.db-wal" && Join(dir, "beads.db-shm") == dir + "/beads.db-shm"
  {
    assert "/" + "dolt" == "/dolt" && "/" + "dolt.bak" == "/dolt.bak";
    assert "/" + "beads.db" == "/beads.db" && "/" + "beads.db.migrated" == "/beads.db.migrated";
    assert "/" + "beads.db-wal" == "/beads.db-wal" && "/" + "beads.db-shm" == "/beads.db-shm";
  }

  // ----- Connecting -----

  datatype Connection = Dolt(data: string) | Sqlite(data: string) | Refused | Manufactured

  predicate HasDolt(f: Files, dir: string) {
    Join(dir, "dolt") in f.nodes && f.nodes[Join(dir, "dolt")].Dir?
  }

  predicate HasSqlite(f: Files, dir: string) {
    Join(dir, "beads.db") in f.nodes
  }

  /** Both stores are ambiguous and refused; with neither, connecting manufactures an empty SQLite store. */
  function Connect(f: Files, dir: string): Connection {
    if HasDolt(f, dir) && HasSqlite(f, dir) then Refused
    else if HasDolt(f, dir) then Dolt(f.nodes[Join(dir, "dolt")].data)
    else if !HasSqlite(f, dir) then Manufactured
    else if f.nodes[Join(dir, "beads.db")].File? then Sqlite(f.nodes[Join(dir, "beads.db")].data)
    else Refused
  }

  /** Connecting opens the Dolt directory only alone, the database file only alone, and starts afresh without both. */
  lemma ConnectMeans(f: Files, dir: string)
    ensures var n, dolt, db, c := f.nodes, dir + "/dolt", dir + "/beads.db", Connect(f, dir);
            && (c.Dolt? <==> dolt in n && n[dolt].Dir? && db !in n)
            && (c.Sqlite? <==> (dolt !in n || n[dolt].File?) && db in n && n[db].File?)
            && (c.Manufactured? <==> (dolt !in n || n[dolt].File?) && db !in n)
            && (c.Dolt? ==> c.data == n[dolt].data) && (c.Sqlite? ==> c.data == n[db].data)
  {
    JoinReads(dir);
  }

  // ----- File steps -----

  datatype Step = Remove(path: string) | Rename(source: string, target: string)

  /** A removal that fails is ignored; a rename needs its source and does not replace a directory by a file. */
  function Perform(f: Files, step: Step): Option<Files> {
    match step
    case Remove(p) =>
      Some(if p in f.nodes && f.nodes[p].File? && p !in f.stuck then f.(nodes := f.nodes - {p}) else f)
    case Rename(source, target) =>
      if source !in f.nodes || source in f.stuck || target in f.stuck then None
      else if target in f.nodes && (f.nodes[source].Dir? || f.nodes[target].Dir?) then None
      else Some(f.(nodes := (f.nodes - {source})[target := f.nodes[source]]))
  }

  const STALE: seq<string> := ["beads.db", "beads.db.migrated", "beads.db-wal", "beads.db-shm"]

  function Clearing(dir: string): seq<Step> {
    [Remove(Join(dir, "beads.db")), Remove(Join(dir, "beads.db.migrated")),
     Remove(Join(dir, "beads.db-wal")), Remove(Join(dir, "beads.db-shm"))]
  }

  function Switching(dir: string, built: string): seq<Step> {
    Clearing(dir) + [Rename(built, Join(dir, "beads.db")), Rename(Join(dir, "dolt"), Join(dir, "dolt.bak"))]
  }

  /** What the swap checks before it touches anything. */
  predicate MaySwap(f: Files, dir: string, built: string) {
    && HasDolt(f, dir) && Join(dir, "dolt.bak") !in f.nodes
    && built in f.nodes && f.nodes[built].File?
  }

  class FileSystem {
    var files: Files

    constructor (files: Files)
      ensures this.files == files
    {
      this.files := files;
    }

    method RemoveFile(path: string)
      modifies this
      ensures Some(files) == Perform(old(files), Remove(path))
    {
      if path in files.nodes && files.nodes[path].File? && path !in files.stuck {
        files := files.(nodes := files.nodes - {path});
      }
    }

    method RenamePath(source: string, target: string) returns (ok: bool)
      modifies this
      ensures match Perform(old(files), Rename(source, target))
              case None => !ok && files == old(files)
              case Some(next) => ok && files == next
    {
      if source !in files.nodes || source in files.stuck || target in files.stuck { return false; }
      var node := files.nodes[source];
      if target in files.nodes && (node.Dir? || files.nodes[target].Dir?) { return false; }
      files := files.(nodes := (files.nodes - {source})[target := node]);
      ok := true;
    }

    /** Swaps the stores: refused, touching nothing, unless it may; else the steps run up to the first that fails. */
    method SwapDoltToSqlite(dir: string, built: string) returns (ok: bool)
      modifies this
      ensures !MaySwap(old(files), dir, built) ==> !ok && files == old(files)
      ensures MaySwap(old(files), dir, built) ==>
        var Run(f, k) := Attempt(Perform, old(files), Switching(dir, built)); files == f && ok == (k == 6)
    {
      var dolt, bak, db := Join(dir, "dolt"), Join(dir, "dolt.bak"), Join(dir, "beads.db");
      if dolt !in files.nodes || !files.nodes[dolt].Dir? { return false; }
      if bak in files.nodes { return false; }
      if built !in files.nodes || !files.nodes[built].File? { return false; }
      ghost var steps := Clearing(dir);
      assert steps[..0] == [];
      for i := 0 to |STALE|
        invariant Attempt(Perform, old(files), steps[..i]) == Run(files, i)
      {
        AttemptNext(Perform, old(files), steps, i, files);
        RemoveFile(Join(dir, STALE[i]));
      }
      assert steps[..4] == steps;
      Advance(Perform, old(files), steps, [Rename(built, db), Rename(dolt, bak)]);
      assert [Rename(built, db), Rename(dolt, bak)] == [Rename(built, db)] + [Rename(dolt, bak)];
      Advance(Perform, files, [Rename(built, db)], [Rename(dolt, bak)]);
      AttemptOne(Perform, files, Rename(built, db));
      ok := RenamePath(built, db);
      if !ok { return; }
      AttemptOne(Perform, files, Rename(dolt, bak));
      ok := RenamePath(dolt, bak);
    }
  }

  // ----- What the steps leave -----

  ghost function StalePaths(dir: string): set<string> {
    {Join(dir, "beads.db"), Join(dir, "beads.db.migrated"), Join(dir, "beads.db-wal"), Join(dir, "beads.db-shm")}
  }

  /** Some stale files are gone, and nothing else has changed. */
  ghost predicate Swept(f: Files, g: Files, dir: string) {
    && g.stuck == f.stuck
    && (forall p :: p in g.nodes ==> p in f.nodes && g.nodes[p] == f.nodes[p])
    && (forall p :: p in f.nodes && p !in g.nodes ==> p in StalePaths(dir) && f.nodes[p].File? && p !in f.stuck)
  }

  lemma {:induction false} ClearingSweeps(f: Files, dir: string, k: nat)
    requires k <= 4
    ensures var Run(g, n) := Attempt(Perform, f, Clearing(dir)[..k]);
            n == k && Swept(f, g, dir) && forall i :: 0 <= i < k ==> Gone(f, g, Clearing(dir)[i].path)
  {
    if k > 0 {
      ClearingSweeps(f, dir, k - 1);
      var steps := Clearing(dir)[..k];
      assert steps[..k - 1] == Clearing(dir)[..k - 1];
      assert steps[k - 1] == Clearing(dir)[k - 1];
    }
  }

  /** The path is clear, unless it cannot be removed. */
  ghost predicate Gone(f: Files, g: Files, p: string) {
    p in g.nodes <==> p in f.nodes && (f.nodes[p].Dir? || p in f.stuck)
  }

  lemma PathsDiffer(dir: string)
    ensures Join(dir, "dolt") !in StalePaths(dir) && Join(dir, "dolt.bak") !in StalePaths(dir)
    ensures Join(dir, "dolt") != Join(dir, "dolt.bak")
  {
    JoinInjective(dir, "dolt", "dolt.bak");
    DoltIsNotStale(dir, "dolt");
    DoltIsNotStale(dir, "dolt.bak");
  }

  lemma DoltIsNotStale(dir: string, name: string)
    requires name != "" && name[0] == 'd'
    ensures Join(dir, name) !in StalePaths(dir)
  {
    JoinInjective(dir, name, "beads.db");
    JoinInjective(dir, name, "beads.db.migrated");
    JoinInjective(dir, name, "beads.db-wal");
    JoinInjective(dir, name, "beads.db-shm");
  }

  /** The stale files are cleared: the Dolt store is still what it was. */
  lemma SweptKeepsDolt(f: Files, g: Files, dir: string)
    requires Swept(f, g, dir) && HasDolt(f, dir) && Join(dir, "dolt.bak") !in f.nodes
    ensures HasDolt(g, dir) && g.nodes[Join(dir, "dolt")] == f.nodes[Join(dir, "dolt")]
    ensures Join(dir, "dolt.bak") !in g.nodes
  {
    PathsDiffer(dir);
  }

  lemma SwitchingParts(dir: string, built: string)
    ensures var all := Switching(dir, built);
            && |all| == 6 && all[4] == Rename(built, Join(dir, "beads.db"))
            && all[5] == Rename(Join(dir, "dolt"), Join(dir, "dolt.bak"))
            && (forall k :: 0 <= k <= 4 ==> all[..k] == Clearing(dir)[..k])
            && all[..5] == Clearing(dir) + [all[4]] && all == all[..5] + [all[5]]
  {
    assert forall k :: 0 <= k <= 4 ==> Switching(dir, built)[..k] == Clearing(dir)[..k];
  }

  /** The built store is in place beside the Dolt one. */
  ghost predicate Placed(f: Files, g: Files, dir: string, built: string) {
    && built in f.nodes && HasDolt(f, dir) && HasDolt(g, dir) && Join(dir, "beads.db") in g.nodes
    && g.nodes[Join(dir, "dolt")] == f.nodes[Join(dir, "dolt")] && Join(dir, "dolt.bak") !in g.nodes
    && g.nodes[Join(dir, "beads.db")] == f.nodes[built] && g.stuck == f.stuck
  }

  lemma PlaceIff(f: Files, g: Files, dir: string, built: string)
    requires MaySwap(f, dir, built) && Swept(f, g, dir) && forall p :: p in StalePaths(dir) ==> Gone(f, g, p)
    ensures var db := Join(dir, "beads.db");
            Perform(g, Rename(built, db)).Some? <==>
            built !in StalePaths(dir) && built !in f.stuck && db !in f.stuck && !(db in f.nodes && f.nodes[db].Dir?)
    ensures var r := Perform(g, Rename(built, Join(dir, "beads.db"))); r.Some? ==> Placed(f, r.value, dir, built)
  {
    PathsDiffer(dir);
    SweptKeepsDolt(f, g, dir);
  }

  /** The switch is made: the built store is the store, and the Dolt one its backup. */
  ghost predicate Switched(f: Files, g: Files, dir: string, built: string) {
    && built in f.nodes && HasDolt(f, dir) && !HasDolt(g, dir)
    && Join(dir, "beads.db") in g.nodes && Join(dir, "dolt.bak") in g.nodes
    && g.nodes[Join(dir, "beads.db")] == f.nodes[built] && g.nodes[Join(dir, "dolt.bak")] == f.nodes[Join(dir, "dolt")]
  }

  lemma SwitchIff(f: Files, g: Files, dir: string, built: string)
    requires MaySwap(f, dir, built) && Placed(f, g, dir, built)
    ensures var r := Perform(g, Rename(Join(dir, "dolt"), Join(dir, "dolt.bak")));
            && (r.Some? <==> Join(dir, "dolt") !in f.stuck && Join(dir, "dolt.bak") !in f.stuck)
            && (r.Some? ==> Switched(f, r.value, dir, built))
  {
    PathsDiffer(dir);
  }

  lemma ClearedAll(f: Files, dir: string) returns (g: Files)
    ensures Attempt(Perform, f, Clearing(dir)) == Run(g, 4)
    ensures Swept(f, g, dir) && forall p :: p in StalePaths(dir) ==> Gone(f, g, p)
  {
    ClearingSweeps(f, dir, 4);
    assert Clearing(dir)[..4] == Clearing(dir);
    g := Attempt(Perform, f, Clearing(dir)).state;
    assert Clearing(dir)[0].path == Join(dir, "beads.db") && Clearing(dir)[1].path == Join(dir, "beads.db.migrated");
    assert Clearing(dir)[2].path == Join(dir, "beads.db-wal") && Clearing(dir)[3].path == Join(dir, "beads.db-shm");
  }

  /**
   * The state after the first k steps. Until the last step the Dolt store is where it was, and connecting opens it
   * or, while `beads.db` is there too, refuses; after the last step connecting opens the built store, and the Dolt
   * store is the backup. At no step does connecting find an empty store.
   */
  lemma NoEmptyWindow(f: Files, dir: string, built: string, k: nat)
    requires MaySwap(f, dir, built) && k <= Attempt(Perform, f, Switching(dir, built)).done
    ensures var g := Attempt(Perform, f, Switching(dir, built)[..k]).state;
            var dolt := f.nodes[Join(dir, "dolt")];
            && (k < 6 ==> HasDolt(g, dir) && g.nodes[Join(dir, "dolt")] == dolt)
            && (k < 6 ==> Connect(g, dir) == if HasSqlite(g, dir) then Refused else Dolt(dolt.data))
            && (k == 5 ==> HasSqlite(g, dir))
            && (k == 6 ==> Switched(f, g, dir, built) && Connect(g, dir) == Sqlite(f.nodes[built].data))
  {
    SwitchingParts(dir, built);
    var all := Switching(dir, built);
    AttemptPrefix(Perform, f, all, k);
    if k <= 4 {
      ClearingSweeps(f, dir, k);
      SweptKeepsDolt(f, Attempt(Perform, f, all[..k]).state, dir);
    } else {
      AttemptPrefix(Perform, f, all, 5);
      var g := ClearedAll(f, dir);
      PlaceIff(f, g, dir, built);
      AttemptSnoc(Perform, f, Clearing(dir), all[4]);
      var placed := Attempt(Perform, f, all[..5]).state;
      SwitchIff(f, placed, dir, built);
      AttemptSnoc(Perform, f, all[..5], all[5]);
      assert all[..6] == all;
    }
  }

  /** The paths that a swap renames, and the one it must not overwrite. */
  ghost predicate Ready(f: Files, dir: string, built: string) {
    && dir + "/dolt" in f.nodes && f.nodes[dir + "/dolt"].Dir? && dir + "/dolt.bak" !in f.nodes
    && built in f.nodes && f.nodes[built].File?
    && (dir + "/beads.db" in f.nodes ==> f.nodes[dir + "/beads.db"].File?)
    && built !in f.stuck && dir + "/beads.db" !in f.stuck && dir + "/dolt" !in f.stuck && dir + "/dolt.bak" !in f.stuck
  }

  /** The built store is none of the four files that are cleared first. */
  ghost predicate BuiltApart(dir: string, built: string) {
    && built != dir + "/beads.db" && built != dir + "/beads.db.migrated"
    && built != dir + "/beads.db-wal" && built != dir + "/beads.db-shm"
  }

  /** Which file systems a swap succeeds on. */
  lemma SwapIff(f: Files, dir: string, built: string)
    ensures MaySwap(f, dir, built) && Attempt(Perform, f, Switching(dir, built)).done == 6
            <==> Ready(f, dir, built) && BuiltApart(dir, built)
  {
    JoinReads(dir);
    if MaySwap(f, dir, built) { SwapSucceedsIff(f, dir, built); }
  }

  /**
   * A swap that may start succeeds exactly when the built store is not at a path it clears first, no directory is in
   * the way of `beads.db`, and none of the four paths it renames is stuck.
   */
  lemma SwapSucceedsIff(f: Files, dir: string, built: string)
    requires MaySwap(f, dir, built)
    ensures var db := Join(dir, "beads.db");
            Attempt(Perform, f, Switching(dir, built)).done == 6 <==>
            && built !in StalePaths(dir) && !(db in f.nodes && f.nodes[db].Dir?)
            && built !in f.stuck && db !in f.stuck
            && Join(dir, "dolt") !in f.stuck && Join(dir, "dolt.bak") !in f.stuck
  {
    SwitchingParts(dir, built);
    var all := Switching(dir, built);
    var g := ClearedAll(f, dir);
    PlaceIff(f, g, dir, built);
    AttemptSnoc(Perform, f, Clearing(dir), all[4]);
    AttemptSnoc(Perform, f, all[..5], all[5]);
    var r := Perform(g, all[4]);
    if r.Some? { SwitchIff(f, r.value, dir, built); }
  }

  /** What a finished swap leaves: both stores at their new places, the stale files gone, the rest as it was. */
  ghost predicate Left(f: Files, g: Files, dir: string, built: string) {
    var dolt, bak, db := dir + "/dolt", dir + "/dolt.bak", dir + "/beads.db";
    var stale := {dir + "/beads.db.migrated", dir + "/beads.db-wal", dir + "/beads.db-shm"};
    && built in f.nodes && dolt in f.nodes
    && db in g.nodes && g.nodes[db] == f.nodes[built] && built !in g.nodes
    && bak in g.nodes && g.nodes[bak] == f.nodes[dolt] && dolt !in g.nodes
    && (forall p :: p in stale ==> (p in g.nodes <==> p in f.nodes && (f.nodes[p].Dir? || p in f.stuck)))
    && (forall p :: p in g.nodes && p != db && p != bak ==> p in f.nodes && g.nodes[p] == f.nodes[p])
    && (forall p :: p in f.nodes && p !in stale && p != built && p != dolt ==> p in g.nodes)
  }

  lemma RenamingLeaves(f: Files, g: Files, dir: string, built: string)
    requires MaySwap(f, dir, built) && Swept(f, g, dir) && forall p :: p in StalePaths(dir) ==> Gone(f, g, p)
    requires var r := Perform(g, Rename(built, Join(dir, "beads.db")));
             r.Some? && Perform(r.value, Rename(Join(dir, "dolt"), Join(dir, "dolt.bak"))).Some?
    ensures var placed := Perform(g, Rename(built, Join(dir, "beads.db"))).value;
            Left(f, Perform(placed, Rename(Join(dir, "dolt"), Join(dir, "dolt.bak"))).value, dir, built)
  {
    JoinReads(dir);
    PathsDiffer(dir);
    JoinInjective(dir, "beads.db", "dolt.bak");
    PlaceIff(f, g, dir, built);
  }

  /** After a swap that succeeds, nothing but the stale files is lost. */
  lemma SwapLeaves(f: Files, dir: string, built: string)
    requires Ready(f, dir, built) && BuiltApart(dir, built)
    ensures Left(f, Attempt(Perform, f, Switching(dir, built)).state, dir, built)
  {
    SwapIff(f, dir, built);
    SwitchingParts(dir, built);
    var all := Switching(dir, built);
    var g := ClearedAll(f, dir);
    AttemptSnoc(Perform, f, Clearing(dir), all[4]);
    AttemptSnoc(Perform, f, all[..5], all[5]);
    RenamingLeaves(f, g, dir, built);
  }

  /** A store built in place, at `beads.db` itself: the swap clears it away and then misses it. */
  lemma BuiltInPlaceIsLost(dir: string, dolt: string, built: string)
    ensures var f := Files(map[Join(dir, "dolt") := Dir(dolt), Join(dir, "beads.db") := File(built)], {});
            && MaySwap(f, dir, Join(dir, "beads.db"))
            && Attempt(Perform, f, Switching(dir, Join(dir, "beads.db"))).done < 6
  {
    var f := Files(map[Join(dir, "dolt") := Dir(dolt), Join(dir, "beads.db") := File(built)], {});
    PathsDiffer(dir);
    JoinInjective(dir, "dolt.bak", "beads.db");
    SwapSucceedsIff(f, dir, Join(dir, "beads.db"));
  }
}
