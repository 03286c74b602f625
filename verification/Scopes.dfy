/** File-scope admission: what runs at the same time in one repository touches disjoint paths. */
module Scopes {
  import opened Text

  datatype Item = Item(id: string, repo: string, files: seq<string>, testFiles: seq<string>)

  // ----- Which paths a scope stands for -----

  function StripDot(s: string): string {
    if HasPrefix(s, "./") then s[2..] else s
  }

  predicate ScopesOverlap(a: string, b: string) {
    var x, y := StripDot(a), StripDot(b);
    || x == y
    || (HasSuffix(x, "/") && HasPrefix(y, x))
    || (HasSuffix(y, "/") && HasPrefix(x, y))
  }

  /** A directory, which ends in a slash, stands for every path that begins with it; a file for itself. */
  ghost predicate StandsFor(core: string, path: string) {
    if core != "" && core[|core| - 1] == '/' then core <= path else path == core
  }

  /** The scope is core itself, or core behind one or two "./", as many as there are. */
  ghost predicate Spells(scope: string, core: string) {
    || (scope == core && !("./" <= core))
    || (scope == "./" + core && !("./" <= core))
    || scope == "././" + core
  }

  ghost predicate ScopeClaims(scope: string, path: string) {
    exists core :: Spells(scope, core) && StandsFor(core, path)
  }

  /** Of two prefixes of a path the shorter is a prefix of the longer. */
  lemma PrefixChain(a: string, b: string, path: string)
    requires a <= path && b <= path && |a| <= |b|
    ensures a <= b
  {
    assert b == path[..|b|] && a == path[..|a|];
    assert b[..|a|] == a;
  }

  ghost predicate CoresOverlap(x: string, y: string) {
    || x == y
    || (HasSuffix(x, "/") && HasPrefix(y, x))
    || (HasSuffix(y, "/") && HasPrefix(x, y))
  }

  lemma SlashEnds(core: string)
    ensures HasSuffix(core, "/") <==> core != "" && core[|core| - 1] == '/'
  {
  }

  lemma CommonPathOverlaps(x: string, y: string, path: string)
    requires StandsFor(x, path) && StandsFor(y, path)
    ensures CoresOverlap(x, y)
  {
    SlashEnds(x);
    SlashEnds(y);
    if |x| <= |y| { PrefixChain(x, y, path); } else { PrefixChain(y, x, path); }
  }

  lemma OverlapHasPath(x: string, y: string) returns (path: string)
    requires CoresOverlap(x, y)
    ensures StandsFor(x, path) && StandsFor(y, path)
  {
    SlashEnds(x);
    SlashEnds(y);
    path := if HasPrefix(x, y) then x else y;
  }

  /** Two scopes overlap exactly when some path belongs to both; each may still have one "./" in front. */
  lemma OverlapIsCommonPath(a: string, b: string)
    ensures ScopesOverlap(a, b) <==> exists p :: StandsFor(StripDot(a), p) && StandsFor(StripDot(b), p)
  {
    if ScopesOverlap(a, b) { var p := OverlapHasPath(StripDot(a), StripDot(b)); }
    if p :| StandsFor(StripDot(a), p) && StandsFor(StripDot(b), p) {
      CommonPathOverlaps(StripDot(a), StripDot(b), p);
    }
  }

  lemma Behind(s: string)
    ensures "./" <= s <==> s == "./" + StripDot(s)
    ensures !("./" <= s) <==> s == StripDot(s)
    ensures StripDot("./" + s) == s && "./" <= "./" + s
  {
  }

  /** Both admission passes strip one leading "./", so a scope stands for what it spells without them. */
  lemma StrippedTwice(scope: string, core: string)
    ensures StripDot(StripDot(scope)) == core <==> Spells(scope, core)
  {
    Behind(scope);
    Behind(StripDot(scope));
    Behind(core);
    Behind("./" + core);
    assert "././" + core == "./" + ("./" + core);
  }

  lemma ScopeClaimsIff(scope: string, path: string)
    ensures ScopeClaims(scope, path) <==> StandsFor(StripDot(StripDot(scope)), path)
  {
    var core := StripDot(StripDot(scope));
    StrippedTwice(scope, core);
    forall other | Spells(scope, other) ensures other == core { StrippedTwice(scope, other); }
  }

  function AllScopes(b: Item): seq<string> {
    b.files + b.testFiles
  }

  /** A path that one of the item's files or test files stands for. */
  ghost predicate Claims(b: Item, path: string) {
    exists s :: (s in b.files || s in b.testFiles) && ScopeClaims(s, path)
  }

  ghost predicate Conflict(a: Item, b: Item) {
    a.id != b.id && a.repo == b.repo && exists p :: Claims(a, p) && Claims(b, p)
  }

  ghost predicate OverlapsAny(s: string, b: seq<string>) {
    exists t :: t in b && ScopesOverlap(StripDot(s), StripDot(t))
  }

  lemma PairOverlaps(s: string, t: string)
    ensures ScopesOverlap(StripDot(s), StripDot(t)) <==> exists p :: ScopeClaims(s, p) && ScopeClaims(t, p)
  {
    OverlapIsCommonPath(StripDot(s), StripDot(t));
    forall p ensures ScopeClaims(s, p) <==> StandsFor(StripDot(StripDot(s)), p) { ScopeClaimsIff(s, p); }
    forall p ensures ScopeClaims(t, p) <==> StandsFor(StripDot(StripDot(t)), p) { ScopeClaimsIff(t, p); }
  }

  lemma ScopePairConflicts(a: Item, b: Item)
    requires a.id != b.id && a.repo == b.repo
    ensures Conflict(a, b) <==> exists s :: s in AllScopes(a) && OverlapsAny(s, AllScopes(b))
  {
    if p :| Claims(a, p) && Claims(b, p) {
      var s :| (s in a.files || s in a.testFiles) && ScopeClaims(s, p);
      var t :| (t in b.files || t in b.testFiles) && ScopeClaims(t, p);
      PairOverlaps(s, t);
      assert s in AllScopes(a) && t in AllScopes(b) && OverlapsAny(s, AllScopes(b));
    }
    if s, t :| s in AllScopes(a) && t in AllScopes(b) && ScopesOverlap(StripDot(s), StripDot(t)) {
      PairOverlaps(s, t);
      var p :| ScopeClaims(s, p) && ScopeClaims(t, p);
      assert Claims(a, p) && Claims(b, p);
    }
  }

  // ----- How a scope is written makes no difference -----

  /** With or without a "./" in front. */
  ghost predicate SameScope(s: string, t: string) {
    s == t || (!("./" <= s) && t == "./" + s) || (!("./" <= t) && s == "./" + t)
  }

  lemma SameScopeClaims(s: string, t: string, path: string)
    requires SameScope(s, t) && ScopeClaims(s, path)
    ensures ScopeClaims(t, path)
  {
    var core :| Spells(s, core) && StandsFor(core, path);
    Behind(core);
    Behind("./" + core);
    assert "././" + core == "./" + ("./" + core);
    assert Spells(t, core);
  }

  /** Two items of a repository that name one path, with or without a "./" in front, conflict. */
  lemma DotsConflict(a: Item, b: Item, q: string, s: string, t: string)
    requires a.id != b.id && a.repo == b.repo && !("./" <= q)
    requires (s == q || s == "./" + q) && (t == q || t == "./" + q)
    requires (s in a.files || s in a.testFiles) && (t in b.files || t in b.testFiles)
    ensures Conflict(a, b)
  {
    assert Spells(q, q) && StandsFor(q, q);
    assert ScopeClaims(q, q);
    SameScopeClaims(q, s, q);
    SameScopeClaims(q, t, q);
    assert Claims(a, q) && Claims(b, q);
  }

  /** b is a with a "./" put before some scopes that lack it. */
  ghost predicate Rewritten(a: Item, b: Item) {
    && a.id == b.id && a.repo == b.repo && |a.files| == |b.files| && |a.testFiles| == |b.testFiles|
    && (forall i :: 0 <= i < |a.files| ==> SameScope(a.files[i], b.files[i]))
    && (forall i :: 0 <= i < |a.testFiles| ==> SameScope(a.testFiles[i], b.testFiles[i]))
  }

  lemma RewrittenClaims(a: Item, b: Item, path: string)
    requires Rewritten(a, b) && Claims(a, path)
    ensures Claims(b, path)
  {
    var s :| (s in a.files || s in a.testFiles) && ScopeClaims(s, path);
    if s in a.files {
      var i :| 0 <= i < |a.files| && a.files[i] == s;
      SameScopeClaims(s, b.files[i], path);
      assert b.files[i] in b.files;
    } else {
      var i :| 0 <= i < |a.testFiles| && a.testFiles[i] == s;
      SameScopeClaims(s, b.testFiles[i], path);
      assert b.testFiles[i] in b.testFiles;
    }
  }

  /** So writing a "./" before scopes, or leaving it out, changes no conflict. */
  lemma RewritingKeepsConflicts(a: Item, b: Item, c: Item, d: Item)
    requires Rewritten(a, b) && Rewritten(c, d)
    ensures Conflict(a, c) <==> Conflict(b, d)
  {
    assert Rewritten(b, a) && Rewritten(d, c);
    if p :| Claims(a, p) && Claims(c, p) {
      RewrittenClaims(a, b, p);
      RewrittenClaims(c, d, p);
    }
    if p :| Claims(b, p) && Claims(d, p) {
      RewrittenClaims(b, a, p);
      RewrittenClaims(d, c, p);
    }
  }

  // ----- Admission -----

  method FindOverlap(s: string, b: seq<string>) returns (found: bool)
    ensures found <==> OverlapsAny(s, b)
  {
    for j := 0 to |b|
      invariant forall t :: t in b[..j] ==> !ScopesOverlap(StripDot(s), StripDot(t))
    {
      if ScopesOverlap(StripDot(s), StripDot(b[j])) {
        return true;
      }
    }
    assert b[..|b|] == b;
    found := false;
  }

  method AnyScopeOverlaps(a: seq<string>, b: seq<string>) returns (found: bool)
    ensures found <==> exists s :: s in a && OverlapsAny(s, b)
  {
    for i := 0 to |a|
      invariant forall s :: s in a[..i] ==> !OverlapsAny(s, b)
    {
      var hit := FindOverlap(a[i], b);
      if hit {
        return true;
      }
    }
    assert a[..|a|] == a;
    found := false;
  }

  lemma PathlessConflictsNot(a: Item, b: Item)
    requires AllScopes(a) == [] || AllScopes(b) == []
    ensures !Conflict(a, b)
  {
  }

  /** The rival is the first active item that conflicts, at k; there is none only if none conflicts. */
  ghost predicate NamesRival(item: Item, active: seq<Item>, rival: Option<string>, k: nat) {
    && (rival.Some? ==> k < |active| && Conflict(item, active[k]) && rival.value == active[k].id)
    && (rival.Some? ==> forall m :: 0 <= m < k ==> !Conflict(item, active[m]))
    && (rival.None? ==> forall m :: 0 <= m < |active| ==> !Conflict(item, active[m]))
  }

  /** Names the first active item in the same repository that claims a common path. */
  method HasFileOverlap(item: Item, active: seq<Item>) returns (rival: Option<string>, ghost k: nat)
    ensures NamesRival(item, active, rival, k)
  {
    k := 0;
    if item.files == [] && item.testFiles == [] {
      forall m | 0 <= m < |active| ensures !Conflict(item, active[m]) { PathlessConflictsNot(item, active[m]); }
      return None, 0;
    }
    for i := 0 to |active|
      invariant forall m :: 0 <= m < i ==> !Conflict(item, active[m])
    {
      var other := active[i];
      if other.id == item.id || other.repo != item.repo {
        continue;
      }
      if other.files == [] && other.testFiles == [] {
        PathlessConflictsNot(item, other);
        continue;
      }
      ScopePairConflicts(item, other);
      var overlaps := AnyScopeOverlaps(AllScopes(item), AllScopes(other));
      if overlaps {
        return Some(other.id), i;
      }
    }
    rival := None;
  }

  /** Nor does it change the answer. */
  lemma RewritingKeepsAnswer(a: Item, b: Item, active: seq<Item>, other: seq<Item>, rival: Option<string>, k: nat,
                             rival2: Option<string>, k2: nat)
    requires Rewritten(a, b) && |active| == |other|
    requires forall m :: 0 <= m < |active| ==> Rewritten(active[m], other[m])
    requires NamesRival(a, active, rival, k) && NamesRival(b, other, rival2, k2)
    ensures rival == rival2
  {
    forall m | 0 <= m < |active| ensures Conflict(a, active[m]) <==> Conflict(b, other[m]) {
      RewritingKeepsConflicts(a, b, active[m], other[m]);
    }
  }

  // ----- Runs of the admission loop -----

  datatype Event = Admit(item: Item) | Finish(id: string)

  ghost predicate PathDisjoint(active: set<Item>) {
    forall a, b :: a in active && b in active ==> !Conflict(a, b)
  }

  ghost function Apply(e: Event, active: set<Item>): set<Item> {
    match e
    case Admit(item) => if forall o :: o in active ==> !Conflict(item, o) then active + {item} else active
    case Finish(id) => set o | o in active && o.id != id
  }

  ghost function Run(events: seq<Event>, active: set<Item>): set<Item> {
    if events == [] then active else Run(events[1..], Apply(events[0], active))
  }

  lemma ConflictSymmetric(a: Item, b: Item)
    ensures Conflict(a, b) <==> Conflict(b, a)
  {
    if p :| Claims(a, p) && Claims(b, p) { }
  }

  /** Whatever is admitted and finished, and in whatever order, active items never share a path. */
  lemma {:induction false} RunsStayDisjoint(events: seq<Event>, active: set<Item>)
    requires PathDisjoint(active)
    ensures PathDisjoint(Run(events, active))
  {
    if events != [] {
      var next := Apply(events[0], active);
      forall a, b | a in next && b in next ensures !Conflict(a, b) { ConflictSymmetric(a, b); }
      RunsStayDisjoint(events[1..], next);
    }
  }
}
