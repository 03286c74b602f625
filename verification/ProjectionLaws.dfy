/** One upsert at a time and one whole refresh: when they agree, and what published files look like. */
module ProjectionLaws {
  import opened Text
  import opened Markers
  import opened TextLines
  import opened OrderedRecords
  import opened JsonlSync

  // ----- Written files parse back -----

  function Values(es: seq<Entry<Value>>): seq<Value> {
    seq(|es|, i requires 0 <= i < |es| => es[i].value)
  }

  ghost predicate Identified(es: seq<Entry<Value>>) {
    forall i :: 0 <= i < |es| ==> es[i].value.id.Some?
  }

  lemma TrimKeepsLine(line: string)
    requires line != "" && !IsSpace(line[0]) && !IsSpace(line[|line| - 1])
    ensures Trim(line) == line && StripReturn(line) == line
  {
  }

  lemma RenderedLine(c: Codec, v: Value)
    requires Lawful(c) && v.id.Some?
    ensures var line := c.render(v);
            line != "" && NoNewline(line) && StripReturn(line) == line && Trim(line) == line && c.parse(line) == Some(v)
  {
    TrimKeepsLine(c.render(v));
  }

  lemma {:induction false} RenderedReads(c: Codec, es: seq<Entry<Value>>)
    requires Lawful(c) && Identified(es)
    ensures ReadLines(c, Rendered(c, es)) == Some(Values(es))
    ensures forall line :: line in Rendered(c, es) ==> NoNewline(line) && StripReturn(line) == line
  {
    if es != [] {
      var n := |es| - 1;
      RenderedReads(c, es[..n]);
      RenderedLine(c, es[n].value);
      ReadNext(c, Rendered(c, es[..n]), c.render(es[n].value));
      assert Rendered(c, es) == Rendered(c, es[..n]) + [c.render(es[n].value)];
      assert Values(es[..n]) + [es[n].value] == Values(es);
    } else {
      assert Values(es) == [];
    }
  }

  lemma ReadNext(c: Codec, lines: seq<string>, line: string)
    requires ReadLines(c, lines).Some? && line != "" && Trim(line) == line && c.parse(line).Some?
    ensures ReadLines(c, lines + [line]) == Some(ReadLines(c, lines).value + [c.parse(line).value])
  {
    assert (lines + [line])[..|lines|] == lines;
  }

  lemma WrittenReads(c: Codec, es: seq<Entry<Value>>)
    requires Lawful(c) && Identified(es)
    ensures Read(c, Serialize(c, es)) == Some(Values(es))
  {
    RenderedReads(c, es);
    LinesOfTerminated(Rendered(c, es));
  }

  /** Each entry's record carries the key as its id. */
  ghost predicate Faithful(es: seq<Entry<Value>>) {
    forall i :: 0 <= i < |es| ==> es[i].value.id == Some(es[i].key)
  }

  lemma {:induction false} KeyedOrdered(es: seq<Entry<Value>>)
    requires Ordered(es) && Faithful(es)
    ensures Keyed(Values(es), map[]) == Some(es)
  {
    if es != [] {
      var n := |es| - 1;
      assert es == es[..n] + [es[n]];
      OrderedPrefix(es[..n], es[n]);
      KeyedOrdered(es[..n]);
      assert Values(es)[..n] == Values(es[..n]);
    }
  }

  /** A file written from ordered, correctly keyed records holds exactly those records. */
  lemma WrittenHolds(c: Codec, es: seq<Entry<Value>>)
    requires Lawful(c) && Ordered(es) && Faithful(es)
    ensures Records(c, Serialize(c, es)) == Some(AsMap(es))
  {
    WrittenReads(c, es);
    KeyedOrdered(es);
  }

  /** One newline-terminated line per record, in the order of the ids, each record under its own id. */
  ghost predicate Canonical(c: Codec, text: string) {
    exists es :: Ordered(es) && Faithful(es) && text == Serialize(c, es)
  }

  /** Canonical files holding the same records are the same bytes. */
  lemma CanonicalUnique(c: Codec, a: string, b: string)
    requires Lawful(c) && Canonical(c, a) && Canonical(c, b) && Records(c, a) == Records(c, b)
    ensures a == b
  {
    var x :| Ordered(x) && Faithful(x) && a == Serialize(c, x);
    var y :| Ordered(y) && Faithful(y) && b == Serialize(c, y);
    WrittenHolds(c, x);
    WrittenHolds(c, y);
    OrderedUnique(x, y);
  }

  // ----- What keying records gives -----

  /** The published records, the live ones replacing those of the same id. */
  ghost function Overlay(m: map<string, Value>, live: map<string, Value>): map<string, Value> {
    map id | id in m :: if id in live then live[id] else m[id]
  }

  lemma {:induction false} FaithfulIff(es: seq<Entry<Value>>)
    requires Ordered(es)
    ensures Faithful(es) <==> Tagged(AsMap(es))
    decreases |es|
  {
    if es != [] {
      FaithfulIff(es[1..]);
      var k := es[0].key;
      BelowOrders(k, k);
      assert AsMap(es[1..]) == AsMap(es) - {k};
      if Faithful(es) {
        assert Faithful(es[1..]) by { assert forall i :: 0 <= i < |es[1..]| ==> es[1..][i] == es[i + 1]; }
      }
      if Tagged(AsMap(es)) {
        assert AsMap(es)[k] == es[0].value;
        assert forall i :: 0 < i < |es| ==> es[i] == es[1..][i - 1];
      }
    }
  }

  lemma KeyedStep(vs: seq<Value>, live: map<string, Value>)
    requires vs != [] && Keyed(vs, live).Some? && Ordered(Keyed(vs[..|vs| - 1], live).value)
    ensures var v, before := vs[|vs| - 1], Keyed(vs[..|vs| - 1], live).value;
            && Ordered(Keyed(vs, live).value)
            && AsMap(Keyed(vs, live).value)
               == AsMap(before)[v.id.value := if v.id.value in live then live[v.id.value] else v]
  {
    var v, before := vs[|vs| - 1], Keyed(vs[..|vs| - 1], live).value;
    var put := if v.id.value in live then live[v.id.value] else v;
    InsertOrdered(before, v.id.value, put);
    InsertMeans(before, v.id.value, put);
  }

  lemma {:induction false} KeyedSpec(vs: seq<Value>, live: map<string, Value>)
    requires Tagged(live) && Keyed(vs, live).Some?
    ensures Ordered(Keyed(vs, live).value) && Faithful(Keyed(vs, live).value)
    ensures Tagged(AsMap(Keyed(vs, live).value))
  {
    if vs != [] {
      KeyedSpec(vs[..|vs| - 1], live);
      KeyedStep(vs, live);
    }
    FaithfulIff(Keyed(vs, live).value);
  }

  lemma {:induction false} KeyedOverlay(vs: seq<Value>, live: map<string, Value>)
    requires Tagged(live)
    ensures Keyed(vs, live).Some? <==> Keyed(vs, map[]).Some?
    ensures Keyed(vs, live).Some? ==>
      AsMap(Keyed(vs, live).value) == Overlay(AsMap(Keyed(vs, map[]).value), live)
  {
    if vs != [] {
      var n := |vs| - 1;
      KeyedOverlay(vs[..n], live);
      if Keyed(vs, live).Some? && Keyed(vs, map[]).Some? {
        KeyedSpec(vs[..n], live);
        KeyedSpec(vs[..n], map[]);
        KeyedStep(vs, live);
        KeyedStep(vs, map[]);
        OverlayStep(AsMap(Keyed(vs[..n], map[]).value), live, vs[n].id.value, vs[n]);
      }
    }
  }

  lemma OverlayStep(m: map<string, Value>, live: map<string, Value>, id: string, v: Value)
    ensures Overlay(m[id := v], live) == Overlay(m, live)[id := if id in live then live[id] else v]
  {
  }

  lemma {:induction false} IdsAreKeys(vs: seq<Value>, id: string)
    requires Keyed(vs, map[]).Some?
    ensures Some(id) in Ids(vs) <==> id in AsMap(Keyed(vs, map[]).value)
  {
    if vs != [] {
      var n := |vs| - 1;
      IdsAreKeys(vs[..n], id);
      KeyedSpec(vs[..n], map[]);
      KeyedStep(vs, map[]);
      IdsGrow(vs);
    }
  }

  lemma IdsGrow(vs: seq<Value>)
    requires vs != []
    ensures forall id :: id in Ids(vs) <==> id in Ids(vs[..|vs| - 1]) || id == vs[|vs| - 1].id
  {
    assert Ids(vs) == Ids(vs[..|vs| - 1]) + [vs[|vs| - 1].id];
  }

  // ----- One refresh, and one upsert -----

  /**
   * A refresh succeeds exactly on files whose lines parse to records with distinct ids; it keeps the set of ids,
   * takes every record the store has from the store, and leaves the others alone.
   */
  lemma RefreshMeans(c: Codec, s: Store, text: string)
    requires Lawful(c) && Tagged(s.live)
    ensures Refreshed(c, s, text).Some? <==> Records(c, text).Some?
    ensures Refreshed(c, s, text).Some? ==>
      && Records(c, Refreshed(c, s, text).value) == Some(Overlay(Records(c, text).value, s.live))
      && Canonical(c, Refreshed(c, s, text).value)
  {
    if Read(c, text).Some? {
      var vs := Read(c, text).value;
      KeyedOverlay(vs, s.live);
      if Keyed(vs, s.live).Some? {
        KeyedSpec(vs, s.live);
        WrittenHolds(c, Keyed(vs, s.live).value);
      }
    }
  }

  /** Looking the id up gives its own bead or none, never another bead whose id it shortens. */
  predicate Resolved(s: Store, id: string) {
    id in s.live || GetBead(s, id).None?
  }

  /** What an upsert makes of the records: at most the record of that id changes. */
  ghost function After(m: map<string, Value>, s: Store, id: string, allowInsert: bool): map<string, Value> {
    if id in s.live && (id in m || allowInsert) then m[id := s.live[id]] else m
  }

  lemma ResolvedUpsertMeans(c: Codec, s: Store, text: string, id: string, allowInsert: bool)
    requires Lawful(c) && Tagged(s.live) && Records(c, text).Some? && Resolved(s, id)
    ensures Upserted(c, s, text, id, allowInsert).Some?
    ensures var next := Upserted(c, s, text, id, allowInsert).value;
            && Records(c, next) == Some(After(Records(c, text).value, s, id, allowInsert))
            && (next == text || Canonical(c, next))
  {
    var vs := Read(c, text).value;
    IdsAreKeys(vs, id);
    if id in s.live && (id in Records(c, text).value || allowInsert) {
      KeyedSpec(vs, map[]);
      InsertFaithful(Keyed(vs, map[]).value, id, s.live[id]);
      WrittenHolds(c, Insert(Keyed(vs, map[]).value, id, s.live[id]));
    }
  }

  lemma InsertFaithful(es: seq<Entry<Value>>, id: string, v: Value)
    requires Ordered(es) && Faithful(es) && v.id == Some(id)
    ensures Ordered(Insert(es, id, v)) && Faithful(Insert(es, id, v)) && AsMap(Insert(es, id, v)) == AsMap(es)[id := v]
  {
    FaithfulIff(es);
    InsertOrdered(es, id, v);
    InsertMeans(es, id, v);
    FaithfulIff(Insert(es, id, v));
  }

  // ----- Any number of upserts against one refresh -----

  ghost function Among(live: map<string, Value>, ids: seq<string>): map<string, Value> {
    map id | id in live && id in ids :: live[id]
  }

  lemma OverlayNext(m: map<string, Value>, s: Store, ids: seq<string>, id: string)
    ensures After(Overlay(m, Among(s.live, ids)), s, id, false) == Overlay(m, Among(s.live, ids + [id]))
  {
  }

  lemma Unpublished(c: Codec, s: Store, text: string, id: string)
    requires Records(c, text).Some? && id !in Records(c, text).value
    ensures Upserted(c, s, text, id, false) == Some(text)
  {
    IdsAreKeys(Read(c, text).value, id);
  }

  lemma {:induction false} UpsertEachMeans(c: Codec, s: Store, text: string, ids: seq<string>)
    requires Lawful(c) && Tagged(s.live) && Records(c, text).Some?
    requires forall id :: id in Records(c, text).value ==> Resolved(s, id)
    ensures UpsertedEach(c, s, text, ids).Some?
    ensures var next := UpsertedEach(c, s, text, ids).value;
            && Records(c, next) == Some(Overlay(Records(c, text).value, Among(s.live, ids)))
            && (next == text || Canonical(c, next))
  {
    var m := Records(c, text).value;
    if ids == [] {
      assert Overlay(m, Among(s.live, ids)) == m;
    } else {
      var n := |ids| - 1;
      UpsertEachMeans(c, s, text, ids[..n]);
      var before := UpsertedEach(c, s, text, ids[..n]).value;
      OverlayNext(m, s, ids[..n], ids[n]);
      assert ids == ids[..n] + [ids[n]];
      if ids[n] in m { ResolvedUpsertMeans(c, s, before, ids[n], false); } else { Unpublished(c, s, before, ids[n]); }
    }
  }

  ghost predicate Covers(ids: seq<string>, m: map<string, Value>) {
    forall id :: id in m ==> id in ids
  }

  /** The upserts succeed and leave the records a refresh would. */
  ghost predicate EachIsRefresh(c: Codec, s: Store, text: string, ids: seq<string>) {
    && UpsertedEach(c, s, text, ids).Some? && Refreshed(c, s, text).Some?
    && Records(c, UpsertedEach(c, s, text, ids).value) == Records(c, Refreshed(c, s, text).value)
  }

  lemma UpsertingEachRefreshes(c: Codec, s: Store, text: string, ids: seq<string>)
    requires Lawful(c) && Tagged(s.live) && Records(c, text).Some? && Covers(ids, Records(c, text).value)
    requires forall id :: id in Records(c, text).value ==> Resolved(s, id)
    ensures EachIsRefresh(c, s, text, ids)
  {
    UpsertEachMeans(c, s, text, ids);
    RefreshMeans(c, s, text);
    assert Overlay(Records(c, text).value, Among(s.live, ids)) == Overlay(Records(c, text).value, s.live);
  }

  // ----- A published id that shortens another bead's id is lost -----

  ghost predicate Gone(c: Codec, text: string, id: string) {
    Read(c, text).Some? && Some(id) !in Ids(Read(c, text).value)
  }

  lemma WrittenGone(c: Codec, es: seq<Entry<Value>>, id: string)
    requires Lawful(c) && Identified(es) && forall i :: 0 <= i < |es| ==> es[i].value.id != Some(id)
    ensures Gone(c, Serialize(c, es), id)
  {
    WrittenReads(c, es);
  }

  lemma InsertedEntries(es: seq<Entry<Value>>, key: string, v: Value)
    requires Ordered(es) && Faithful(es)
    ensures forall e :: e in Insert(es, key, v) ==> e == Entry(key, v) || (e.key != key && e.value.id == Some(e.key))
    ensures forall e :: e in Insert(es, key, v) ==> e == Entry(key, v) || e.key in AsMap(es)
  {
    InsertOrdered(es, key, v);
    InsertMeans(es, key, v);
    FaithfulIff(es);
    forall e | e in Insert(es, key, v)
      ensures e == Entry(key, v) || (e.key != key && e.value.id == Some(e.key) && e.key in AsMap(es))
    {
      EntryOf(Insert(es, key, v), e);
    }
  }

  lemma {:induction false} EntryOf(es: seq<Entry<Value>>, e: Entry<Value>)
    requires Ordered(es) && e in es
    ensures e.key in AsMap(es) && AsMap(es)[e.key] == e.value
  {
    if e != es[0] {
      assert e in es[1..];
      EntryOf(es[1..], e);
      BelowOrders(es[0].key, e.key);
      BelowOrders(e.key, e.key);
    }
  }

  /** An upsert that writes leaves p out unless it rendered p's own bead, or p stayed published under another key. */
  lemma UpsertLoses(c: Codec, s: Store, text: string, id: string, p: string)
    requires Lawful(c) && Tagged(s.live) && p !in s.live && Upserted(c, s, text, id, false).Some?
    requires Gone(c, text, p) || (id == p && GetBead(s, p).Some?)
    ensures Gone(c, Upserted(c, s, text, id, false).value, p)
  {
    var vs, v := Read(c, text).value, GetBead(s, id);
    if Some(id) in Ids(vs) && v.Some? {
      var es := Keyed(vs, map[]).value;
      KeyedSpec(vs, map[]);
      IdsAreKeys(vs, p);
      InsertedEntries(es, id, v.value);
      var all := Insert(es, id, v.value);
      forall i | 0 <= i < |all| ensures all[i].value.id.Some? && all[i].value.id != Some(p) { assert all[i] in all; }
      WrittenGone(c, all, p);
    }
  }

  ghost predicate GoneOrFailed(c: Codec, text: Option<string>, p: string) {
    text.Some? ==> Gone(c, text.value, p)
  }

  lemma UpsertLosesNext(c: Codec, s: Store, before: Option<string>, id: string, p: string)
    requires Lawful(c) && Tagged(s.live) && !Resolved(s, p) && (GoneOrFailed(c, before, p) || id == p)
    ensures before.Some? ==> GoneOrFailed(c, Upserted(c, s, before.value, id, false), p)
  {
    if before.Some? && Upserted(c, s, before.value, id, false).Some? { UpsertLoses(c, s, before.value, id, p); }
  }

  lemma {:induction false} UpsertingLoses(c: Codec, s: Store, text: string, ids: seq<string>, p: string)
    requires Lawful(c) && Tagged(s.live) && !Resolved(s, p) && p in ids
    ensures GoneOrFailed(c, UpsertedEach(c, s, text, ids), p)
  {
    var n := |ids| - 1;
    var before := UpsertedEach(c, s, text, ids[..n]);
    if ids[n] != p {
      assert p in ids[..n];
      UpsertingLoses(c, s, text, ids[..n], p);
    }
    UpsertLosesNext(c, s, before, ids[n], p);
  }

  /**
   * Upserting every published id, in any order and any number of times, gives what one refresh gives exactly when
   * no published id that the store lacks is short for a bead it has.
   */
  lemma EachIsRefreshIff(c: Codec, s: Store, text: string, ids: seq<string>)
    requires Lawful(c) && Tagged(s.live) && Records(c, text).Some? && Covers(ids, Records(c, text).value)
    ensures EachIsRefresh(c, s, text, ids) <==> forall id :: id in Records(c, text).value ==> Resolved(s, id)
  {
    if p :| p in Records(c, text).value && !Resolved(s, p) {
      if UpsertedEach(c, s, text, ids).Some? {
        var next := UpsertedEach(c, s, text, ids).value;
        UpsertingLoses(c, s, text, ids, p);
        RefreshMeans(c, s, text);
        if Records(c, next).Some? { IdsAreKeys(Read(c, next).value, p); }
      }
    } else {
      UpsertingEachRefreshes(c, s, text, ids);
    }
  }

  /** From a canonical file the two even leave the same bytes. */
  lemma EachIsRefreshBytes(c: Codec, s: Store, text: string, ids: seq<string>)
    requires Lawful(c) && Tagged(s.live) && Canonical(c, text)
    requires Records(c, text).Some? && Covers(ids, Records(c, text).value)
    requires forall id :: id in Records(c, text).value ==> Resolved(s, id)
    ensures UpsertedEach(c, s, text, ids) == Refreshed(c, s, text)
  {
    UpsertEachMeans(c, s, text, ids);
    UpsertingEachRefreshes(c, s, text, ids);
    RefreshMeans(c, s, text);
    CanonicalUnique(c, UpsertedEach(c, s, text, ids).value, Refreshed(c, s, text).value);
  }

  // ----- Publishing named ids -----

  ghost predicate Distinct(ids: seq<string>) {
    forall i, j :: 0 <= i < j < |ids| ==> ids[i] != ids[j]
  }

  /** Each list holds its ids once: those the store lacks, and the others by how the file's record of them changed. */
  ghost predicate Accounts(r: Report, m: map<string, Value>, live: map<string, Value>, ids: seq<string>) {
    && Distinct(r.missing) && Distinct(r.inserted) && Distinct(r.updated) && Distinct(r.same)
    && (forall id :: id in r.missing <==> id in ids && id !in live)
    && (forall id :: id in r.inserted <==> id in ids && id in live && id !in m)
    && (forall id :: id in r.updated <==> id in ids && id in live && id in m && m[id] != live[id])
    && (forall id :: id in r.same <==> id in ids && id in live && id in m && m[id] == live[id])
  }

  lemma NamedAreKeys(vs: seq<Value>, id: string)
    requires Keyed(vs, map[]).Some?
    ensures id in Named(vs) <==> id in AsMap(Keyed(vs, map[]).value)
  {
    IdsAreKeys(vs, id);
    if Some(id) in Ids(vs) {
      var k :| 0 <= k < |vs| && Ids(vs)[k] == Some(id);
      assert vs[k].id.Some? && vs[k].id.value == id;
    }
    if id in Named(vs) {
      var k :| 0 <= k < |vs| && vs[k].id.Some? && vs[k].id.value == id;
      assert Ids(vs)[k] == Some(id);
    }
  }

  lemma FiledAccounts(r: Report, m: map<string, Value>, live: map<string, Value>, ids: seq<string>, id: string)
    requires Accounts(r, m, live, ids) && id !in ids && id in live
    ensures Accounts(Filed(r, id, id in m, id !in m || m[id] != live[id]), m, live, ids + [id])
  {
  }

  lemma MissingAccounts(r: Report, m: map<string, Value>, live: map<string, Value>, ids: seq<string>, id: string)
    requires Accounts(r, m, live, ids) && id !in ids && id !in live
    ensures Accounts(r.(missing := r.missing + [id]), m, live, ids + [id])
  {
  }

  /** An upsert of a bead the store has changes the bytes exactly when it changes the record. */
  lemma ChangesIff(c: Codec, s: Store, text: string, id: string)
    requires Lawful(c) && Tagged(s.live) && Canonical(c, text) && Records(c, text).Some? && id in s.live
    ensures Upserted(c, s, text, id, true).Some? && Canonical(c, Upserted(c, s, text, id, true).value)
    ensures var m := Records(c, text).value;
            && Records(c, Upserted(c, s, text, id, true).value) == Some(m[id := s.live[id]])
            && (Upserted(c, s, text, id, true).value != text <==> id !in m || m[id] != s.live[id])
  {
    ResolvedUpsertMeans(c, s, text, id, true);
    var m, next := Records(c, text).value, Upserted(c, s, text, id, true).value;
    if id in m && m[id] == s.live[id] {
      assert m[id := s.live[id]] == m;
      CanonicalUnique(c, text, next);
    }
  }

  lemma AmongNext(m: map<string, Value>, live: map<string, Value>, ids: seq<string>, id: string)
    ensures id in live ==> m + Among(live, ids + [id]) == (m + Among(live, ids))[id := live[id]]
    ensures id !in live || id in ids ==> Among(live, ids + [id]) == Among(live, ids)
  {
  }

  /** The publication succeeds, adds or replaces the records of the named live beads, and files every id. */
  ghost predicate PublishesNamed(c: Codec, s: Store, text: string, ids: seq<string>)
    requires Records(c, text).Some?
  {
    var p := Published(c, s, text, Named(Read(c, text).value), ids);
    && p.Some? && Canonical(c, p.value.0)
    && Records(c, p.value.0) == Some(Records(c, text).value + Among(s.live, ids))
    && Accounts(p.value.1, Records(c, text).value, s.live, ids)
  }

  lemma PublishNothing(c: Codec, s: Store, text: string)
    requires Canonical(c, text) && Records(c, text).Some?
    ensures PublishesNamed(c, s, text, [])
  {
    assert Records(c, text).value + Among(s.live, []) == Records(c, text).value;
  }

  lemma PublishStep(c: Codec, s: Store, text: string, ids: seq<string>, id: string)
    requires Lawful(c) && Tagged(s.live) && Records(c, text).Some? && Resolved(s, id)
    requires PublishesNamed(c, s, text, ids)
    ensures PublishesNamed(c, s, text, ids + [id])
  {
    var m, was := Records(c, text).value, Named(Read(c, text).value);
    var before := Published(c, s, text, was, ids).value;
    assert (ids + [id])[..|ids|] == ids;
    AmongNext(m, s.live, ids, id);
    NamedAreKeys(Read(c, text).value, id);
    if id in ids {
    } else if id !in s.live {
      MissingAccounts(before.1, m, s.live, ids, id);
    } else {
      ChangesIff(c, s, before.0, id);
      FiledAccounts(before.1, m, s.live, ids, id);
    }
  }

  lemma {:induction false} ResolvedPublishMeans(c: Codec, s: Store, text: string, ids: seq<string>)
    requires Lawful(c) && Tagged(s.live) && Canonical(c, text) && Records(c, text).Some?
    requires forall id :: id in ids ==> Resolved(s, id)
    ensures PublishesNamed(c, s, text, ids)
    decreases |ids|
  {
    if ids == [] {
      PublishNothing(c, s, text);
    } else {
      var init, last := SplitIds(ids);
      ResolvedPublishMeans(c, s, text, init);
      PublishStep(c, s, text, init, last);
    }
  }

  lemma SplitIds(ids: seq<string>) returns (init: seq<string>, last: string)
    requires ids != []
    ensures ids == init + [last] && |init| < |ids| && last in ids && forall id :: id in init ==> id in ids
  {
    init, last := ids[..|ids| - 1], ids[|ids| - 1];
  }

  // ----- Publishing a shortened id -----

  lemma RepeatFails(vs: seq<Value>, i: nat, j: nat)
    requires i < j < |vs| && vs[i].id.Some? && vs[i].id == vs[j].id
    ensures Keyed(vs, map[]).None?
  {
    if Keyed(vs[..j], map[]).Some? {
      assert Ids(vs[..j])[i] == vs[i].id;
      IdsAreKeys(vs[..j], vs[i].id.value);
    }
    assert vs[..j + 1][..j] == vs[..j];
    KeyedFails(vs, map[], j + 1);
  }

  lemma EntryAt(es: seq<Entry<Value>>, id: string) returns (i: nat)
    requires id in AsMap(es)
    ensures i < |es| && es[i] == Entry(id, AsMap(es)[id])
  {
    KeysAreEntries(es, id);
    i :| 0 <= i < |es| && es[i] == Entry(id, AsMap(es)[id]);
  }

  lemma WrongKeyRepeats(es: seq<Entry<Value>>, id: string, v: Value, q: string)
    requires Ordered(es) && Faithful(es) && q in AsMap(es) && q != id && v.id == Some(q)
    ensures Identified(Insert(es, id, v)) && Keyed(Values(Insert(es, id, v)), map[]).None?
  {
    var all := Insert(es, id, v);
    InsertedIdentified(es, id, v);
    InsertMeans(es, id, v);
    OwnRecord(es, q);
    var i := EntryAt(all, id);
    var j := EntryAt(all, q);
    RepeatFails(Values(all), if i < j then i else j, if i < j then j else i);
  }

  lemma InsertedIdentified(es: seq<Entry<Value>>, id: string, v: Value)
    requires Ordered(es) && Faithful(es) && v.id.Some?
    ensures Identified(Insert(es, id, v))
  {
    var all := Insert(es, id, v);
    InsertedEntries(es, id, v);
    forall k | 0 <= k < |all| ensures all[k].value.id.Some? { assert all[k] in all; }
  }

  lemma OwnRecord(es: seq<Entry<Value>>, q: string)
    requires Ordered(es) && Faithful(es) && q in AsMap(es)
    ensures AsMap(es)[q].id == Some(q)
  {
    FaithfulIff(es);
  }

  ghost predicate DistinctIds(vs: seq<Value>) {
    && (forall i :: 0 <= i < |vs| ==> vs[i].id.Some?)
    && (forall i, j :: 0 <= i < j < |vs| ==> vs[i].id != vs[j].id)
  }

  lemma {:induction false} DistinctIdsKeyed(vs: seq<Value>)
    requires DistinctIds(vs)
    ensures Keyed(vs, map[]).Some?
  {
    if vs != [] {
      var n := |vs| - 1;
      DistinctIdsKeyed(vs[..n]);
      IdsAreKeys(vs[..n], vs[n].id.value);
    }
  }

  lemma {:induction false} OrderedDistinct(es: seq<Entry<Value>>, i: nat, j: nat)
    requires Ordered(es) && i < j < |es|
    ensures es[i].key != es[j].key
  {
    if i > 0 {
      OrderedDistinct(es[1..], i - 1, j - 1);
    } else {
      KeyListed(es[1..], es[1..][j - 1]);
      BelowOrders(es[0].key, es[0].key);
    }
  }

  /** Under a wrong key a record still leaves the ids distinct when its own is not among them. */
  lemma WrongKeyKeyed(es: seq<Entry<Value>>, id: string, v: Value, q: string)
    requires Ordered(es) && Faithful(es) && q !in AsMap(es) && v.id == Some(q)
    ensures Keyed(Values(Insert(es, id, v)), map[]).Some?
  {
    var all := Insert(es, id, v);
    InsertedIdentified(es, id, v);
    InsertedEntries(es, id, v);
    InsertOrdered(es, id, v);
    forall i, j | 0 <= i < j < |all| ensures Values(all)[i].id != Values(all)[j].id {
      OrderedDistinct(all, i, j);
      assert all[i] in all && all[j] in all;
    }
    DistinctIdsKeyed(Values(all));
  }

  /**
   * Publishing an id that only shortens the id of another bead writes that bead in its place. If the bead was already
   * published, and only then, the file now repeats its id, and every refresh of it fails.
   */
  lemma ShortIdSpoilsFile(c: Codec, s: Store, text: string, id: string, q: string)
    requires Lawful(c) && Tagged(s.live) && Records(c, text).Some?
    requires id !in s.live && q in s.live && GetBead(s, id) == Some(s.live[q])
    ensures Upserted(c, s, text, id, true).Some?
    ensures Refreshed(c, s, Upserted(c, s, text, id, true).value).None? <==> q in Records(c, text).value
  {
    var es := Keyed(Read(c, text).value, map[]).value;
    KeyedSpec(Read(c, text).value, map[]);
    if q in AsMap(es) { WrongKeyRepeats(es, id, s.live[q], q); } else { WrongKeyKeyed(es, id, s.live[q], q); }
    InsertedIdentified(es, id, s.live[q]);
    WrittenReads(c, Insert(es, id, s.live[q]));
    RefreshMeans(c, s, Serialize(c, Insert(es, id, s.live[q])));
  }

  // ----- Upserts and publications that do what they say -----

  lemma OtherBead(s: Store, id: string) returns (q: string)
    requires Tagged(s.live) && !Resolved(s, id)
    ensures q in s.live && q != id && GetBead(s, id) == Some(s.live[q])
  {
    q :| q in s.live && GetBead(s, id).value == s.live[q];
  }

  /** Under a wrong key a record brings its own id into the file. */
  lemma WrongKeyBrings(c: Codec, es: seq<Entry<Value>>, id: string, v: Value, q: string)
    requires Lawful(c) && Ordered(es) && Faithful(es) && q !in AsMap(es) && v.id == Some(q)
    ensures var r := Records(c, Serialize(c, Insert(es, id, v))); r.Some? && q in r.value
  {
    var all := Insert(es, id, v);
    InsertedIdentified(es, id, v);
    WrittenReads(c, all);
    WrongKeyKeyed(es, id, v, q);
    InsertMeans(es, id, v);
    var i := EntryAt(all, id);
    assert Ids(Values(all))[i] == Some(q);
    IdsAreKeys(Values(all), q);
  }

  lemma WrongKeySpoils(c: Codec, es: seq<Entry<Value>>, id: string, v: Value, q: string)
    requires Lawful(c) && Ordered(es) && Faithful(es) && q in AsMap(es) && q != id && v.id == Some(q)
    ensures Records(c, Serialize(c, Insert(es, id, v))) == None
  {
    InsertedIdentified(es, id, v);
    WrittenReads(c, Insert(es, id, v));
    WrongKeyRepeats(es, id, v, q);
  }

  /** Upserting an id that only shortens another bead's, where it writes at all, never leaves the records alone. */
  lemma ShortUpsertMisses(c: Codec, s: Store, text: string, id: string, allowInsert: bool)
    requires Lawful(c) && Tagged(s.live) && Records(c, text).Some? && !Resolved(s, id)
    requires id in Records(c, text).value || allowInsert
    ensures var next := Upserted(c, s, text, id, allowInsert);
            next.Some? && Records(c, next.value) != Records(c, text)
  {
    var vs := Read(c, text).value;
    var es := Keyed(vs, map[]).value;
    var q := OtherBead(s, id);
    KeyedSpec(vs, map[]);
    IdsAreKeys(vs, id);
    if q in AsMap(es) { WrongKeySpoils(c, es, id, s.live[q], q); } else { WrongKeyBrings(c, es, id, s.live[q], q); }
  }

  /** The upsert succeeds and changes at most the record of its id. */
  ghost predicate UpsertsOwn(c: Codec, s: Store, text: string, id: string, allowInsert: bool)
    requires Records(c, text).Some?
  {
    var next := Upserted(c, s, text, id, allowInsert);
    next.Some? && Records(c, next.value) == Some(After(Records(c, text).value, s, id, allowInsert))
  }

  /**
   * An upsert changes at most its own id's record exactly when the id does not just shorten another bead's, or is
   * neither published nor to be inserted; it then leaves the file alone or writes a sorted one.
   */
  lemma UpsertMeans(c: Codec, s: Store, text: string, id: string, allowInsert: bool)
    requires Lawful(c) && Tagged(s.live) && Records(c, text).Some?
    ensures UpsertsOwn(c, s, text, id, allowInsert) <==>
      Resolved(s, id) || (id !in Records(c, text).value && !allowInsert)
    ensures UpsertsOwn(c, s, text, id, allowInsert) ==>
      var next := Upserted(c, s, text, id, allowInsert).value; next == text || Canonical(c, next)
  {
    if Resolved(s, id) {
      ResolvedUpsertMeans(c, s, text, id, allowInsert);
    } else if id !in Records(c, text).value && !allowInsert {
      Unpublished(c, s, text, id);
    } else {
      ShortUpsertMisses(c, s, text, id, allowInsert);
    }
  }

  lemma {:induction false} NeverMissing(
    c: Codec, s: Store, text: string, was: set<string>, ids: seq<string>, id: string)
    requires GetBead(s, id).Some? && Published(c, s, text, was, ids).Some?
    ensures id !in Published(c, s, text, was, ids).value.1.missing
  {
    if ids != [] { NeverMissing(c, s, text, was, ids[..|ids| - 1], id); }
  }

  /**
   * Publishing succeeds, adds or replaces exactly the records of the named beads the store has, and files every id,
   * once, under what happened to it, exactly when none of the ids just shortens another bead's.
   */
  lemma PublishMeans(c: Codec, s: Store, text: string, ids: seq<string>)
    requires Lawful(c) && Tagged(s.live) && Canonical(c, text) && Records(c, text).Some?
    ensures PublishesNamed(c, s, text, ids) <==> forall id :: id in ids ==> Resolved(s, id)
  {
    if id :| id in ids && !Resolved(s, id) {
      var was := Named(Read(c, text).value);
      if Published(c, s, text, was, ids).Some? { NeverMissing(c, s, text, was, ids, id); }
    } else {
      ResolvedPublishMeans(c, s, text, ids);
    }
  }
}
