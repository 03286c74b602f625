/** The git-tracked bead projection: refreshing it whole, one record at a time, and publishing named ids. */
module JsonlSync {
  import opened Text
  import opened Trimming
  import opened Markers
  import opened TextLines
  import opened OrderedRecords
  import opened ShortIds

  /** A parsed record: its string `id`, when it has one, and everything else it holds. */
  datatype Value = Value(id: Option<string>, fields: string)

  /** Rendering a record as a line and parsing a line. */
  datatype Codec = Codec(render: Value -> string, parse: string -> Option<Value>)

  /** Records render as JSON objects: one line, no space at either end, and parsing gives the record back. */
  ghost predicate Lawful(c: Codec) {
    forall v: Value :: v.id.Some? ==>
      var line := c.render(v);
      line != "" && NoNewline(line) && !IsSpace(line[0]) && !IsSpace(line[|line| - 1]) && c.parse(line) == Some(v)
  }

  /** What the store renders for each of its beads, and which ids `LIKE '%-<short>'` selects. */
  datatype Store = Store(live: map<string, Value>, like: (string, string) -> bool)

  ghost predicate Tagged(m: map<string, Value>) {
    forall id :: id in m ==> m[id].id == Some(id)
  }

  /** The bead with that id, else the only bead whose id it shortens. */
  function GetBead(s: Store, id: string): (v: Option<Value>)
    ensures id in s.live ==> v == Some(s.live[id])
    ensures v.Some? ==> exists q :: q in s.live && v.value == s.live[q]
  {
    match Resolve(s.live.Keys, s.like, id)
    case Some(full) => Some(s.live[full])
    case None => None
  }

  // ----- Files and the records they hold -----

  /** Each non-blank line parsed; a line that does not parse fails the read. */
  function ReadLines(c: Codec, lines: seq<string>): Option<seq<Value>> {
    if lines == [] then Some([])
    else
      var before := ReadLines(c, lines[..|lines| - 1]);
      var line := Trim(lines[|lines| - 1]);
      if before.None? || line == "" then before
      else
        match c.parse(line)
        case None => None
        case Some(v) => Some(before.value + [v])
  }

  /** A line counts for what is between its blanks: nothing, a record, or the failure of the whole. */
  lemma ReadLinesMeans(c: Codec, lines: seq<string>, last: string, core: string)
    requires Core(last, core)
    ensures ReadLines(c, []) == Some([])
    ensures var before, r := ReadLines(c, lines), ReadLines(c, lines + [last]);
            && (core == "" ==> r == before)
            && (core != "" ==> (r.Some? <==> before.Some? && c.parse(core).Some?))
            && (core != "" && r.Some? ==> r.value == before.value + [c.parse(core).value])
  {
    TrimIff(last, core);
    assert (lines + [last])[..|lines|] == lines;
  }

  function Read(c: Codec, text: string): Option<seq<Value>> {
    ReadLines(c, Lines(text))
  }

  /** Records keyed by id, replaced by the live ones; a missing or repeated id is an error. */
  function Keyed(vs: seq<Value>, live: map<string, Value>): Option<seq<Entry<Value>>> {
    if vs == [] then Some([])
    else
      var before, v := Keyed(vs[..|vs| - 1], live), vs[|vs| - 1];
      if before.None? || v.id.None? || v.id.value in AsMap(before.value) then None
      else Some(Insert(before.value, v.id.value, if v.id.value in live then live[v.id.value] else v))
  }

  /** The id-to-record map a file holds; None when a line does not parse, or an id is missing or repeated. */
  function Records(c: Codec, text: string): Option<map<string, Value>> {
    match Read(c, text)
    case None => None
    case Some(vs) =>
      match Keyed(vs, map[])
      case None => None
      case Some(es) => Some(AsMap(es))
  }

  function Rendered(c: Codec, es: seq<Entry<Value>>): seq<string> {
    if es == [] then [] else Rendered(c, es[..|es| - 1]) + [c.render(es[|es| - 1].value)]
  }

  function Serialize(c: Codec, es: seq<Entry<Value>>): string {
    Terminated(Rendered(c, es))
  }

  // ----- The operations, as functions of the file -----

  /** The file a whole refresh writes; None when it fails. */
  function Refreshed(c: Codec, s: Store, text: string): Option<string> {
    match Read(c, text)
    case None => None
    case Some(vs) =>
      match Keyed(vs, s.live)
      case None => None
      case Some(es) => Some(Serialize(c, es))
  }

  function Ids(vs: seq<Value>): seq<Option<string>> {
    seq(|vs|, i requires 0 <= i < |vs| => vs[i].id)
  }

  /** The file after one upsert; None when it fails. */
  function Upserted(c: Codec, s: Store, text: string, id: string, allowInsert: bool): Option<string> {
    match Read(c, text)
    case None => None
    case Some(vs) =>
      var v := GetBead(s, id);
      if (Some(id) !in Ids(vs) && !allowInsert) || v.None? then Some(text)
      else
        match Keyed(vs, map[])
        case None => None
        case Some(es) => Some(Serialize(c, Insert(es, id, v.value)))
  }

  /** Upserting each id in turn, inserting none; None when one of them fails. */
  function UpsertedEach(c: Codec, s: Store, text: string, ids: seq<string>): Option<string> {
    if ids == [] then Some(text)
    else
      match UpsertedEach(c, s, text, ids[..|ids| - 1])
      case None => None
      case Some(before) => Upserted(c, s, before, ids[|ids| - 1], false)
  }

  datatype Report = Report(inserted: seq<string>, updated: seq<string>, same: seq<string>, missing: seq<string>)

  function Filed(r: Report, id: string, was: bool, changed: bool): Report {
    if !changed then r.(same := r.same + [id])
    else if was then r.(updated := r.updated + [id])
    else r.(inserted := r.inserted + [id])
  }

  /** The file and the report after publishing ids; None when an upsert fails. */
  function Published(c: Codec, s: Store, text: string, was: set<string>, ids: seq<string>): Option<(string, Report)> {
    if ids == [] then Some((text, Report([], [], [], [])))
    else
      var id := ids[|ids| - 1];
      match Published(c, s, text, was, ids[..|ids| - 1])
      case None => None
      case Some((before, r)) =>
        if id in ids[..|ids| - 1] then Some((before, r))
        else if GetBead(s, id).None? then Some((before, r.(missing := r.missing + [id])))
        else
          match Upserted(c, s, before, id, true)
          case None => None
          case Some(after) => Some((after, Filed(r, id, id in was, after != before)))
  }

  function Named(vs: seq<Value>): set<string> {
    set k | 0 <= k < |vs| && vs[k].id.Some? :: vs[k].id.value
  }

  // ----- The projection file -----

  method ReadBeadsJsonl(c: Codec, text: string) returns (r: Option<seq<Value>>)
    ensures r == Read(c, text)
  {
    var lines, out := Lines(text), [];
    for i := 0 to |lines|
      invariant ReadLines(c, lines[..i]) == Some(out)
      invariant ReadLines(c, lines[..i]).None? ==> Read(c, text).None?
    {
      assert lines[..i + 1][..i] == lines[..i];
      var line := Trim(lines[i]);
      if line == "" { continue; }
      var v := c.parse(line);
      if v.None? {
        ReadFails(c, lines, i + 1);
        return None;
      }
      out := out + [v.value];
    }
    assert lines[..|lines|] == lines;
    r := Some(out);
  }

  lemma {:induction false} ReadFails(c: Codec, lines: seq<string>, i: nat)
    requires i <= |lines| && ReadLines(c, lines[..i]).None?
    ensures ReadLines(c, lines).None?
    decreases |lines| - i
  {
    if i == |lines| {
      assert lines[..i] == lines;
    } else {
      assert lines[..i + 1][..i] == lines[..i];
      ReadFails(c, lines, i + 1);
    }
  }

  /** Keys records, the live ones first; fails at the first missing or repeated id. */
  method KeyRecords(vs: seq<Value>, live: map<string, Value>) returns (r: Option<seq<Entry<Value>>>)
    ensures r == Keyed(vs, live)
  {
    var es: seq<Entry<Value>> := [];
    for i := 0 to |vs|
      invariant Keyed(vs[..i], live) == Some(es)
    {
      assert vs[..i + 1][..i] == vs[..i];
      if vs[i].id.None? || vs[i].id.value in AsMap(es) {
        KeyedFails(vs, live, i + 1);
        return None;
      }
      var id := vs[i].id.value;
      es := Insert(es, id, if id in live then live[id] else vs[i]);
    }
    assert vs[..|vs|] == vs;
    r := Some(es);
  }

  lemma {:induction false} KeyedFails(vs: seq<Value>, live: map<string, Value>, i: nat)
    requires i <= |vs| && Keyed(vs[..i], live).None?
    ensures Keyed(vs, live).None?
    decreases |vs| - i
  {
    if i == |vs| {
      assert vs[..i] == vs;
    } else {
      assert vs[..i + 1][..i] == vs[..i];
      KeyedFails(vs, live, i + 1);
    }
  }

  ghost function Seen(ids: seq<string>): set<string> {
    set id | id in ids
  }

  lemma SeenNext(ids: seq<string>, i: nat)
    requires i < |ids|
    ensures Seen(ids[..i + 1]) == Seen(ids[..i]) + {ids[i]}
  {
    assert ids[..i + 1] == ids[..i] + [ids[i]];
  }

  /** The first n ids are published, giving the text, and the upsert of the next one fails. */
  ghost predicate FailsBehind(
    c: Codec, s: Store, before: string, was: set<string>, ids: seq<string>, n: nat, text: string)
  {
    && n < |ids| && Published(c, s, before, was, ids[..n]).Some?
    && Published(c, s, before, was, ids[..n]).value.0 == text && Published(c, s, before, was, ids[..n + 1]).None?
  }

  /** What a failing publication leaves: the publications before the one that fails stay written. */
  ghost predicate FailsAt(c: Codec, s: Store, before: string, was: set<string>, ids: seq<string>, text: string) {
    exists n :: FailsBehind(c, s, before, was, ids, n, text)
  }

  class Projection {
    const codec: Codec
    /** A store that is not Dolt, with a git-tracked `.beads/beads.jsonl`. */
    const optedIn: bool
    var content: string

    constructor (codec: Codec, optedIn: bool, content: string)
      ensures this.codec == codec && this.optedIn == optedIn && this.content == content
    {
      this.codec := codec;
      this.optedIn := optedIn;
      this.content := content;
    }

    /** Rewrites the file from the store; an error leaves it alone. */
    method Refresh(s: Store) returns (r: Option<bool>)
      modifies this`content
      ensures !optedIn ==> r == Some(false) && content == old(content)
      ensures optedIn ==>
        match Refreshed(codec, s, old(content))
        case None => r == None && content == old(content)
        case Some(next) => r == Some(true) && content == next
    {
      if !optedIn { return Some(false); }
      var published := ReadBeadsJsonl(codec, content);
      if published.None? { return None; }
      var es := KeyRecords(published.value, s.live);
      if es.None? { return None; }
      content := Serialize(codec, es.value);
      r := Some(true);
    }

    /** Re-renders one record; reports whether the file changed, and an error leaves it alone. */
    method Upsert(s: Store, id: string, allowInsert: bool) returns (r: Option<bool>)
      modifies this`content
      ensures !optedIn ==> r == Some(false) && content == old(content)
      ensures optedIn ==>
        match Upserted(codec, s, old(content), id, allowInsert)
        case None => r == None && content == old(content)
        case Some(next) => r == Some(next != old(content)) && content == next
    {
      if !optedIn { return Some(false); }
      var published := ReadBeadsJsonl(codec, content);
      if published.None? { return None; }
      if Some(id) !in Ids(published.value) && !allowInsert { return Some(false); }
      var v := GetBead(s, id);
      if v.None? { return Some(false); }
      var es := KeyRecords(published.value, map[]);
      if es.None? { return None; }
      var next := Serialize(codec, Insert(es.value, id, v.value));
      if content == next { return Some(false); }
      content := next;
      r := Some(true);
    }

    /**
     * Publishes each named id once, inserting it if need be, and reports what became of it; when one fails, the ones
     * before it stay published.
     */
    method PublishIds(s: Store, ids: seq<string>) returns (r: Option<Report>)
      modifies this`content
      ensures !optedIn ==> r == Some(Report([], [], [], [])) && content == old(content)
      ensures optedIn && Read(codec, old(content)).None? ==> r == None && content == old(content)
      ensures optedIn && Read(codec, old(content)).Some? ==>
        match Published(codec, s, old(content), Named(Read(codec, old(content)).value), ids)
        case None => r == None && FailsAt(codec, s, old(content), Named(Read(codec, old(content)).value), ids, content)
        case Some((next, report)) => r == Some(report) && content == next
    {
      var report := Report([], [], [], []);
      if !optedIn { return Some(report); }
      var published := ReadBeadsJsonl(codec, content);
      if published.None? { return None; }
      var was := Named(published.value);
      var seen: set<string> := {};
      for i := 0 to |ids|
        invariant seen == Seen(ids[..i])
        invariant Published(codec, s, old(content), was, ids[..i]) == Some((content, report))
      {
        assert ids[..i + 1][..i] == ids[..i];
        SeenNext(ids, i);
        if ids[i] in seen { continue; }
        seen := seen + {ids[i]};
        if GetBead(s, ids[i]).None? {
          report := report.(missing := report.missing + [ids[i]]);
          continue;
        }
        var changed := Upsert(s, ids[i], true);
        if changed.None? {
          PublishFails(codec, s, old(content), was, ids, i + 1);
          assert FailsBehind(codec, s, old(content), was, ids, i, content);
          return None;
        }
        report := Filed(report, ids[i], ids[i] in was, changed.value);
      }
      assert ids[..|ids|] == ids;
      r := Some(report);
    }
  }

  lemma {:induction false} PublishFails(c: Codec, s: Store, text: string, was: set<string>, ids: seq<string>, i: nat)
    requires i <= |ids| && Published(c, s, text, was, ids[..i]).None?
    ensures Published(c, s, text, was, ids).None?
    decreases |ids| - i
  {
    if i == |ids| {
      assert ids[..i] == ids;
    } else {
      assert ids[..i + 1][..i] == ids[..i];
      PublishFails(c, s, text, was, ids, i + 1);
    }
  }
}
