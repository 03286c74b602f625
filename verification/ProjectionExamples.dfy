/** A codec the laws of the projection hold of, and files on which the operations differ. */
module ProjectionExamples {
  import opened Text
  import opened Markers
  import opened OrderedRecords
  import opened JsonlSync
  import opened ProjectionLaws

  // ----- One line per record, by escaping newlines -----

  function Pair(c: char): string {
    if c == '\n' then "n-" else ['.', c]
  }

  function Coded(s: string): (r: string)
    ensures NoNewline(r)
  {
    if s == "" then "" else Pair(s[0]) + Coded(s[1..])
  }

  /** The coded text with a mark behind it, ahead of whatever follows. */
  function Marked(s: string, rest: string): string {
    Coded(s) + ("," + rest)
  }

  function Line(v: Value): string {
    "{" + Marked(if v.id.Some? then v.id.value else "", Marked(v.fields, "}"))
  }

  lemma MarkedNext(s: string, rest: string)
    requires s != ""
    ensures var r := Marked(s, rest); |r| > 2 && r[..2] == Pair(s[0]) && r[2..] == Marked(s[1..], rest) && r[0] != ','
  {
    assert Marked(s, rest) == Pair(s[0]) + Marked(s[1..], rest);
  }

  lemma {:induction false} MarkedInjective(a: string, x: string, b: string, y: string)
    requires Marked(a, x) == Marked(b, y)
    ensures a == b && x == y
  {
    if a != "" { MarkedNext(a, x); }
    if b != "" { MarkedNext(b, y); }
    if a != "" && b != "" {
      assert a[0] == b[0] by { assert Pair(a[0])[1] == Pair(b[0])[1] && Pair(a[0])[0] == Pair(b[0])[0]; }
      MarkedInjective(a[1..], x, b[1..], y);
      assert a == [a[0]] + a[1..] && b == [b[0]] + b[1..];
    } else {
      assert Marked("", x)[1..] == x && Marked("", y)[1..] == y;
    }
  }

  lemma LineInjective(v: Value, w: Value)
    requires v.id.Some? && w.id.Some? && Line(v) == Line(w)
    ensures v == w
  {
    var x, y := Marked(v.fields, "}"), Marked(w.fields, "}");
    assert Line(v)[1..] == Marked(v.id.value, x) && Line(w)[1..] == Marked(w.id.value, y);
    MarkedInjective(v.id.value, x, w.id.value, y);
    MarkedInjective(v.fields, "}", w.fields, "}");
  }

  ghost function Parsed(line: string): Option<Value> {
    if v: Value :| v.id.Some? && Line(v) == line then Some(v) else None
  }

  lemma LineShape(v: Value)
    ensures var line := Line(v); |line| > 1 && NoNewline(line) && line[0] == '{' && line[|line| - 1] == '}'
  {
    var tail := Marked(v.fields, "}");
    assert tail[|tail| - 1] == '}' && NoNewline(tail);
  }

  lemma LineParses(v: Value)
    requires v.id.Some?
    ensures Parsed(Line(v)) == Some(v)
  {
    LineInjective(v, Parsed(Line(v)).value);
  }

  /** So there are codecs as the laws require them. */
  lemma LawfulCodecExists()
    ensures exists c :: Lawful(c)
  {
    var c := Codec(Line, Parsed);
    forall v: Value | v.id.Some? ensures c.parse(c.render(v)) == Some(v) { LineParses(v); }
    forall v: Value { LineShape(v); }
    assert Lawful(c);
  }

  // ----- A store with one bead, whose id ends in an id that is published too -----

  function OneBead(fields: string): Store {
    Store(map["rsry-abc" := Value(Some("rsry-abc"), fields)], (q: string, id: string) => q == "rsry-" + id)
  }

  lemma ShortIdFinds(fields: string)
    ensures GetBead(OneBead(fields), "abc") == Some(Value(Some("rsry-abc"), fields))
  {
    var s := OneBead(fields);
    assert "rsry-" + "abc" == "rsry-abc";
    var suffixed := set q | q in s.live.Keys && s.like(q, "abc");
    assert suffixed == {"rsry-abc"};
  }

  function Alone(v: Value): seq<Entry<Value>>
    requires v.id.Some?
  {
    [Entry(v.id.value, v)]
  }

  lemma AloneHolds(c: Codec, v: Value)
    requires Lawful(c) && v.id.Some?
    ensures Records(c, Serialize(c, Alone(v))) == Some(map[v.id.value := v])
  {
    assert Alone(v)[1..] == [];
    assert AsMap(Alone(v)[1..]) == map[];
    WrittenHolds(c, Alone(v));
  }

  /** The file holds "abc", which the store lacks: a refresh keeps it and an upsert of it does not. */
  lemma UpsertIsNotRefresh(c: Codec, fields: string, own: string)
    requires Lawful(c)
    ensures var text := Serialize(c, Alone(Value(Some("abc"), own)));
            Records(c, text).Some? && !EachIsRefresh(c, OneBead(fields), text, ["abc"])
  {
    var v := Value(Some("abc"), own);
    var s := OneBead(fields);
    AloneHolds(c, v);
    ShortIdFinds(fields);
    assert !Resolved(s, "abc");
    EachIsRefreshIff(c, s, Serialize(c, Alone(v)), ["abc"]);
  }

  /** The file holds "rsry-abc": publishing "abc" makes it a file that no refresh reads. */
  lemma PublishingSpoils(c: Codec, fields: string, own: string)
    requires Lawful(c)
    ensures var s, text := OneBead(fields), Serialize(c, Alone(Value(Some("rsry-abc"), own)));
            && Refreshed(c, s, text).Some? && Upserted(c, s, text, "abc", true).Some?
            && Refreshed(c, s, Upserted(c, s, text, "abc", true).value).None?
  {
    var v := Value(Some("rsry-abc"), own);
    var s := OneBead(fields);
    AloneHolds(c, v);
    ShortIdFinds(fields);
    RefreshMeans(c, s, Serialize(c, Alone(v)));
    ShortIdSpoilsFile(c, s, Serialize(c, Alone(v)), "abc", "rsry-abc");
  }
}
