/** JSON texts, and why the scanner pulls exactly an array's text out of whatever surrounds it. */
module JsonTexts {
  import opened Text
  import opened JsonArray

  // ----- JSON texts, after sections 2 to 7 of RFC 8259 -----

  datatype Piece = Unescaped(c: char) | Escaped(c: char) | Unicode(hex: string)

  /** Derivations, with the whitespace between tokens. Literals and numbers are kept as their characters. */
  datatype Value =
    | Plain(text: string)
    | Quoted(pieces: seq<Piece>)
    | Array(pad: string, items: Items)
    | Object(pad: string, members: Members)

  datatype Items = NoItems | Item(lead: string, value: Value, trail: string, tail: Items)

  datatype Members =
    | NoMembers
    | Member(lead: string, key: seq<Piece>, mid: string, gap: string, value: Value, trail: string, tail: Members)

  predicate IsBlank(c: char) {
    c == ' ' || c == '\t' || c == '\n' || c == '\r'
  }

  predicate Blank(s: string) {
    forall k :: 0 <= k < |s| ==> IsBlank(s[k])
  }

  /** Characters of numbers, `true`, `false` and `null`. */
  predicate IsPlain(c: char) {
    'a' <= c <= 'z' || 'A' <= c <= 'Z' || '0' <= c <= '9' || c == '+' || c == '-' || c == '.'
  }

  predicate IsHex(c: char) {
    '0' <= c <= '9' || 'a' <= c <= 'f' || 'A' <= c <= 'F'
  }

  predicate GoodPiece(p: Piece) {
    match p
    case Unescaped(c) => c >= ' ' && c != QUOTE && c != BACKSLASH
    case Escaped(c) => c == QUOTE || c == BACKSLASH || c in "/bfnrt"
    case Unicode(hex) => |hex| == 4 && forall k :: 0 <= k < 4 ==> IsHex(hex[k])
  }

  predicate GoodPieces(ps: seq<Piece>) {
    forall k :: 0 <= k < |ps| ==> GoodPiece(ps[k])
  }

  predicate Good(v: Value) {
    match v
    case Plain(text) => text != "" && forall k :: 0 <= k < |text| ==> IsPlain(text[k])
    case Quoted(pieces) => GoodPieces(pieces)
    case Array(pad, items) => Blank(pad) && GoodItems(items)
    case Object(pad, members) => Blank(pad) && GoodMembers(members)
  }

  predicate GoodItems(items: Items) {
    match items
    case NoItems => true
    case Item(lead, value, trail, tail) => Blank(lead) && Good(value) && Blank(trail) && GoodItems(tail)
  }

  predicate GoodMembers(ms: Members) {
    match ms
    case NoMembers => true
    case Member(lead, key, mid, gap, value, trail, tail) =>
      Blank(lead) && GoodPieces(key) && Blank(mid) && Blank(gap) && Good(value) && Blank(trail) && GoodMembers(tail)
  }

  function RenderPiece(p: Piece): string {
    match p
    case Unescaped(c) => [c]
    case Escaped(c) => [BACKSLASH, c]
    case Unicode(hex) => [BACKSLASH, 'u'] + hex
  }

  function RenderPieces(ps: seq<Piece>): string {
    if ps == [] then "" else RenderPiece(ps[0]) + RenderPieces(ps[1..])
  }

  function RenderString(ps: seq<Piece>): string {
    [QUOTE] + RenderPieces(ps) + [QUOTE]
  }

  function Render(v: Value): string {
    match v
    case Plain(text) => text
    case Quoted(pieces) => RenderString(pieces)
    case Array(pad, items) => [OPEN] + (pad + RenderItems(items, true)) + [CLOSE]
    case Object(pad, members) => [LBRACE] + (pad + RenderMembers(members, true)) + [RBRACE]
  }

  function RenderItems(items: Items, first: bool): string {
    match items
    case NoItems => ""
    case Item(lead, value, trail, tail) =>
      Separator(first) + (lead + (Render(value) + (trail + RenderItems(tail, false))))
  }

  function RenderMembers(ms: Members, first: bool): string {
    match ms
    case NoMembers => ""
    case Member(lead, key, mid, gap, value, trail, tail) =>
      Separator(first) +
      (lead + (RenderString(key) + (mid + ([':'] + (gap + (Render(value) + (trail + RenderMembers(tail, false))))))))
  }

  function Separator(first: bool): string {
    if first then "" else [',']
  }

  // ----- Scanning a JSON text comes back to where it started -----

  function LowestDepth(s: Scan, text: string): int
    decreases |text|
  {
    if text == [] then s.depth
    else
      var low := LowestDepth(Advance(s, text[0]), text[1..]);
      if low < s.depth then low else s.depth
  }

  /** Scanning from depth d outside strings ends there, never having gone below. */
  ghost predicate Neutral(text: string, d: int) {
    ScanAll(Scan(d, false, false), text) == Scan(d, false, false) && LowestDepth(Scan(d, false, false), text) >= d
  }

  lemma {:induction false} LowestConcat(s: Scan, a: string, b: string)
    ensures var x, y := LowestDepth(s, a), LowestDepth(ScanAll(s, a), b);
            LowestDepth(s, a + b) == if x < y then x else y
    decreases |a|
  {
    if a == [] {
      assert a + b == b;
      if b != [] { assert LowestDepth(s, b) <= s.depth; }
    } else {
      assert (a + b)[1..] == a[1..] + b;
      LowestConcat(Advance(s, a[0]), a[1..], b);
    }
  }

  lemma NeutralConcat(a: string, b: string, d: int)
    requires Neutral(a, d) && Neutral(b, d)
    ensures Neutral(a + b, d)
  {
    ScanConcat(Scan(d, false, false), a, b);
    LowestConcat(Scan(d, false, false), a, b);
  }

  predicate Inert(c: char) {
    c != QUOTE && c != OPEN && c != CLOSE
  }

  lemma {:induction false} InertNeutral(text: string, d: int)
    requires forall k :: 0 <= k < |text| ==> Inert(text[k])
    ensures Neutral(text, d)
  {
    if text != [] { InertNeutral(text[1..], d); }
  }

  lemma BracketsNeutral(inside: string, d: int)
    requires Neutral(inside, d + 1)
    ensures Neutral([OPEN] + inside + [CLOSE], d)
  {
    var open := Scan(d + 1, false, false);
    ScanConcat(open, inside, [CLOSE]);
    LowestConcat(open, inside, [CLOSE]);
    assert ScanAll(open, [CLOSE]) == Scan(d, false, false);
    var t := [OPEN] + inside + [CLOSE];
    assert t[1..] == inside + [CLOSE];
  }

  /** Inside a string nothing but its closing quote ends it, and nesting does not move. */
  lemma PieceStays(p: Piece, d: int)
    requires GoodPiece(p)
    ensures ScanAll(Scan(d, true, false), RenderPiece(p)) == Scan(d, true, false)
    ensures LowestDepth(Scan(d, true, false), RenderPiece(p)) >= d
  {
    match p
    case Unescaped(c) =>
    case Escaped(c) =>
      assert RenderPiece(p)[1..] == [c] && [c][1..] == [];
      assert ScanAll(Scan(d, true, true), [c]) == Scan(d, true, false);
      assert LowestDepth(Scan(d, true, true), [c]) >= d;
    case Unicode(hex) =>
      var inside := Scan(d, true, false);
      assert RenderPiece(p)[1..] == ['u'] + hex && (['u'] + hex)[1..] == hex;
      HexStays(hex, d);
      assert LowestDepth(inside, ['u'] + hex) >= d;
  }

  lemma {:induction false} HexStays(hex: string, d: int)
    requires forall k :: 0 <= k < |hex| ==> IsHex(hex[k])
    ensures ScanAll(Scan(d, true, false), hex) == Scan(d, true, false)
    ensures LowestDepth(Scan(d, true, false), hex) >= d
  {
    if hex != [] { HexStays(hex[1..], d); }
  }

  lemma {:induction false} PiecesStay(ps: seq<Piece>, d: int)
    requires GoodPieces(ps)
    ensures ScanAll(Scan(d, true, false), RenderPieces(ps)) == Scan(d, true, false)
    ensures LowestDepth(Scan(d, true, false), RenderPieces(ps)) >= d
  {
    if ps != [] {
      PieceStays(ps[0], d);
      PiecesStay(ps[1..], d);
      ScanConcat(Scan(d, true, false), RenderPiece(ps[0]), RenderPieces(ps[1..]));
      LowestConcat(Scan(d, true, false), RenderPiece(ps[0]), RenderPieces(ps[1..]));
    }
  }

  lemma StringNeutral(ps: seq<Piece>, d: int)
    requires GoodPieces(ps)
    ensures Neutral(RenderString(ps), d)
  {
    var inside := Scan(d, true, false);
    var body := RenderPieces(ps);
    PiecesStay(ps, d);
    ScanConcat(inside, body, [QUOTE]);
    LowestConcat(inside, body, [QUOTE]);
    assert RenderString(ps)[1..] == body + [QUOTE];
  }

  lemma {:induction false} ValueNeutral(v: Value, d: int)
    requires Good(v)
    ensures Neutral(Render(v), d)
    decreases v
  {
    match v
    case Plain(text) => InertNeutral(text, d);
    case Quoted(pieces) => StringNeutral(pieces, d);
    case Array(pad, items) =>
      ArrayInside(pad, items, d + 1);
      BracketsNeutral(pad + RenderItems(items, true), d);
    case Object(pad, members) =>
      InertNeutral(pad, d);
      MembersNeutral(members, true, d);
      NeutralConcat(pad, RenderMembers(members, true), d);
      InertNeutral([LBRACE], d);
      NeutralConcat([LBRACE], pad + RenderMembers(members, true), d);
      InertNeutral([RBRACE], d);
      NeutralConcat([LBRACE] + (pad + RenderMembers(members, true)), [RBRACE], d);
  }

  lemma ArrayInside(pad: string, items: Items, d: int)
    requires Blank(pad) && GoodItems(items)
    ensures Neutral(pad + RenderItems(items, true), d)
    decreases items, 1
  {
    InertNeutral(pad, d);
    ItemsNeutral(items, true, d);
    NeutralConcat(pad, RenderItems(items, true), d);
  }

  lemma {:induction false} ItemsNeutral(items: Items, first: bool, d: int)
    requires GoodItems(items)
    ensures Neutral(RenderItems(items, first), d)
    decreases items, 0
  {
    match items
    case NoItems =>
    case Item(lead, value, trail, tail) =>
      ItemsNeutral(tail, false, d);
      ValueNeutral(value, d);
      TailNeutral(trail, RenderItems(tail, false), d);
      NeutralConcat(Render(value), trail + RenderItems(tail, false), d);
      TailNeutral(lead, Render(value) + (trail + RenderItems(tail, false)), d);
      SeparatedNeutral(first, lead + (Render(value) + (trail + RenderItems(tail, false))), d);
  }

  lemma TailNeutral(blank: string, rest: string, d: int)
    requires Blank(blank) && Neutral(rest, d)
    ensures Neutral(blank + rest, d)
  {
    InertNeutral(blank, d);
    NeutralConcat(blank, rest, d);
  }

  lemma SeparatedNeutral(first: bool, rest: string, d: int)
    requires Neutral(rest, d)
    ensures Neutral(Separator(first) + rest, d)
  {
    InertNeutral(Separator(first), d);
    NeutralConcat(Separator(first), rest, d);
  }

  lemma {:induction false} MembersNeutral(ms: Members, first: bool, d: int)
    requires GoodMembers(ms)
    ensures Neutral(RenderMembers(ms, first), d)
    decreases ms
  {
    match ms
    case NoMembers =>
    case Member(lead, key, mid, gap, value, trail, tail) =>
      MembersNeutral(tail, false, d);
      ValueNeutral(value, d);
      var a := trail + RenderMembers(tail, false);
      TailNeutral(trail, RenderMembers(tail, false), d);
      NeutralConcat(Render(value), a, d);
      var b := gap + (Render(value) + a);
      TailNeutral(gap, Render(value) + a, d);
      InertNeutral([':'], d);
      NeutralConcat([':'], b, d);
      TailNeutral(mid, [':'] + b, d);
      StringNeutral(key, d);
      NeutralConcat(RenderString(key), mid + ([':'] + b), d);
      TailNeutral(lead, RenderString(key) + (mid + ([':'] + b)), d);
      SeparatedNeutral(first, lead + (RenderString(key) + (mid + ([':'] + b))), d);
  }

  lemma {:induction false} PrefixDepth(s: Scan, text: string, k: nat)
    requires k <= |text|
    ensures ScanAll(s, text[..k]).depth >= LowestDepth(s, text)
    decreases k
  {
    if k > 0 {
      assert text[..k][1..] == text[1..][..k - 1];
      PrefixDepth(Advance(s, text[0]), text[1..], k - 1);
    }
  }

  /** A JSON array text closes at its last character and nowhere before. */
  lemma ArrayClosesLast(pad: string, items: Items, k: nat)
    requires Good(Array(pad, items)) && 0 < k <= |Render(Array(pad, items))|
    ensures var t := Render(Array(pad, items));
            ScanAll(START, t[..k]).depth == 0 <==> k == |t|
  {
    var t := Render(Array(pad, items));
    var inside := pad + RenderItems(items, true);
    if k == |t| {
      ValueNeutral(Array(pad, items), 0);
      assert t[..k] == t;
    } else {
      ArrayInside(pad, items, 1);
      PrefixDepth(Scan(1, false, false), inside, k - 1);
      assert t[..k][1..] == inside[..k - 1] && t[..k][0] == OPEN;
    }
  }

  /** Whatever surrounds it, the first array of a text comes out whole and alone. */
  lemma ArrayIsExtracted(prefix: string, pad: string, items: Items, suffix: string, r: Option<string>)
    requires forall k :: 0 <= k < |prefix| ==> prefix[k] != OPEN
    requires Good(Array(pad, items))
    requires IsExtraction(prefix + Render(Array(pad, items)) + suffix, r)
    ensures r == Some(Render(Array(pad, items)))
  {
    var t := Render(Array(pad, items));
    var text := prefix + t + suffix;
    var n := |prefix|;
    assert text[n] == OPEN && FirstBracket(text, n);
    forall i: nat | n <= i < n + |t| ensures ClosesAt(text, n, i) <==> i == n + |t| - 1 {
      assert text[n..i + 1] == t[..i + 1 - n];
      ArrayClosesLast(pad, items, i + 1 - n);
    }
    var last: nat := n + |t| - 1;
    assert ClosesAt(text, n, last);
    if r.Some? {
      var start: nat, i: nat :| start <= i < |text| && FirstBracket(text, start) && FirstClose(text, start, i) &&
        r.value == text[start..i + 1];
      assert start == n;
      assert i == last;
      assert text[n..last + 1] == t;
    }
  }
}
