/** Dispatch ids embed the start instant of a run as decimal milliseconds after the last dash. */
module DispatchIds {
  import opened Text

  const I64_MIN: int := -0x8000_0000_0000_0000
  const I64_MAX: int := 0x7FFF_FFFF_FFFF_FFFF

  /** The instants a date can represent, in milliseconds; the library's own bounds are left open. */
  datatype DateRange = DateRange(first: int, last: int)

  ghost predicate ValidRange(d: DateRange) {
    I64_MIN <= d.first <= 0 <= d.last <= I64_MAX
  }

  predicate IsDigit(c: char) {
    '0' <= c <= '9'
  }

  function DigitChar(d: nat): char
    requires d < 10
  {
    '0' + d as char
  }

  function Decimal(n: nat): (s: string)
    ensures s != [] && forall k :: 0 <= k < |s| ==> IsDigit(s[k])
  {
    if n < 10 then [DigitChar(n)] else Decimal(n / 10) + [DigitChar(n % 10)]
  }

  function SignedDecimal(n: int): string {
    if n < 0 then "-" + Decimal(-n) else Decimal(n)
  }

  function ParseDigits(s: string): Option<nat> {
    if s == [] || !IsDigit(s[|s| - 1]) then None
    else
      var d := s[|s| - 1] as int - '0' as int;
      if |s| == 1 then Some(d)
      else match ParseDigits(s[..|s| - 1])
           case Some(n) => Some(10 * n + d)
           case None => None
  }

  /** `str::parse::<i64>`: an optional sign, then digits, in range. */
  function ParseI64(s: string): Option<int> {
    var negative := HasPrefix(s, "-");
    var digits := if negative || HasPrefix(s, "+") then s[1..] else s;
    match ParseDigits(digits)
    case Some(n) =>
      var m: int := n;
      var v := if negative then -m else m;
      if I64_MIN <= v <= I64_MAX then Some(v) else None
    case None => None
  }

  function LastDash(s: string): Option<nat> {
    if s == [] then None
    else if s[|s| - 1] == '-' then Some(|s| - 1)
    else LastDash(s[..|s| - 1])
  }

  function MakeDispatchId(beadId: string, startMillis: int): string {
    beadId + "-" + SignedDecimal(startMillis)
  }

  function ParseStartMillis(d: DateRange, id: string): Option<int> {
    match LastDash(id)
    case Some(k) => (
      assert k < |id| by { LastDashBound(id); }
      match ParseI64(id[k + 1..])
      case Some(ms) => if d.first <= ms <= d.last then Some(ms) else None
      case None => None)
    case None => None
  }

  lemma {:induction false} LastDashBound(s: string)
    ensures LastDash(s).Some? ==> LastDash(s).value < |s|
  {
    if s != [] { LastDashBound(s[..|s| - 1]); }
  }

  lemma {:induction false} DecimalParses(n: nat)
    ensures ParseDigits(Decimal(n)) == Some(n)
  {
    if n >= 10 {
      DecimalParses(n / 10);
      assert Decimal(n)[..|Decimal(n)| - 1] == Decimal(n / 10);
    }
  }

  lemma {:induction false} DashBeforeDigits(a: string, digits: string)
    requires forall k :: 0 <= k < |digits| ==> IsDigit(digits[k])
    ensures LastDash(a + "-" + digits) == Some(|a|)
  {
    var s := a + "-" + digits;
    if digits != [] {
      DashBeforeDigits(a, digits[..|digits| - 1]);
      assert s[..|s| - 1] == a + "-" + digits[..|digits| - 1];
    }
  }

  lemma DecimalParsesI64(n: nat)
    ensures ParseI64(Decimal(n)) == if n <= I64_MAX then Some(n) else None
  {
    DecimalParses(n);
    assert IsDigit(Decimal(n)[0]);
  }

  lemma ParsesSuffix(d: DateRange, before: string, n: nat)
    requires ValidRange(d)
    ensures ParseStartMillis(d, before + "-" + Decimal(n)) == if n <= d.last then Some(n) else None
  {
    var id := before + "-" + Decimal(n);
    DashBeforeDigits(before, Decimal(n));
    assert id[|before| + 1..] == Decimal(n);
    DecimalParsesI64(n);
  }

  /** The suffix after the last dash never keeps the sign: a start before the epoch reads back mirrored. */
  lemma ParsesMagnitude(d: DateRange, beadId: string, ms: int)
    requires ValidRange(d) && d.first <= ms <= d.last
    ensures var size := if ms < 0 then -ms else ms;
            ParseStartMillis(d, MakeDispatchId(beadId, ms)) == if size <= d.last then Some(size) else None
  {
    if ms < 0 {
      SignedId(beadId, Decimal(-ms));
      ParsesSuffix(d, beadId + "-", -ms);
    } else {
      ParsesSuffix(d, beadId, ms);
    }
  }

  lemma SignedId(beadId: string, digits: string)
    ensures beadId + "-" + ("-" + digits) == (beadId + "-") + "-" + digits
  {
  }

  /** The start instant round-trips exactly when it is not before the epoch, whatever dashes the bead id has. */
  lemma RoundTripIffAfterEpoch(d: DateRange, beadId: string, ms: int)
    requires ValidRange(d) && d.first <= ms <= d.last
    ensures ParseStartMillis(d, MakeDispatchId(beadId, ms)) == Some(ms) <==> ms >= 0
  {
    ParsesMagnitude(d, beadId, ms);
  }

  /** The id is the bead's, a dash and the milliseconds in decimal, with a sign before the epoch. */
  lemma IdReads(beadId: string, ms: int)
    ensures MakeDispatchId(beadId, ms) == beadId + (if ms < 0 then "--" + Decimal(-ms) else "-" + Decimal(ms))
  {
    if ms < 0 { assert beadId + "-" + ("-" + Decimal(-ms)) == beadId + ("--" + Decimal(-ms)); }
  }

  /** Decimal numbers, digit by digit, without leading zeros. */
  lemma DecimalReads(n: nat, d: nat)
    requires d < 10
    ensures Decimal(d) == ["0123456789"[d]]
    ensures n > 0 ==> Decimal(10 * n + d) == Decimal(n) + ["0123456789"[d]]
  {
    assert "0123456789"[d] == DigitChar(d);
  }

  /** Digits are read from the left, each ten times what the next is worth; */
  lemma DigitsRead(front: string, d: nat)
    requires d < 10
    ensures var c := "0123456789"[d];
            && ParseDigits([c]) == Some(d)
            && (ParseDigits(front).Some? ==> ParseDigits(front + [c]) == Some(10 * ParseDigits(front).value + d))
            && (front != "" && ParseDigits(front) == None ==> ParseDigits(front + [c]) == None)
  {
    var c := "0123456789"[d];
    assert c == DigitChar(d);
    assert (front + [c])[..|front|] == front;
    if front == "" { assert front + [c] == [c]; }
  }

  /** nothing and anything else is no number. */
  lemma OnlyDigits(front: string, c: char)
    ensures ParseDigits("") == None
    ensures c !in "0123456789" ==> ParseDigits(front + [c]) == None
  {
    DigitIff(c);
  }

  lemma DigitIff(c: char)
    ensures IsDigit(c) <==> c in "0123456789"
  {
    if IsDigit(c) { assert "0123456789"[c as int - '0' as int] == c; }
  }

  /** s writes the number v: digits, behind at most one sign. */
  ghost predicate Writes(s: string, digits: string, v: int) {
    && ParseDigits(digits).Some?
    && (((s == digits || s == "+" + digits) && v == ParseDigits(digits).value)
        || (s == "-" + digits && v == -(ParseDigits(digits).value as int)))
  }

  lemma SignedDigits(sign: char, digits: string)
    requires sign !in "0123456789"
    ensures ParseDigits([sign] + digits) == None
    decreases |digits|
  {
    var s := [sign] + digits;
    if digits != "" {
      SignedDigits(sign, digits[..|digits| - 1]);
      assert s[..|s| - 1] == [sign] + digits[..|digits| - 1];
    } else {
      DigitIff(sign);
    }
  }

  /** A number is parsed exactly when it is written so and is one of 64 bits. */
  lemma ParseI64Iff(s: string, v: int)
    ensures ParseI64(s) == Some(v) <==>
      -9_223_372_036_854_775_808 <= v <= 9_223_372_036_854_775_807 && exists digits :: Writes(s, digits, v)
  {
    if HasPrefix(s, "-") || HasPrefix(s, "+") {
      assert s == [s[0]] + s[1..];
      SignedDigits(s[0], s[1..]);
    }
    if ParseI64(s) == Some(v) {
      assert Writes(s, if HasPrefix(s, "-") || HasPrefix(s, "+") then s[1..] else s, v);
    }
    if digits :| Writes(s, digits, v) {
      assert ParseDigits(digits).Some? && (s == digits || s[1..] == digits);
    }
  }
}
