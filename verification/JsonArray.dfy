/**
 * Pulling the first JSON array out of model output: a scanner that tracks nesting, strings and escapes.
 * Only ASCII characters steer it, so scanning characters agrees with scanning UTF-8 bytes.
 */
module JsonArray {
  import opened Text

  const QUOTE: char := '\U{0022}'
  const BACKSLASH: char := '\U{005C}'
  const OPEN: char := '\U{005B}'
  const CLOSE: char := '\U{005D}'
  const LBRACE: char := '\U{007B}'
  const RBRACE: char := '\U{007D}'

  lemma Delimiters()
    ensures [QUOTE, BACKSLASH, OPEN, CLOSE, LBRACE, RBRACE] == "\"\\[]{}"
  {
  }

  // ----- The scanner -----

  datatype Scan = Scan(depth: int, inString: bool, escape: bool)

  const START := Scan(0, false, false)

  function Advance(s: Scan, c: char): Scan {
    if s.inString then
      if s.escape then s.(escape := false)
      else if c == BACKSLASH then s.(escape := true)
      else if c == QUOTE then s.(inString := false)
      else s
    else if c == QUOTE then s.(inString := true)
    else if c == OPEN then s.(depth := s.depth + 1)
    else if c == CLOSE then s.(depth := s.depth - 1)
    else s
  }

  function ScanAll(s: Scan, text: string): Scan
    decreases |text|
  {
    if text == [] then s else ScanAll(Advance(s, text[0]), text[1..])
  }

  /** Scanning from `start`, nesting is back to zero right after position i. */
  ghost predicate ClosesAt(text: string, start: nat, i: nat)
    requires start <= i < |text|
  {
    ScanAll(START, text[start..i + 1]).depth == 0
  }

  ghost predicate FirstBracket(text: string, start: nat) {
    start < |text| && text[start] == OPEN && forall k :: 0 <= k < start ==> text[k] != OPEN
  }

  /** The substring from the first bracket to the first position that closes it, if there is one. */
  ghost predicate IsExtraction(text: string, r: Option<string>) {
    match r
    case Some(found) =>
      exists start: nat, i: nat :: start <= i < |text| && FirstBracket(text, start) && FirstClose(text, start, i) &&
        found == text[start..i + 1]
    case None =>
      forall start: nat, i: nat :: FirstBracket(text, start) && start <= i < |text| ==> !ClosesAt(text, start, i)
  }

  ghost predicate FirstClose(text: string, start: nat, i: nat)
    requires start <= i < |text|
  {
    ClosesAt(text, start, i) && forall j :: start <= j < i ==> !ClosesAt(text, start, j)
  }

  lemma {:induction false} ScanConcat(s: Scan, a: string, b: string)
    ensures ScanAll(s, a + b) == ScanAll(ScanAll(s, a), b)
    decreases |a|
  {
    if a == [] {
      assert a + b == b;
    } else {
      assert (a + b)[1..] == a[1..] + b;
      ScanConcat(Advance(s, a[0]), a[1..], b);
    }
  }

  lemma ScanNext(s: Scan, text: string, start: nat, i: nat)
    requires start <= i < |text|
    ensures ScanAll(s, text[start..i + 1]) == Advance(ScanAll(s, text[start..i]), text[i])
  {
    assert text[start..i + 1] == text[start..i] + [text[i]];
    ScanConcat(s, text[start..i], [text[i]]);
  }

  method FindBracket(text: string) returns (start: Option<nat>)
    ensures start.Some? ==> FirstBracket(text, start.value)
    ensures start.None? ==> forall k :: 0 <= k < |text| ==> text[k] != OPEN
  {
    for i := 0 to |text|
      invariant forall k :: 0 <= k < i ==> text[k] != OPEN
    {
      if text[i] == OPEN {
        return Some(i);
      }
    }
    start := None;
  }

  method ExtractJsonArray(text: string) returns (found: Option<string>)
    ensures IsExtraction(text, found)
  {
    var first := FindBracket(text);
    if first == None {
      return None;
    }
    var start := first.value;
    var depth: int, inString, escape := 0, false, false;
    for i := start to |text|
      invariant Scan(depth, inString, escape) == ScanAll(START, text[start..i])
      invariant if i == start then depth == 0 && !inString else depth > 0
      invariant forall j :: start <= j < i ==> !ClosesAt(text, start, j)
    {
      var c := text[i];
      ScanNext(START, text, start, i);
      if inString {
        if escape {
          escape := false;
        } else if c == BACKSLASH {
          escape := true;
        } else if c == QUOTE {
          inString := false;
        }
        continue;
      }
      if c == QUOTE {
        inString := true;
      } else if c == OPEN {
        depth := depth + 1;
      } else if c == CLOSE {
        depth := depth - 1;
        if depth == 0 {
          assert FirstClose(text, start, i);
          return Some(text[start..i + 1]);
        }
      }
    }
    found := None;
  }
}
