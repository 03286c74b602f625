/** `str::lines` and text made of newline-terminated lines. */
module TextLines {
  import opened Text
  import opened Markers

  /** `str::lines`: without terminators, "\r\n" counting as one; a last line without terminator is kept whole. */
  function Lines(s: string): seq<string>
    decreases |s|
  {
    if s == "" then []
    else
      match Find(s, "\n")
      case Some(i) => [StripReturn(s[..i])] + Lines(s[i + 1..])
      case None => [s]
  }

  function StripReturn(line: string): string {
    if line != "" && line[|line| - 1] == '\r' then line[..|line| - 1] else line
  }

  function Terminated(lines: seq<string>): string {
    if lines == [] then "" else lines[0] + ("\n" + Terminated(lines[1..]))
  }

  lemma {:induction false} TerminatedConcat(a: seq<string>, b: seq<string>)
    ensures Terminated(a + b) == Terminated(a) + Terminated(b)
  {
    if a == [] {
      assert a + b == b;
    } else {
      assert (a + b)[1..] == a[1..] + b;
      TerminatedConcat(a[1..], b);
    }
  }

  lemma TerminatedNext(lines: seq<string>, line: string)
    ensures Terminated(lines + [line]) == Terminated(lines) + (line + "\n")
  {
    TerminatedConcat(lines, [line]);
    assert Terminated([line]) == line + ("\n" + Terminated([]));
  }

  lemma PlainNext(lines: seq<string>, i: nat)
    requires i < |lines|
    ensures Terminated(lines[..i + 1]) == Terminated(lines[..i]) + (lines[i] + "\n")
  {
    TerminatedNext(lines[..i], lines[i]);
    assert lines[..i + 1] == lines[..i] + [lines[i]];
  }

  lemma TerminatedHead(line: string, rest: string)
    requires NoNewline(line)
    ensures Find(line + ("\n" + rest), "\n") == Some(|line|)
  {
    FirstByNewline(line, rest);
    FoundAt(line + ("\n" + rest), "\n", |line|);
  }

  lemma FirstByNewline(line: string, rest: string)
    requires NoNewline(line)
    ensures FirstAt(line + ("\n" + rest), "\n", |line|)
  {
    var t := line + ("\n" + rest);
    OccursSlice(t, "\n", |line|);
    assert t[|line|..|line| + 1] == "\n";
    forall j: nat | j < |line| ensures !OccursAt(t, "\n", j) { OccursMeans(t, "\n", j, 0); }
  }

  /** Terminating lines and splitting again gives the lines back. */
  lemma {:induction false} LinesOfTerminated(lines: seq<string>)
    requires forall line :: line in lines ==> NoNewline(line) && StripReturn(line) == line
    ensures Lines(Terminated(lines)) == lines
  {
    if lines != [] {
      var rest := Terminated(lines[1..]);
      var t := lines[0] + ("\n" + rest);
      TerminatedHead(lines[0], rest);
      assert t[..|lines[0]|] == lines[0] && t[|lines[0]| + 1..] == rest;
      LinesOfTerminated(lines[1..]);
    }
  }

  /** One carriage return at the end of a line goes with its newline. */
  lemma StripReturnLaw(line: string)
    ensures StripReturn(line + "\r") == line
    ensures '\r' !in line ==> StripReturn(line) == line
  {
  }

  /** A text without newlines is one line, or none. */
  lemma LoneLine(line: string)
    requires NoNewline(line)
    ensures Lines(line) == if line == "" then [] else [line]
  {
    FindSpec(line, "\n");
    forall i: nat ensures !OccursAt(line, "\n", i) { OccursMeans(line, "\n", i, 0); }
  }

  /** A line ends at the first newline, and what is behind that is split the same way. */
  lemma LineThen(line: string, rest: string)
    requires NoNewline(line)
    ensures Lines(line + ("\n" + rest)) == [StripReturn(line)] + Lines(rest)
  {
    var t := line + ("\n" + rest);
    TerminatedHead(line, rest);
    assert t[..|line|] == line && t[|line| + 1..] == rest;
  }
}
