/**
 * Concurrent writers of one phase's handoff file: exclusive create, then content in any number of chunks,
 * interleaved in any way with other writers and with failures.
 */
module HandoffFiles {
  import opened Text

  /** A writer that fails after creating the file leaves it behind. */
  datatype Writer = Idle | Writing(written: nat) | Succeeded | FailedToCreate | FailedToWrite
  datatype File = Absent | Present(content: string)

  /** `writers` lists all writers; `texts[w]` is the serialized record of writer w. */
  datatype State = State(file: File, writers: seq<Writer>)

  predicate Holds(w: Writer) {
    w.Writing? || w.Succeeded? || w.FailedToWrite?
  }

  ghost predicate Init(texts: seq<string>, s: State) {
    s.file.Absent? && |s.writers| == |texts| && forall w :: 0 <= w < |texts| ==> s.writers[w].Idle?
  }

  /** Bytes written at an offset replace what was there. */
  function WriteAt(content: string, at: nat, chunk: string): string
    requires at <= |content|
  {
    content[..at] + chunk + (if at + |chunk| <= |content| then content[at + |chunk|..] else "")
  }

  ghost predicate Create(s: State, t: State, w: nat)
    requires w < |s.writers|
  {
    && s.writers[w].Idle?
    && (s.file.Absent? ==> t == State(Present(""), s.writers[w := Writing(0)]))
    && (s.file.Present? ==> t == State(s.file, s.writers[w := FailedToCreate]))
  }

  ghost predicate CreateError(s: State, t: State, w: nat)
    requires w < |s.writers|
  {
    s.writers[w].Idle? && t == State(s.file, s.writers[w := FailedToCreate])
  }

  ghost predicate WriteChunk(texts: seq<string>, s: State, t: State, w: nat)
    requires w < |s.writers| == |texts|
  {
    && s.writers[w].Writing? && s.file.Present?
    && var at := s.writers[w].written;
       exists upTo :: at < upTo <= |texts[w]| && at <= |s.file.content| &&
         t == State(Present(WriteAt(s.file.content, at, texts[w][at..upTo])), s.writers[w := Writing(upTo)])
  }

  ghost predicate WriteError(s: State, t: State, w: nat)
    requires w < |s.writers|
  {
    s.writers[w].Writing? && t == State(s.file, s.writers[w := FailedToWrite])
  }

  ghost predicate Return(texts: seq<string>, s: State, t: State, w: nat)
    requires w < |s.writers| == |texts|
  {
    s.writers[w] == Writing(|texts[w]|) && t == State(s.file, s.writers[w := Succeeded])
  }

  ghost predicate Next(texts: seq<string>, s: State, t: State) {
    |s.writers| == |texts| &&
    exists w: nat :: w < |texts| &&
      (Create(s, t, w) || CreateError(s, t, w) || WriteChunk(texts, s, t, w) || WriteError(s, t, w)
       || Return(texts, s, t, w))
  }

  /** One writer at most ever held the file, and the file is the part of its text written so far. */
  ghost predicate Inv(texts: seq<string>, s: State) {
    && |s.writers| == |texts|
    && (s.file.Absent? ==> forall w :: 0 <= w < |texts| ==> !Holds(s.writers[w]))
    && (forall v, w :: 0 <= v < w < |texts| ==> !(Holds(s.writers[v]) && Holds(s.writers[w])))
    && (s.file.Present? ==> exists w: nat :: w < |texts| && Owns(texts, s, w))
  }

  ghost predicate Owns(texts: seq<string>, s: State, w: nat)
    requires w < |s.writers| == |texts| && s.file.Present?
  {
    && Holds(s.writers[w]) && s.file.content <= texts[w]
    && (s.writers[w].Writing? ==> |s.file.content| == s.writers[w].written)
    && (s.writers[w].Succeeded? ==> s.file.content == texts[w])
  }

  lemma {:induction false} OwnerMoves(texts: seq<string>, s: State, t: State, o: nat)
    requires Inv(texts, s) && Next(texts, s, t) && s.file.Present? && o < |texts| && Owns(texts, s, o)
    ensures t.file.Present? && Owns(texts, t, o)
  {
    var w: nat :| w < |texts| &&
      (Create(s, t, w) || CreateError(s, t, w) || WriteChunk(texts, s, t, w) || WriteError(s, t, w)
       || Return(texts, s, t, w));
    if WriteChunk(texts, s, t, w) {
      assert w == o;
      var at := s.writers[w].written;
      var upTo :| at < upTo <= |texts[w]| &&
        t == State(Present(WriteAt(s.file.content, at, texts[w][at..upTo])), s.writers[w := Writing(upTo)]);
      assert s.file.content == texts[w][..at];
      assert texts[w][..at] + texts[w][at..upTo] == texts[w][..upTo];
    }
  }

  lemma {:induction false} InvKept(texts: seq<string>, s: State, t: State)
    requires Inv(texts, s) && Next(texts, s, t)
    ensures Inv(texts, t)
  {
    if s.file.Present? {
      var o: nat :| o < |texts| && Owns(texts, s, o);
      OwnerMoves(texts, s, t, o);
    } else {
      var w: nat :| w < |texts| &&
        (Create(s, t, w) || CreateError(s, t, w) || WriteChunk(texts, s, t, w) || WriteError(s, t, w)
         || Return(texts, s, t, w));
      if Create(s, t, w) { assert Owns(texts, t, w); }
    }
  }

  ghost predicate Behavior(texts: seq<string>, run: seq<State>) {
    run != [] && Init(texts, run[0]) && forall i :: 0 <= i < |run| - 1 ==> Next(texts, run[i], run[i + 1])
  }

  lemma {:induction false} InvAlways(texts: seq<string>, run: seq<State>, i: nat)
    requires Behavior(texts, run) && i < |run|
    ensures Inv(texts, run[i])
  {
    if i > 0 {
      InvAlways(texts, run, i - 1);
      assert Next(texts, run[i - 1], run[i - 1 + 1]);
      InvKept(texts, run[i - 1], run[i]);
    }
  }

  lemma {:induction false} OwnerForever(texts: seq<string>, run: seq<State>, i: nat, j: nat, o: nat)
    requires Behavior(texts, run) && i <= j < |run| && o < |texts|
    requires |run[i].writers| == |texts| && run[i].file.Present? && Owns(texts, run[i], o)
    ensures |run[j].writers| == |texts| && run[j].file.Present? && Owns(texts, run[j], o)
    decreases j
  {
    if i < j {
      OwnerForever(texts, run, i, j - 1, o);
      InvAlways(texts, run, j - 1);
      assert Next(texts, run[j - 1], run[j - 1 + 1]);
      OwnerMoves(texts, run[j - 1], run[j], o);
      InvAlways(texts, run, j);
    }
  }

  lemma {:induction false} SucceededStays(texts: seq<string>, run: seq<State>, i: nat, j: nat, w: nat)
    requires Behavior(texts, run) && i <= j < |run| && w < |texts| && |run[i].writers| == |texts|
    requires run[i].writers[w].Succeeded?
    ensures |run[j].writers| == |texts| && run[j].writers[w].Succeeded?
    decreases j
  {
    if i < j {
      SucceededStays(texts, run, i, j - 1, w);
      assert Next(texts, run[j - 1], run[j - 1 + 1]);
    }
  }

  /** Decoding gives back any record from its text; a proper prefix of a record's text never decodes. */
  ghost predicate Decodes<R(!new)>(texts: seq<string>, records: seq<R>, parse: string -> Option<R>) {
    && |texts| == |records|
    && (forall w :: 0 <= w < |texts| ==> parse(texts[w]) == Some(records[w]))
    && (forall w, p :: 0 <= w < |texts| && p < texts[w] ==> parse(p) == None)
  }

  lemma {:induction false} ReadOfPrefix<R(!new)>(
    texts: seq<string>, records: seq<R>, parse: string -> Option<R>, o: nat, p: string)
    requires Decodes(texts, records, parse) && o < |texts| && p <= texts[o]
    ensures parse(p) == if p == texts[o] then Some(records[o]) else None
  {
    assert p == texts[o] || p < texts[o];
  }

  /** At most one writer succeeds, and from its return on every read yields exactly its record. */
  lemma {:induction false} WinnerIsReadForever<R(!new)>(texts: seq<string>, records: seq<R>, parse: string -> Option<R>,
                                     run: seq<State>, i: nat, j: nat, w: nat)
    requires Behavior(texts, run) && Decodes(texts, records, parse) && i <= j < |run| && w < |texts|
    requires |run[i].writers| == |texts| && run[i].writers[w].Succeeded?
    ensures run[j].file.Present? && parse(run[j].file.content) == Some(records[w])
    ensures |run[j].writers| == |texts|
    ensures forall v :: 0 <= v < |texts| && v != w ==> !run[j].writers[v].Succeeded?
  {
    InvAlways(texts, run, i);
    InvAlways(texts, run, j);
    SucceededStays(texts, run, i, j, w);
    var o: nat :| o < |texts| && Owns(texts, run[j], o);
    assert o == w;
  }

  /** Before that, a read fails or already yields the record of the writer that holds the file. */
  lemma {:induction false} ReadsAreNeverTorn<R(!new)>(texts: seq<string>, records: seq<R>, parse: string -> Option<R>,
                                   run: seq<State>, i: nat, j: nat, k: nat)
    requires Behavior(texts, run) && Decodes(texts, records, parse) && i <= j < |run| && i <= k < |run|
    requires run[i].file.Present?
    ensures run[j].file.Present? && run[k].file.Present?
    ensures var a, b := parse(run[j].file.content), parse(run[k].file.content);
            a.Some? && b.Some? ==> a == b && a.value in records
  {
    InvAlways(texts, run, i);
    var o: nat :| o < |texts| && Owns(texts, run[i], o);
    OwnerForever(texts, run, i, j, o);
    OwnerForever(texts, run, i, k, o);
    ReadOfPrefix(texts, records, parse, o, run[j].file.content);
    ReadOfPrefix(texts, records, parse, o, run[k].file.content);
    assert records[o] in records;
  }

  // ----- When no read will ever decode -----

  /** The writer that created the file failed before all of its text was there. */
  ghost predicate Stuck(texts: seq<string>, s: State) {
    |s.writers| == |texts| && s.file.Present?
    && exists o: nat :: o < |texts| && s.writers[o].FailedToWrite? && Owns(texts, s, o) && s.file.content != texts[o]
  }

  /** Nobody created the file, and nobody is left to. */
  ghost predicate Forsaken(texts: seq<string>, s: State) {
    |s.writers| == |texts| && s.file.Absent? && forall w :: 0 <= w < |texts| ==> s.writers[w].FailedToCreate?
  }

  ghost predicate Continues(texts: seq<string>, s: State, run: seq<State>) {
    run != [] && run[0] == s && forall i :: 0 <= i < |run| - 1 ==> Next(texts, run[i], run[i + 1])
  }

  lemma {:induction false} DeadStep(texts: seq<string>, s: State, t: State)
    requires Inv(texts, s) && Next(texts, s, t) && (Stuck(texts, s) || Forsaken(texts, s))
    ensures Inv(texts, t) && t.file == s.file && (Stuck(texts, t) || Forsaken(texts, t))
  {
    InvKept(texts, s, t);
    if Stuck(texts, s) {
      var o: nat :| o < |texts| && s.writers[o].FailedToWrite? && Owns(texts, s, o) && s.file.content != texts[o];
      OwnerMoves(texts, s, t, o);
    }
  }

  /** From then on the file stays as it is, and nobody succeeds. */
  lemma {:induction false} DeadForever(texts: seq<string>, s: State, run: seq<State>, i: nat)
    requires Inv(texts, s) && (Stuck(texts, s) || Forsaken(texts, s)) && Continues(texts, s, run) && i < |run|
    ensures Inv(texts, run[i]) && run[i].file == s.file && (Stuck(texts, run[i]) || Forsaken(texts, run[i]))
    ensures forall w :: 0 <= w < |texts| ==> !run[i].writers[w].Succeeded?
  {
    if i > 0 {
      DeadForever(texts, s, run, i - 1);
      assert Next(texts, run[i - 1], run[i - 1 + 1]);
      DeadStep(texts, run[i - 1], run[i]);
    }
    NoWinner(texts, run[i]);
  }

  lemma NoWinner(texts: seq<string>, s: State)
    requires Inv(texts, s) && (Stuck(texts, s) || Forsaken(texts, s))
    ensures forall w :: 0 <= w < |texts| ==> !s.writers[w].Succeeded?
  {
  }

  ghost predicate Decoding<R(!new)>(parse: string -> Option<R>, s: State) {
    s.file.Present? && parse(s.file.content).Some?
  }

  /** Some way to go on from s comes to a state in which the file decodes. */
  ghost predicate MayDecode<R(!new)>(texts: seq<string>, parse: string -> Option<R>, s: State) {
    exists run :: Continues(texts, s, run) && Decoding(parse, run[|run| - 1])
  }

  lemma DecodesAt<R(!new)>(texts: seq<string>, parse: string -> Option<R>, s: State, run: seq<State>)
    requires Continues(texts, s, run) && Decoding(parse, run[|run| - 1])
    ensures MayDecode(texts, parse, s)
  {
  }

  /** The writer that holds the file can write the rest of its text in one chunk. */
  lemma WritesRest(texts: seq<string>, s: State, o: nat) returns (t: State)
    requires |s.writers| == |texts| && s.file.Present? && o < |texts| && Owns(texts, s, o)
    requires s.writers[o].Writing? && s.file.content != texts[o]
    ensures Next(texts, s, t) && t.file == Present(texts[o])
  {
    var at, upTo := s.writers[o].written, |texts[o]|;
    t := State(Present(texts[o]), s.writers[o := Writing(upTo)]);
    assert s.file.content == texts[o][..at];
    assert texts[o][..at] + texts[o][at..upTo] == texts[o];
    assert WriteAt(s.file.content, at, texts[o][at..upTo]) == texts[o];
    assert WriteChunk(texts, s, t, o);
  }

  lemma OwnerMayFinish<R(!new)>(texts: seq<string>, records: seq<R>, parse: string -> Option<R>, s: State, o: nat)
    requires Decodes(texts, records, parse) && |s.writers| == |texts| && s.file.Present? && o < |texts|
    requires Owns(texts, s, o) && (s.writers[o].FailedToWrite? ==> s.file.content == texts[o])
    ensures MayDecode(texts, parse, s)
  {
    if s.file.content == texts[o] {
      DecodesAt(texts, parse, s, [s]);
    } else {
      var t := WritesRest(texts, s, o);
      DecodesAt(texts, parse, s, [s, t]);
    }
  }

  lemma IdleMayStart<R(!new)>(texts: seq<string>, records: seq<R>, parse: string -> Option<R>, s: State, w: nat)
    requires Decodes(texts, records, parse) && Inv(texts, s) && s.file.Absent? && w < |texts| && s.writers[w].Idle?
    ensures MayDecode(texts, parse, s)
  {
    var t := State(Present(""), s.writers[w := Writing(0)]);
    assert Create(s, t, w) && Owns(texts, t, w);
    if texts[w] == "" {
      DecodesAt(texts, parse, s, [s, t]);
    } else {
      var u := WritesRest(texts, t, w);
      DecodesAt(texts, parse, s, [s, t, u]);
    }
  }

  /**
   * A phase's file may still come to decode exactly when no creator failed half-way, and, where there is no file yet,
   * some writer has still to try. Otherwise no read ever succeeds and every writer is refused or has failed.
   */
  lemma {:induction false} MayDecodeIff<R(!new)>(
    texts: seq<string>, records: seq<R>, parse: string -> Option<R>, s: State)
    requires Decodes(texts, records, parse) && Inv(texts, s)
    ensures MayDecode(texts, parse, s) <==> !Stuck(texts, s) && !Forsaken(texts, s)
  {
    if Stuck(texts, s) || Forsaken(texts, s) {
      if run :| Continues(texts, s, run) && Decoding(parse, run[|run| - 1]) {
        DeadForever(texts, s, run, |run| - 1);
        StuckNeverDecodes(texts, records, parse, s);
      }
    } else if s.file.Present? {
      var o: nat :| o < |texts| && Owns(texts, s, o);
      OwnerMayFinish(texts, records, parse, s, o);
    } else {
      var w: nat :| w < |texts| && !s.writers[w].FailedToCreate?;
      IdleMayStart(texts, records, parse, s, w);
    }
  }

  lemma StuckNeverDecodes<R(!new)>(texts: seq<string>, records: seq<R>, parse: string -> Option<R>, s: State)
    requires Decodes(texts, records, parse) && (Stuck(texts, s) || Forsaken(texts, s))
    ensures !Decoding(parse, s)
  {
    if Stuck(texts, s) {
      var o: nat :| o < |texts| && s.writers[o].FailedToWrite? && Owns(texts, s, o) && s.file.content != texts[o];
      ReadOfPrefix(texts, records, parse, o, s.file.content);
    }
  }

  /** A lone writer that fails right after creating the file, and another that comes later: no read ever decodes. */
  lemma FailedCreatorBlocks(text: string, other: string)
    requires text != ""
    ensures var texts := [text, other];
            var run := [State(Absent, [Idle, Idle]), State(Present(""), [Writing(0), Idle]),
                        State(Present(""), [FailedToWrite, Idle])];
            Behavior(texts, run) && Stuck(texts, run[2])
  {
    var texts := [text, other];
    var s0, s1 := State(Absent, [Idle, Idle]), State(Present(""), [Writing(0), Idle]);
    var s2 := State(Present(""), [FailedToWrite, Idle]);
    assert Create(s0, s1, 0) && WriteError(s1, s2, 0);
    assert Owns(texts, s2, 0);
  }
}
