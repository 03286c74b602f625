/** The content-linked chain of phase handoffs: what a chain hash pins down and what reading a chain accepts. */
module HandoffChain {
  import opened Text

  type Byte = n: int | 0 <= n < 256
  type Bytes = seq<Byte>
  type Phase = n: int | 0 <= n < 0x1_0000_0000

  /** The digest is an arbitrary function of the right size; collisions are reported, never assumed away. */
  type Digest = Bytes -> Bytes

  /** The fields that matter to the chain; strings are their UTF-8 bytes. */
  datatype Handoff = Handoff(
    phase: Phase, fromAgent: Bytes, beadId: Bytes, summary: Bytes,
    filesChanged: seq<Bytes>, commitShas: seq<Bytes>, previousHash: Option<Bytes>)

  datatype Commit = Commit(sha: Bytes, message: Bytes)
  datatype Work = Work(commits: seq<Commit>, filesChanged: seq<Bytes>, sizeNote: Bytes)

  // ----- Hash input -----

  function LittleEndian(p: Phase): Bytes {
    [p % 256, p / 256 % 256, p / 0x1_0000 % 256, p / 0x100_0000]
  }

  function Terminated(fields: seq<Bytes>): Bytes {
    if fields == [] then [] else fields[0] + [0] + Terminated(fields[1..])
  }

  function PreviousBytes(h: Handoff): Bytes {
    match h.previousHash case Some(hash) => hash case None => []
  }

  function Fields(h: Handoff): seq<Bytes> {
    [h.fromAgent, h.beadId, h.summary] + (h.filesChanged + h.commitShas)
  }

  function Preimage(h: Handoff): Bytes {
    LittleEndian(h.phase) + (Terminated(Fields(h)) + PreviousBytes(h))
  }

  predicate NulFree(b: Bytes) {
    0 !in b
  }

  ghost predicate Clean(h: Handoff) {
    NulFree(PreviousBytes(h)) && forall f :: f in Fields(h) ==> NulFree(f)
  }

  /** What the hash covers. The split between files and commits is not part of it, nor is absent versus empty. */
  ghost predicate SameHashed(a: Handoff, b: Handoff) {
    && a.phase == b.phase && a.fromAgent == b.fromAgent && a.beadId == b.beadId && a.summary == b.summary
    && a.filesChanged + a.commitShas == b.filesChanged + b.commitShas
    && PreviousBytes(a) == PreviousBytes(b)
  }

  lemma {:induction false} TerminatedConcat(a: seq<Bytes>, b: seq<Bytes>)
    ensures Terminated(a + b) == Terminated(a) + Terminated(b)
  {
    if a == [] {
      assert a + b == b;
    } else {
      assert (a + b)[1..] == a[1..] + b;
      TerminatedConcat(a[1..], b);
    }
  }

  function NulAt(s: Bytes): nat {
    if s == [] || s[0] == 0 then 0 else 1 + NulAt(s[1..])
  }

  lemma {:induction false} NulAfterField(x: Bytes, s: Bytes)
    requires NulFree(x)
    ensures NulAt(x + [0] + s) == |x|
  {
    if x == [] {
      assert x + [0] + s == [0] + s;
    } else {
      assert (x + [0] + s)[1..] == x[1..] + [0] + s;
      NulAfterField(x[1..], s);
    }
  }

  lemma FirstNul(x: Bytes, s: Bytes, y: Bytes, t: Bytes)
    requires NulFree(x) && NulFree(y) && x + [0] + s == y + [0] + t
    ensures x == y && s == t
  {
    NulAfterField(x, s);
    NulAfterField(y, t);
    var u, v := x + [0] + s, y + [0] + t;
    assert x == u[..|x|] && y == v[..|y|];
    assert s == u[|x| + 1..] && t == v[|y| + 1..];
  }

  lemma FieldsShowNul(a: seq<Bytes>, p: Bytes)
    ensures a != [] ==> !NulFree(Terminated(a) + p)
    ensures a == [] ==> Terminated(a) + p == p
  {
    if a != [] { assert (Terminated(a) + p)[|a[0]|] == 0; }
  }

  /** NUL-terminated fields followed by a NUL-free rest can be read back in only one way. */
  lemma {:induction false} TerminatedUnique(a: seq<Bytes>, p: Bytes, b: seq<Bytes>, q: Bytes)
    requires forall f :: f in a || f in b ==> NulFree(f)
    requires NulFree(p) && NulFree(q) && Terminated(a) + p == Terminated(b) + q
    ensures a == b && p == q
    decreases |a|
  {
    FieldsShowNul(a, p);
    FieldsShowNul(b, q);
    if a != [] {
      assert Terminated(a) + p == a[0] + [0] + (Terminated(a[1..]) + p);
      assert Terminated(b) + q == b[0] + [0] + (Terminated(b[1..]) + q);
      FirstNul(a[0], Terminated(a[1..]) + p, b[0], Terminated(b[1..]) + q);
      TerminatedUnique(a[1..], p, b[1..], q);
      assert a == [a[0]] + a[1..] && b == [b[0]] + b[1..];
    }
  }

  function FromBytes(a: int, b: int, c: int, d: int): int {
    a + 256 * b + 0x1_0000 * c + 0x100_0000 * d
  }

  lemma LittleEndianValue(p: Phase)
    ensures var b := LittleEndian(p); p == FromBytes(b[0], b[1], b[2], b[3])
  {
    assert p / 256 / 256 == p / 0x1_0000 && p / 0x1_0000 / 256 == p / 0x100_0000;
  }

  lemma LittleEndianUnique(p: Phase, q: Phase)
    requires LittleEndian(p) == LittleEndian(q)
    ensures p == q
  {
    LittleEndianValue(p);
    LittleEndianValue(q);
  }

  /** The hashed bytes determine exactly the hashed fields. */
  lemma PreimageDetermines(a: Handoff, b: Handoff)
    requires Clean(a) && Clean(b)
    ensures Preimage(a) == Preimage(b) <==> SameHashed(a, b)
  {
    if Preimage(a) == Preimage(b) {
      assert Preimage(a)[..4] == LittleEndian(a.phase) && Preimage(b)[..4] == LittleEndian(b.phase);
      LittleEndianUnique(a.phase, b.phase);
      var x, y := Terminated(Fields(a)) + PreviousBytes(a), Terminated(Fields(b)) + PreviousBytes(b);
      assert Preimage(a)[4..] == x && Preimage(b)[4..] == y;
      TerminatedUnique(Fields(a), PreviousBytes(a), Fields(b), PreviousBytes(b));
      assert Fields(a)[0] == a.fromAgent && Fields(a)[1] == a.beadId && Fields(a)[2] == a.summary;
      assert Fields(a)[3..] == a.filesChanged + a.commitShas;
      assert Fields(b)[0] == b.fromAgent && Fields(b)[1] == b.beadId && Fields(b)[2] == b.summary;
      assert Fields(b)[3..] == b.filesChanged + b.commitShas;
    }
  }

  /** The bytes that are hashed, in order: the phase, each field with a zero after it, and the link. */
  lemma PreimageReads(h: Handoff)
    ensures Preimage(h) == LittleEndian(h.phase)
                           + (h.fromAgent + [0] + (h.beadId + [0] + (h.summary + [0]
                              + (Terminated(h.filesChanged) + Terminated(h.commitShas)))) + PreviousBytes(h))
  {
    var rest := h.filesChanged + h.commitShas;
    TerminatedConcat(h.filesChanged, h.commitShas);
    assert Fields(h) == [h.fromAgent] + ([h.beadId] + ([h.summary] + rest));
    TerminatedFirst(h.fromAgent, [h.beadId] + ([h.summary] + rest));
    TerminatedFirst(h.beadId, [h.summary] + rest);
    TerminatedFirst(h.summary, rest);
  }

  /** A phase is four bytes, the lowest first. */
  lemma PhaseReads(p: Phase)
    ensures var b := LittleEndian(p);
            && |b| == 4
            && p == b[0] as int + 0x100 * (b[1] as int) + 0x1_0000 * (b[2] as int) + 0x100_0000 * (b[3] as int)
  {
    LittleEndianValue(p);
  }

  lemma TerminatedFirst(field: Bytes, rest: seq<Bytes>)
    ensures Terminated([field] + rest) == field + [0] + Terminated(rest)
  {
    assert ([field] + rest)[1..] == rest;
  }

  // ----- Hex -----

  function HexDigit(n: int): Byte
    requires 0 <= n < 16
  {
    if n < 10 then 48 + n else 87 + n
  }

  function Hex(b: Bytes): (h: Bytes)
    ensures |h| == 2 * |b| && NulFree(h)
  {
    if b == [] then [] else [HexDigit(b[0] / 16), HexDigit(b[0] % 16)] + Hex(b[1..])
  }

  /** Two lower-case hexadecimal digits a byte, the high one first. */
  lemma HexReads(b: Byte, rest: Bytes)
    ensures var digits := "0123456789abcdef";
            Hex([b] + rest) == [digits[b / 16] as int, digits[b % 16] as int] + Hex(rest)
  {
    assert ([b] + rest)[1..] == rest;
    DigitReads(b / 16);
    DigitReads(b % 16);
  }

  lemma DigitReads(n: nat)
    requires n < 16
    ensures "0123456789abcdef"[n] as int == HexDigit(n)
  {
  }

  lemma {:induction false} HexInjective(a: Bytes, b: Bytes)
    requires Hex(a) == Hex(b)
    ensures a == b
  {
    if a == [] || b == [] {
      assert |Hex(a)| == |Hex(b)|;
    } else {
      assert Hex(a)[0] == HexDigit(a[0] / 16) && Hex(a)[1] == HexDigit(a[0] % 16) && Hex(a)[2..] == Hex(a[1..]);
      assert Hex(b)[0] == HexDigit(b[0] / 16) && Hex(b)[1] == HexDigit(b[0] % 16) && Hex(b)[2..] == Hex(b[1..]);
      assert a[0] == 16 * (a[0] / 16) + a[0] % 16 && b[0] == 16 * (b[0] / 16) + b[0] % 16;
      HexInjective(a[1..], b[1..]);
      assert a == [a[0]] + a[1..] && b == [b[0]] + b[1..];
    }
  }

  // ----- Operations -----

  function HashHex(digest: Digest, h: Handoff): Bytes {
    Hex(digest(Preimage(h)))
  }

  lemma TerminatedThree(a: Bytes, b: Bytes, c: Bytes)
    ensures Terminated([a, b, c]) == a + [0] + b + [0] + c + [0]
  {
    TerminatedGrows([], a);
    TerminatedGrows([a], b);
    TerminatedGrows([a, b], c);
    assert [] + [a] == [a] && [a] + [b] == [a, b] && [a, b] + [c] == [a, b, c];
  }

  /** Feeds the fields to the hasher one after another. */
  method ChainHash(digest: Digest, h: Handoff) returns (hash: Bytes)
    ensures hash == digest(Preimage(h))
  {
    var fed: Bytes := LittleEndian(h.phase);
    fed := fed + h.fromAgent + [0] + h.beadId + [0] + h.summary + [0];
    TerminatedThree(h.fromAgent, h.beadId, h.summary);
    assert [h.fromAgent, h.beadId, h.summary] + h.filesChanged[..0] == [h.fromAgent, h.beadId, h.summary];
    for i := 0 to |h.filesChanged|
      invariant fed == LittleEndian(h.phase) + Terminated([h.fromAgent, h.beadId, h.summary] + h.filesChanged[..i])
    {
      fed := fed + h.filesChanged[i] + [0];
      TerminatedGrows([h.fromAgent, h.beadId, h.summary] + h.filesChanged[..i], h.filesChanged[i]);
      assert [h.fromAgent, h.beadId, h.summary] + h.filesChanged[..i + 1] ==
             [h.fromAgent, h.beadId, h.summary] + h.filesChanged[..i] + [h.filesChanged[i]];
    }
    ghost var upToFiles := [h.fromAgent, h.beadId, h.summary] + h.filesChanged;
    assert h.filesChanged[..|h.filesChanged|] == h.filesChanged && upToFiles + h.commitShas[..0] == upToFiles;
    for i := 0 to |h.commitShas|
      invariant fed == LittleEndian(h.phase) + Terminated(upToFiles + h.commitShas[..i])
    {
      fed := fed + h.commitShas[i] + [0];
      TerminatedGrows(upToFiles + h.commitShas[..i], h.commitShas[i]);
      assert upToFiles + h.commitShas[..i + 1] == upToFiles + h.commitShas[..i] + [h.commitShas[i]];
    }
    assert upToFiles + h.commitShas[..|h.commitShas|] == Fields(h);
    if h.previousHash.Some? {
      fed := fed + h.previousHash.value;
    }
    assert fed == Preimage(h);
    hash := digest(fed);
  }

  lemma TerminatedGrows(fields: seq<Bytes>, f: Bytes)
    ensures Terminated(fields + [f]) == Terminated(fields) + f + [0]
  {
    TerminatedConcat(fields, [f]);
    assert Terminated([f]) == f + [0] + Terminated([]);
  }

  /** A new handoff carries the content hash of the one before it. */
  function New(digest: Digest, phase: Phase, fromAgent: Bytes, beadId: Bytes, work: Work, previous: Option<Handoff>)
    : Handoff
  {
    Handoff(phase, fromAgent, beadId,
            if work.commits != [] then work.commits[0].message else work.sizeNote,
            work.filesChanged, seq(|work.commits|, i requires 0 <= i < |work.commits| => work.commits[i].sha),
            match previous case Some(p) => Some(HashHex(digest, p)) case None => None)
  }

  // ----- Linked chains -----

  ghost predicate Linked(digest: Digest, chain: seq<Handoff>) {
    && (chain != [] ==> PreviousBytes(chain[0]) == [])
    && (forall k :: 0 < k < |chain| ==> chain[k].previousHash == Some(HashHex(digest, chain[k - 1])))
    && (forall k :: 0 <= k < |chain| ==> Clean(chain[k]))
  }

  /** A new handoff records whose it is, the first commit's message or a size, and what the commits and files are. */
  lemma NewRecords(digest: Digest, phase: Phase, agent: Bytes, bead: Bytes, work: Work, previous: Option<Handoff>)
    ensures var h := New(digest, phase, agent, bead, work, previous);
            && h.phase == phase && h.fromAgent == agent && h.beadId == bead && h.filesChanged == work.filesChanged
            && (work.commits == [] ==> h.summary == work.sizeNote)
            && (work.commits != [] ==> h.summary == work.commits[0].message)
            && |h.commitShas| == |work.commits|
            && (forall i :: 0 <= i < |work.commits| ==> h.commitShas[i] == work.commits[i].sha)
            && (h.previousHash.Some? <==> previous.Some?)
            && (previous.Some? ==> h.previousHash.value == Hex(digest(Preimage(previous.value))))
  {
  }

  /** Appending a handoff created from the last one keeps the chain linked. */
  lemma NewExtendsChain(digest: Digest, chain: seq<Handoff>, phase: Phase, agent: Bytes, bead: Bytes, work: Work)
    requires Linked(digest, chain)
    requires forall f :: f in Fields(New(digest, phase, agent, bead, work, None)) ==> NulFree(f)
    ensures var previous := if chain == [] then None else Some(chain[|chain| - 1]);
            Linked(digest, chain + [New(digest, phase, agent, bead, work, previous)])
  {
    var previous := if chain == [] then None else Some(chain[|chain| - 1]);
    var h := New(digest, phase, agent, bead, work, previous);
    assert Fields(h) == Fields(New(digest, phase, agent, bead, work, None));
  }

  ghost predicate Collision(digest: Digest, a: Handoff, b: Handoff) {
    Preimage(a) != Preimage(b) && digest(Preimage(a)) == digest(Preimage(b))
  }

  ghost predicate Collides(digest: Digest, a: seq<Handoff>, b: seq<Handoff>) {
    exists i, j :: 0 <= i < |a| && 0 <= j < |b| && Collision(digest, a[i], b[j])
  }

  ghost predicate SameChain(a: seq<Handoff>, b: seq<Handoff>) {
    |a| == |b| && forall k :: 0 <= k < |a| ==> SameHashed(a[k], b[k])
  }

  lemma WidenCollision(digest: Digest, a: seq<Handoff>, b: seq<Handoff>)
    requires a != [] && b != [] && Collides(digest, a[..|a| - 1], b[..|b| - 1])
    ensures Collides(digest, a, b)
  {
    var i, j :| 0 <= i < |a| - 1 && 0 <= j < |b| - 1 && Collision(digest, a[..|a| - 1][i], b[..|b| - 1][j]);
    assert Collision(digest, a[i], b[j]);
  }

  /** A record's previous-hash bytes tell whether it starts a chain, and otherwise which digest came before. */
  lemma SamePredecessor(digest: Digest, a: seq<Handoff>, b: seq<Handoff>)
    requires forall x :: |digest(x)| == 32
    requires a != [] && b != [] && Linked(digest, a) && Linked(digest, b)
    requires Preimage(a[|a| - 1]) == Preimage(b[|b| - 1])
    ensures SameHashed(a[|a| - 1], b[|b| - 1])
    ensures |a| == 1 <==> |b| == 1
    ensures |a| > 1 && |b| > 1 ==> digest(Preimage(a[|a| - 2])) == digest(Preimage(b[|b| - 2]))
  {
    var m, n := |a| - 1, |b| - 1;
    PreimageDetermines(a[m], b[n]);
    if m > 0 { assert |PreviousBytes(a[m])| == 2 * |digest(Preimage(a[m - 1]))|; }
    if n > 0 { assert |PreviousBytes(b[n])| == 2 * |digest(Preimage(b[n - 1]))|; }
    if m > 0 && n > 0 { HexInjective(digest(Preimage(a[m - 1])), digest(Preimage(b[n - 1]))); }
  }

  lemma PrefixLinked(digest: Digest, a: seq<Handoff>)
    requires a != [] && Linked(digest, a)
    ensures Linked(digest, a[..|a| - 1])
    ensures |a| > 1 ==> a[..|a| - 1][|a| - 2] == a[|a| - 2]
  {
  }

  lemma ExtendSame(a: seq<Handoff>, b: seq<Handoff>)
    requires a != [] && b != [] && SameChain(a[..|a| - 1], b[..|b| - 1])
    requires SameHashed(a[|a| - 1], b[|b| - 1])
    ensures SameChain(a, b)
  {
    forall k | 0 <= k < |a| ensures SameHashed(a[k], b[k]) {
      if k < |a| - 1 { assert SameHashed(a[..|a| - 1][k], b[..|b| - 1][k]); }
    }
  }

  lemma HistoryGrows(digest: Digest, a: seq<Handoff>, b: seq<Handoff>)
    requires |a| > 1 && |b| > 1 && SameHashed(a[|a| - 1], b[|b| - 1])
    requires SameChain(a[..|a| - 1], b[..|b| - 1]) || Collides(digest, a[..|a| - 1], b[..|b| - 1])
    ensures SameChain(a, b) || Collides(digest, a, b)
  {
    if Collides(digest, a[..|a| - 1], b[..|b| - 1]) {
      WidenCollision(digest, a, b);
    } else {
      ExtendSame(a, b);
    }
  }

  /** The final hash fixes the whole history, unless the digest itself collides on two of its records. */
  lemma {:induction false} FinalHashFixesHistory(digest: Digest, a: seq<Handoff>, b: seq<Handoff>)
    requires forall x :: |digest(x)| == 32
    requires a != [] && b != [] && Linked(digest, a) && Linked(digest, b)
    requires digest(Preimage(a[|a| - 1])) == digest(Preimage(b[|b| - 1]))
    ensures SameChain(a, b) || Collides(digest, a, b)
    decreases |a|
  {
    if Preimage(a[|a| - 1]) != Preimage(b[|b| - 1]) {
      assert Collision(digest, a[|a| - 1], b[|b| - 1]);
    } else {
      SamePredecessor(digest, a, b);
      if |a| > 1 {
        PrefixLinked(digest, a);
        PrefixLinked(digest, b);
        FinalHashFixesHistory(digest, a[..|a| - 1], b[..|b| - 1]);
        HistoryGrows(digest, a, b);
      }
    }
  }

  // ----- Reading a chain back -----

  ghost predicate LinkHolds(digest: Digest, before: Handoff, h: Handoff) {
    h.previousHash == None || h.previousHash == Some(HashHex(digest, before))
  }

  ghost predicate Accepted(digest: Digest, dir: map<nat, Handoff>, chain: seq<Handoff>) {
    && (forall k :: 0 <= k < |chain| ==> k in dir && chain[k] == dir[k])
    && (forall k :: 0 < k < |chain| ==> LinkHolds(digest, chain[k - 1], chain[k]))
  }

  lemma AcceptNext(digest: Digest, dir: map<nat, Handoff>, chain: seq<Handoff>)
    requires Accepted(digest, dir, chain) && |chain| in dir
    requires chain != [] ==> LinkHolds(digest, chain[|chain| - 1], dir[|chain|])
    ensures Accepted(digest, dir, chain + [dir[|chain|]])
  {
  }

  /** `dir` holds the readable handoff files by phase; a chain is its longest accepted run from phase 0. */
  ghost predicate IsReadOf(digest: Digest, dir: map<nat, Handoff>, chain: seq<Handoff>) {
    && Accepted(digest, dir, chain)
    && (|chain| !in dir || (chain != [] && !LinkHolds(digest, chain[|chain| - 1], dir[|chain|])))
  }

  method ReadChain(digest: Digest, dir: map<nat, Handoff>) returns (chain: seq<Handoff>)
    ensures IsReadOf(digest, dir, chain)
  {
    chain := [];
    var phase: nat := 0;
    ghost var unread := dir.Keys;
    while true
      invariant phase == |chain| && Accepted(digest, dir, chain)
      invariant forall k :: k in dir && k >= phase ==> k in unread
      decreases unread
    {
      if phase !in dir {
        break;
      }
      var h := dir[phase];
      if phase > 0 && h.previousHash.Some? {
        var expected := HashHex(digest, chain[phase - 1]);
        if h.previousHash.value != expected {
          return;
        }
      }
      unread := unread - {phase};
      AcceptNext(digest, dir, chain);
      chain := chain + [h];
      phase := phase + 1;
    }
  }

  /** The first record is always read, so nothing but a missing one makes a chain empty. */
  lemma EmptyIffNoStart(digest: Digest, dir: map<nat, Handoff>, chain: seq<Handoff>)
    requires IsReadOf(digest, dir, chain)
    ensures chain == [] <==> 0 !in dir
  {
  }

  /** The n records of a linked directory, in order. */
  ghost predicate Holds(digest: Digest, dir: map<nat, Handoff>, original: seq<Handoff>) {
    && Linked(digest, original)
    && (forall i :: 0 <= i < |original| ==> i in dir && dir[i] == original[i])
    && |original| !in dir
  }

  /** The record still names its predecessor's hash, or none, or is the first, whose link is not checked. */
  predicate LinkKept(k: nat, was: Handoff, forged: Handoff) {
    k == 0 || forged.previousHash == None || forged.previousHash == was.previousHash
  }

  /** Every read of a directory with record k replaced returns the records before it. */
  lemma ReadReaches(digest: Digest, dir: map<nat, Handoff>, original: seq<Handoff>, k: nat, forged: Handoff,
                    chain: seq<Handoff>)
    requires Holds(digest, dir, original) && k < |original| && IsReadOf(digest, dir[k := forged], chain)
    ensures |chain| >= k && chain[..k] == original[..k]
    ensures |chain| > k ==> chain[k] == forged
  {
    if 0 < |chain| < k {
      assert LinkHolds(digest, original[|chain| - 1], original[|chain|]);
    }
  }

  /** It returns the replacement exactly when that keeps the link. */
  lemma ReadTakes(digest: Digest, dir: map<nat, Handoff>, original: seq<Handoff>, k: nat, forged: Handoff,
                  chain: seq<Handoff>)
    requires Holds(digest, dir, original) && k < |original| && IsReadOf(digest, dir[k := forged], chain)
    ensures |chain| > k <==> LinkKept(k, original[k], forged)
  {
    ReadReaches(digest, dir, original, k, forged, chain);
    if k > 0 {
      var before := original[k - 1];
      assert chain[..k][k - 1] == before;
      assert original[k].previousHash == Some(HashHex(digest, before));
      assert |chain| > k ==> LinkHolds(digest, before, chain[k]);
    }
  }

  /**
   * After a change to a hashed field of record k, a read returns exactly the records before it, and the forged one
   * itself when its link is kept; it gets past it only where the digest collides.
   */
  lemma TamperingCutsChain(digest: Digest, dir: map<nat, Handoff>, original: seq<Handoff>, k: nat, forged: Handoff,
                           chain: seq<Handoff>)
    requires Holds(digest, dir, original) && k < |original|
    requires Clean(forged) && !SameHashed(forged, original[k])
    requires IsReadOf(digest, dir[k := forged], chain)
    ensures !LinkKept(k, original[k], forged) ==> chain == original[..k]
    ensures LinkKept(k, original[k], forged) ==>
              chain == original[..k] + [forged] || (k + 1 < |original| && Collision(digest, forged, original[k]))
  {
    ReadReaches(digest, dir, original, k, forged, chain);
    ReadTakes(digest, dir, original, k, forged, chain);
    PreimageDetermines(forged, original[k]);
    if |chain| > k + 1 {
      var after := chain[k + 1];
      assert k + 1 < |original| && after == original[k + 1];
      assert LinkHolds(digest, forged, after);
      HexInjective(digest(Preimage(forged)), digest(Preimage(original[k])));
    }
  }

  /** An untouched linked directory is read back whole. */
  lemma LinkedReadsWhole(digest: Digest, dir: map<nat, Handoff>, original: seq<Handoff>, chain: seq<Handoff>)
    requires Holds(digest, dir, original) && IsReadOf(digest, dir, chain)
    ensures chain == original
  {
    if 0 < |chain| < |original| {
      assert LinkHolds(digest, original[|chain| - 1], original[|chain|]);
    }
  }
}
