/**
The framed TAR streams, stated without any scanning: entries (checksummed header, payload, zero padding) followed by
at least two zero blocks. The frame consumer's verdict is VALID on exactly these.
*/
module TarGrammar {
  import opened Prelude
  import opened PolicyLimits
  import opened TarHeader
  import opened TarFrame

  datatype Entry = Entry(header: Block, payload: seq<byte>)

  /** The header stores the sum of its bytes, its checksum field blanked, and the length of its payload. */
  predicate GoodEntry(e: Entry) {
    && ParseOctal(e.header[148..156]) == Some(Sum(Blanked(e.header)))
    && ParseOctal(e.header[124..136]) == Some(|e.payload|)
    && |e.payload| <= MAX_SINGLE_MEMBER_BYTES
  }

  function PaddedPayload(payload: seq<byte>): (r: seq<byte>)
    ensures |r| == Padded(|payload|)
  {
    payload + Zeros(Padded(|payload|) - |payload|)
  }

  function EntriesBytes(es: seq<Entry>): (r: seq<byte>) {
    if es == [] then [] else es[0].header + PaddedPayload(es[0].payload) + EntriesBytes(es[1..])
  }

  function PayloadTotal(es: seq<Entry>): (n: nat) {
    if es == [] then 0 else |es[0].payload| + PayloadTotal(es[1..])
  }

  predicate GoodEntries(es: seq<Entry>) {
    es == [] || (GoodEntry(es[0]) && GoodEntries(es[1..]))
  }

  /** bytes is the entries es and then zeroBlocks zero blocks, within the header and payload bounds. */
  ghost predicate Framed(bytes: seq<byte>, es: seq<Entry>, zeroBlocks: nat) {
    && GoodEntries(es)
    && |es| <= MAX_TAR_HEADER_COUNT
    && PayloadTotal(es) <= MAX_TOTAL_UNCOMPRESSED_BYTES
    && zeroBlocks >= 2
    && bytes == EntriesBytes(es) + Zeros(TAR_BLOCK_BYTES * zeroBlocks)
  }

  // ---------- the scan accepts every framed stream ----------

  lemma {:induction false} ScanPayload(f: Frame, payload: seq<byte>, rest: seq<byte>)
    requires f.sizeRemaining == |payload| && f.paddingRemaining == Padded(|payload|)
    ensures RunBlocks(f, PaddedPayload(payload) + rest)
         == RunBlocks(f.(sizeRemaining := 0, paddingRemaining := 0), rest)
    decreases |payload|
  {
    var bytes := PaddedPayload(payload) + rest;
    if payload == [] {
      assert bytes == rest;
    } else if |payload| < TAR_BLOCK_BYTES {
      assert bytes[..TAR_BLOCK_BYTES][|payload|..] == Zeros(TAR_BLOCK_BYTES - |payload|);
      assert bytes[TAR_BLOCK_BYTES..] == rest;
    } else {
      var next := payload[TAR_BLOCK_BYTES..];
      assert bytes[..TAR_BLOCK_BYTES][TAR_BLOCK_BYTES..] == Zeros(0);
      assert bytes[TAR_BLOCK_BYTES..] == PaddedPayload(next) + rest;
      ScanPayload(f.(sizeRemaining := |next|, paddingRemaining := Padded(|next|)), next, rest);
    }
  }

  lemma Regroup(a: seq<byte>, b: seq<byte>, c: seq<byte>, d: seq<byte>)
    ensures (a + b + c) + d == a + b + (c + d)
  {
  }

  lemma RunOneBlock(f: Frame, block: Block, rest: seq<byte>)
    ensures RunBlocks(f, block + rest) == Resume(StepBlock(f, block), rest)
  {
    assert (block + rest)[..TAR_BLOCK_BYTES] == block;
    assert (block + rest)[TAR_BLOCK_BYTES..] == rest;
  }

  lemma ScanHeader(f: Frame, e: Entry)
    requires f.paddingRemaining == 0 && f.zeroBlocks == 0 && GoodEntry(e)
    requires f.headerCount + 1 <= MAX_TAR_HEADER_COUNT
    requires f.payloadBytes + |e.payload| <= MAX_TOTAL_UNCOMPRESSED_BYTES
    ensures StepBlock(f, e.header) == Continue(Frame(f.headerCount + 1, f.payloadBytes + |e.payload|, |e.payload|,
                                                     Padded(|e.payload|), 0))
  {
    hide ChecksumIsValid, Sum, Blanked;
    ChecksumIsTheBlankedSum(e.header);
    ZeroBlockIsNoHeader();
  }

  lemma ScanEntry(f: Frame, e: Entry, rest: seq<byte>)
    requires f.sizeRemaining == 0 && f.paddingRemaining == 0 && f.zeroBlocks == 0 && GoodEntry(e)
    requires f.headerCount + 1 <= MAX_TAR_HEADER_COUNT
    requires f.payloadBytes + |e.payload| <= MAX_TOTAL_UNCOMPRESSED_BYTES
    ensures RunBlocks(f, e.header + PaddedPayload(e.payload) + rest)
         == RunBlocks(Frame(f.headerCount + 1, f.payloadBytes + |e.payload|, 0, 0, 0), rest)
  {
    hide RunBlocks, StepBlock, GoodEntry, Padded;
    var size := |e.payload|;
    ScanHeader(f, e);
    RunOneBlock(f, e.header, PaddedPayload(e.payload) + rest);
    assert e.header + PaddedPayload(e.payload) + rest == e.header + (PaddedPayload(e.payload) + rest);
    ScanPayload(Frame(f.headerCount + 1, f.payloadBytes + size, size, Padded(size), 0), e.payload, rest);
  }

  lemma {:induction false} ScanEntries(f: Frame, es: seq<Entry>, rest: seq<byte>)
    requires f.sizeRemaining == 0 && f.paddingRemaining == 0 && f.zeroBlocks == 0
    requires GoodEntries(es)
    requires f.headerCount + |es| <= MAX_TAR_HEADER_COUNT
    requires f.payloadBytes + PayloadTotal(es) <= MAX_TOTAL_UNCOMPRESSED_BYTES
    ensures RunBlocks(f, EntriesBytes(es) + rest)
         == RunBlocks(Frame(f.headerCount + |es|, f.payloadBytes + PayloadTotal(es), 0, 0, 0), rest)
    decreases |es|
  {
    hide GoodEntry, RunBlocks, StepBlock;
    if es == [] {
      assert EntriesBytes(es) + rest == rest;
    } else {
      var e := es[0];
      assert GoodEntry(e);
      var after := EntriesBytes(es[1..]) + rest;
      ScanEntry(f, e, after);
      Regroup(e.header, PaddedPayload(e.payload), EntriesBytes(es[1..]), rest);
      ScanEntries(Frame(f.headerCount + 1, f.payloadBytes + |e.payload|, 0, 0, 0), es[1..], rest);
    }
  }

  lemma {:induction false} ScanZeros(f: Frame, k: nat)
    requires f.paddingRemaining == 0
    ensures RunBlocks(f, Zeros(TAR_BLOCK_BYTES * k)) == Continue(f.(zeroBlocks := f.zeroBlocks + k))
    decreases k
  {
    if k > 0 {
      var bytes := Zeros(TAR_BLOCK_BYTES * k);
      assert bytes[..TAR_BLOCK_BYTES] == Zeros(TAR_BLOCK_BYTES);
      assert bytes[TAR_BLOCK_BYTES..] == Zeros(TAR_BLOCK_BYTES * (k - 1));
      ScanZeros(f.(zeroBlocks := f.zeroBlocks + 1), k - 1);
    }
  }

  lemma {:induction false} EntriesAreBlocks(es: seq<Entry>)
    ensures |EntriesBytes(es)| % TAR_BLOCK_BYTES == 0
  {
    if es != [] { EntriesAreBlocks(es[1..]); }
  }

  lemma FramedIsValid(bytes: seq<byte>, es: seq<Entry>, k: nat, sha: seq<byte> -> Sha256)
    requires Framed(bytes, es, k)
    ensures Verdict(bytes, sha) == FrameResult(Valid, |bytes|, Some(sha(bytes)), |es|)
  {
    hide GoodEntry, GoodEntries, EntriesBytes, PayloadTotal, RunBlocks, StepBlock;
    var zeros := Zeros(TAR_BLOCK_BYTES * k);
    ScanEntries(Start(), es, zeros);
    ScanZeros(Frame(|es|, PayloadTotal(es), 0, 0, 0), k);
    EntriesAreBlocks(es);
    WholeBlocksDrop(k, |EntriesBytes(es)|);
  }

  // ---------- every accepted stream is framed ----------

  predicate Complete(f: Frame, bytes: seq<byte>) {
    |bytes| % TAR_BLOCK_BYTES == 0 && RunBlocks(f, bytes).Continue? && AtEnd(RunBlocks(f, bytes).frame)
  }

  lemma {:induction false} RecoverPayload(f: Frame, bytes: seq<byte>)
    requires f.paddingRemaining == Padded(f.sizeRemaining) && Complete(f, bytes)
    ensures var n := f.sizeRemaining;
            && Padded(n) <= |bytes|
            && bytes[n..Padded(n)] == Zeros(Padded(n) - n)
            && Complete(f.(sizeRemaining := 0, paddingRemaining := 0), bytes[Padded(n)..])
            && RunBlocks(f.(sizeRemaining := 0, paddingRemaining := 0), bytes[Padded(n)..]) == RunBlocks(f, bytes)
    decreases f.sizeRemaining
  {
    var n := f.sizeRemaining;
    if n == 0 {
      assert bytes[0..] == bytes;
    } else {
      assert |bytes| >= TAR_BLOCK_BYTES;
      var g := StepBlock(f, bytes[..TAR_BLOCK_BYTES]).frame;
      RecoverPayload(g, bytes[TAR_BLOCK_BYTES..]);
      assert bytes[TAR_BLOCK_BYTES..][Padded(g.sizeRemaining)..] == bytes[Padded(n)..];
      if n < TAR_BLOCK_BYTES {
        assert bytes[n..TAR_BLOCK_BYTES] == bytes[..TAR_BLOCK_BYTES][n..];
      } else {
        assert bytes[TAR_BLOCK_BYTES..][g.sizeRemaining..Padded(g.sizeRemaining)] == bytes[n..Padded(n)];
      }
    }
  }

  lemma {:induction false} RecoverZeros(f: Frame, bytes: seq<byte>)
    requires f.zeroBlocks > 0 && f.paddingRemaining == 0 && Complete(f, bytes)
    ensures bytes == Zeros(|bytes|)
    ensures RunBlocks(f, bytes) == Continue(f.(zeroBlocks := f.zeroBlocks + |bytes| / TAR_BLOCK_BYTES))
    decreases |bytes|
  {
    if bytes != [] {
      RecoverZeros(f.(zeroBlocks := f.zeroBlocks + 1), bytes[TAR_BLOCK_BYTES..]);
      assert bytes == bytes[..TAR_BLOCK_BYTES] + bytes[TAR_BLOCK_BYTES..];
    }
  }

  lemma FirstBlock(f: Frame, bytes: seq<byte>) returns (block: Block, rest: seq<byte>)
    requires f.zeroBlocks < 2 && Complete(f, bytes)
    ensures bytes == block + rest && StepBlock(f, block).Continue? && Complete(StepBlock(f, block).frame, rest)
  {
    block, rest := bytes[..TAR_BLOCK_BYTES], bytes[TAR_BLOCK_BYTES..];
  }

  lemma RecoverHeader(f: Frame, block: Block)
    requires f.paddingRemaining == 0 && f.zeroBlocks == 0 && block != Zeros(TAR_BLOCK_BYTES)
    requires StepBlock(f, block).Continue?
    ensures var g := StepBlock(f, block).frame;
            && ChecksumIsValid(block) && ParseOctal(block[124..136]) == Some(g.sizeRemaining)
            && g.sizeRemaining <= MAX_SINGLE_MEMBER_BYTES
            && f.headerCount + 1 <= MAX_TAR_HEADER_COUNT
            && f.payloadBytes + g.sizeRemaining <= MAX_TOTAL_UNCOMPRESSED_BYTES
            && g == Frame(f.headerCount + 1, f.payloadBytes + g.sizeRemaining, g.sizeRemaining,
                          Padded(g.sizeRemaining), 0)
  {
  }

  lemma CutEntry(block: Block, rest: seq<byte>, size: nat) returns (e: Entry)
    requires Padded(size) <= |rest| && rest[size..Padded(size)] == Zeros(Padded(size) - size)
    requires ChecksumIsValid(block) && ParseOctal(block[124..136]) == Some(size) && size <= MAX_SINGLE_MEMBER_BYTES
    ensures e.header == block && |e.payload| == size && GoodEntry(e)
    ensures block + rest == block + PaddedPayload(e.payload) + rest[Padded(size)..]
  {
    hide ChecksumIsValid, Sum, Blanked;
    ChecksumIsTheBlankedSum(block);
    e := Entry(block, rest[..size]);
    assert rest == rest[..size] + rest[size..Padded(size)] + rest[Padded(size)..];
  }

  lemma {:induction false} RecoverEntries(f: Frame, bytes: seq<byte>) returns (es: seq<Entry>, k: nat)
    requires f.sizeRemaining == 0 && f.paddingRemaining == 0 && f.zeroBlocks == 0
    requires f.headerCount <= MAX_TAR_HEADER_COUNT && f.payloadBytes <= MAX_TOTAL_UNCOMPRESSED_BYTES
    requires Complete(f, bytes)
    ensures GoodEntries(es) && k >= 2
    ensures f.headerCount + |es| <= MAX_TAR_HEADER_COUNT
    ensures f.payloadBytes + PayloadTotal(es) <= MAX_TOTAL_UNCOMPRESSED_BYTES
    ensures bytes == EntriesBytes(es) + Zeros(TAR_BLOCK_BYTES * k)
    decreases |bytes|
  {
    hide RunBlocks, GoodEntry;
    var block, rest := FirstBlock(f, bytes);
    if block == Zeros(TAR_BLOCK_BYTES) {
      RecoverZeros(f.(zeroBlocks := 1), rest);
      es, k := [], 1 + |rest| / TAR_BLOCK_BYTES;
      assert bytes == Zeros(TAR_BLOCK_BYTES * k);
    } else {
      RecoverHeader(f, block);
      var g := StepBlock(f, block).frame;
      var size := g.sizeRemaining;
      RecoverPayload(g, rest);
      var e := CutEntry(block, rest, size);
      var more;
      more, k := RecoverEntries(g.(sizeRemaining := 0, paddingRemaining := 0), rest[Padded(size)..]);
      es := [e] + more;
      assert es[1..] == more;
      Regroup(e.header, PaddedPayload(e.payload), EntriesBytes(more), Zeros(TAR_BLOCK_BYTES * k));
    }
  }

  /** VALID exactly on framed streams, and then the result names the stream's size, digest and number of entries. */
  lemma ValidIffFramed(bytes: seq<byte>, sha: seq<byte> -> Sha256)
    ensures Verdict(bytes, sha).status == Valid <==> exists es, k :: Framed(bytes, es, k)
    ensures forall es, k :: Framed(bytes, es, k) ==>
              Verdict(bytes, sha) == FrameResult(Valid, |bytes|, Some(sha(bytes)), |es|)
  {
    if Verdict(bytes, sha).status == Valid {
      StopIsNeverValid(Start(), bytes);
      var es, k := RecoverEntries(Start(), bytes);
      assert Framed(bytes, es, k);
    }
    forall es, k | Framed(bytes, es, k)
      ensures Verdict(bytes, sha) == FrameResult(Valid, |bytes|, Some(sha(bytes)), |es|)
    {
      FramedIsValid(bytes, es, k, sha);
    }
  }

  lemma {:induction false} StopIsNeverValid(f: Frame, bytes: seq<byte>)
    ensures RunBlocks(f, bytes).Stop? ==> RunBlocks(f, bytes).status != Valid
    decreases |bytes|
  {
    if |bytes| >= TAR_BLOCK_BYTES {
      match StepBlock(f, bytes[..TAR_BLOCK_BYTES])
      case Stop(_) =>
      case Continue(g) => StopIsNeverValid(g, bytes[TAR_BLOCK_BYTES..]);
    }
  }

  // ---------- the limits against each other ----------

  lemma {:induction false} EntriesSize(es: seq<Entry>)
    ensures |EntriesBytes(es)| <= PayloadTotal(es) + |es| * 1_024
  {
    if es != [] { EntriesSize(es[1..]); }
  }

  /** The stream limit never turns away a framed stream that ends in exactly two zero blocks. */
  lemma StreamLimitAdmitsFramed(bytes: seq<byte>, es: seq<Entry>)
    requires Framed(bytes, es, 2)
    ensures |bytes| <= MAX_TAR_STREAM_BYTES
  {
    EntriesSize(es);
  }

  lemma {:induction false} LiveBytesBound(p: Progress, chunks: seq<seq<byte>>)
    requires forall i :: 0 <= i < |chunks| ==> |chunks[i]| <= READ_CHUNK_BYTES
    requires p.Live? ==> p.chunks <= MAX_TAR_STREAM_CHUNKS && |p.fed| <= p.chunks * READ_CHUNK_BYTES
    ensures var q := AfterChunks(p, chunks);
            q.Live? ==> && q.chunks <= MAX_TAR_STREAM_CHUNKS && |q.fed| <= q.chunks * READ_CHUNK_BYTES
                        && p.Live? && q.fed == p.fed + Concat(chunks)
    decreases |chunks|
  {
    if chunks != [] {
      LiveBytesBound(AfterChunk(p, chunks[0]), chunks[1..]);
      if AfterChunks(p, chunks).Live? {
        assert p.fed + Concat(chunks) == (p.fed + chunks[0]) + Concat(chunks[1..]);
      }
    } else if p.Live? {
      assert p.fed + Concat(chunks) == p.fed;
    }
  }

  /**
  Fed by reads of at most 65,536 bytes the chunk limit caps an accepted stream at 2^32 bytes, which is below the
  advertised stream limit: a larger framed stream is turned away although its size is allowed.
  */
  lemma ReadSizeCapsTheStream(chunks: seq<seq<byte>>, sha: seq<byte> -> Sha256)
    requires forall i :: 0 <= i < |chunks| ==> |chunks[i]| <= READ_CHUNK_BYTES
    ensures AfterChunks(Live(0, []), chunks).Live? ==> |Concat(chunks)| <= 0x1_0000_0000
    ensures 0x1_0000_0000 < MAX_TAR_STREAM_BYTES
  {
    LiveBytesBound(Live(0, []), chunks);
    assert [] + Concat(chunks) == Concat(chunks);
  }
}
