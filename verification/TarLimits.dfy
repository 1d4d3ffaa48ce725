/**
When a TAR stream is over the limits rather than malformed: exactly when behind good entries a header that verifies asks
for more than the bounds allow.
*/
module TarLimits {
  import opened Prelude
  import opened PolicyLimits
  import opened TarHeader
  import opened TarFrame
  import opened TarGrammar

  /** bytes is good entries and then a header that stores its sum and a size, too many or too much for the bounds; what
      follows does not matter. */
  ghost predicate AsksTooMuch(bytes: seq<byte>, es: seq<Entry>, header: Block, rest: seq<byte>) {
    && GoodEntries(es) && |es| <= MAX_TAR_HEADER_COUNT && PayloadTotal(es) <= MAX_TOTAL_UNCOMPRESSED_BYTES
    && bytes == EntriesBytes(es) + header + rest
    && TooMuch(|es|, PayloadTotal(es), header)
  }

  predicate TooMuch(headers: nat, payload: nat, header: Block) {
    && ParseOctal(header[148..156]) == Some(Sum(Blanked(header)))
    && match ParseOctal(header[124..136])
       case None => false
       case Some(size) => headers >= MAX_TAR_HEADER_COUNT || size > MAX_SINGLE_MEMBER_BYTES
                          || payload + size > MAX_TOTAL_UNCOMPRESSED_BYTES
  }

  lemma HeaderOverLimit(f: Frame, header: Block)
    requires f.paddingRemaining == 0 && f.zeroBlocks == 0
    ensures StepBlock(f, header) == Stop(LimitExceeded) <==> TooMuch(f.headerCount, f.payloadBytes, header)
  {
    hide ChecksumIsValid, Sum, Blanked, ParseOctal;
    ChecksumIsTheBlankedSum(header);
    ZeroBlockIsNoHeader();
  }

  lemma {:induction false} NoLimitBehindZeros(f: Frame, bytes: seq<byte>)
    requires f.zeroBlocks > 0 && f.paddingRemaining == 0
    ensures RunBlocks(f, bytes) != Stop(LimitExceeded)
    decreases |bytes|
  {
    if |bytes| >= TAR_BLOCK_BYTES && bytes[..TAR_BLOCK_BYTES] == Zeros(TAR_BLOCK_BYTES) {
      NoLimitBehindZeros(f.(zeroBlocks := f.zeroBlocks + 1), bytes[TAR_BLOCK_BYTES..]);
    }
  }

  /** A limit is only ever hit behind the complete, padded payload. */
  lemma {:induction false} LimitBehindPayload(f: Frame, bytes: seq<byte>)
    requires f.paddingRemaining == Padded(f.sizeRemaining) && RunBlocks(f, bytes) == Stop(LimitExceeded)
    ensures var n := f.sizeRemaining;
            && Padded(n) <= |bytes| && bytes[n..Padded(n)] == Zeros(Padded(n) - n)
            && RunBlocks(f.(sizeRemaining := 0, paddingRemaining := 0), bytes[Padded(n)..]) == Stop(LimitExceeded)
    decreases f.sizeRemaining
  {
    hide StepHeader;
    var n := f.sizeRemaining;
    if n == 0 {
      assert bytes[0..] == bytes;
    } else {
      var g := StepBlock(f, bytes[..TAR_BLOCK_BYTES]).frame;
      LimitBehindPayload(g, bytes[TAR_BLOCK_BYTES..]);
      assert bytes[TAR_BLOCK_BYTES..][Padded(g.sizeRemaining)..] == bytes[Padded(n)..];
      if n < TAR_BLOCK_BYTES {
        assert bytes[n..TAR_BLOCK_BYTES] == bytes[..TAR_BLOCK_BYTES][n..];
      } else {
        assert bytes[TAR_BLOCK_BYTES..][g.sizeRemaining..Padded(g.sizeRemaining)] == bytes[n..Padded(n)];
      }
    }
  }

  lemma {:induction false} RecoverLimit(f: Frame, bytes: seq<byte>)
    returns (es: seq<Entry>, header: Block, rest: seq<byte>)
    requires f.sizeRemaining == 0 && f.paddingRemaining == 0 && f.zeroBlocks == 0
    requires f.headerCount <= MAX_TAR_HEADER_COUNT && f.payloadBytes <= MAX_TOTAL_UNCOMPRESSED_BYTES
    requires RunBlocks(f, bytes) == Stop(LimitExceeded)
    ensures GoodEntries(es)
    ensures f.headerCount + |es| <= MAX_TAR_HEADER_COUNT
    ensures f.payloadBytes + PayloadTotal(es) <= MAX_TOTAL_UNCOMPRESSED_BYTES
    ensures bytes == EntriesBytes(es) + header + rest
    ensures TooMuch(f.headerCount + |es|, f.payloadBytes + PayloadTotal(es), header)
    decreases |bytes|
  {
    hide StepBlock, RunBlocks, GoodEntry, TooMuch, EntriesBytes, PaddedPayload;
    header, rest := FirstStep(f, bytes);
    if StepBlock(f, header).Stop? {
      HeaderOverLimit(f, header);
      es := [];
      NoEntries(bytes, header, rest);
    } else {
      var block, behind := header, rest;
      RecoverHeader(f, block);
      var g := StepBlock(f, block).frame;
      LimitBehindPayload(g, behind);
      var e := CutEntry(block, behind, g.sizeRemaining);
      var more;
      more, header, rest :=
        RecoverLimit(g.(sizeRemaining := 0, paddingRemaining := 0), behind[Padded(g.sizeRemaining)..]);
      es := [e] + more;
      assert es[1..] == more;
      JoinsUp(bytes, e, behind[Padded(g.sizeRemaining)..], more, header, rest);
    }
  }

  lemma NoEntries(bytes: seq<byte>, header: seq<byte>, rest: seq<byte>)
    requires bytes == header + rest
    ensures bytes == EntriesBytes([]) + header + rest
  {
    assert [] + header == header;
  }

  lemma FirstStep(f: Frame, bytes: seq<byte>) returns (block: Block, rest: seq<byte>)
    requires f.paddingRemaining == 0 && f.zeroBlocks == 0 && RunBlocks(f, bytes) == Stop(LimitExceeded)
    ensures bytes == block + rest && block != Zeros(TAR_BLOCK_BYTES)
    ensures StepBlock(f, block).Stop? ==> StepBlock(f, block) == Stop(LimitExceeded)
    ensures StepBlock(f, block).Continue? ==> RunBlocks(StepBlock(f, block).frame, rest) == Stop(LimitExceeded)
  {
    hide StepHeader;
    block, rest := bytes[..TAR_BLOCK_BYTES], bytes[TAR_BLOCK_BYTES..];
    if block == Zeros(TAR_BLOCK_BYTES) {
      NoLimitBehindZeros(f.(zeroBlocks := 1), rest);
    }
  }

  lemma JoinsUp(bytes: seq<byte>, e: Entry, behind: seq<byte>, more: seq<Entry>, header: seq<byte>, rest: seq<byte>)
    requires bytes == e.header + PaddedPayload(e.payload) + behind
    requires behind == EntriesBytes(more) + header + rest
    ensures bytes == EntriesBytes([e] + more) + header + rest
  {
    assert ([e] + more)[1..] == more;
    var front := e.header + PaddedPayload(e.payload);
    assert EntriesBytes([e] + more) == front + EntriesBytes(more);
    assert front + (EntriesBytes(more) + header + rest) == front + EntriesBytes(more) + header + rest;
  }

  /** LIMIT_EXCEEDED exactly for streams that ask too much behind good entries; every other stream that is not valid is
      INVALID. */
  lemma LimitIffAsksTooMuch(bytes: seq<byte>, sha: seq<byte> -> Sha256)
    ensures Verdict(bytes, sha).status == FrameStatus.LimitExceeded
       <==> exists es, header, rest :: AsksTooMuch(bytes, es, header, rest)
    ensures Verdict(bytes, sha).status in {FrameStatus.Valid, FrameStatus.LimitExceeded, FrameStatus.Invalid}
  {
    hide RunBlocks, GoodEntries, TooMuch;
    if Verdict(bytes, sha).status == FrameStatus.LimitExceeded {
      var es, header, rest := RecoverLimit(Start(), bytes);
      assert AsksTooMuch(bytes, es, header, rest);
    }
    if es, header, rest :| AsksTooMuch(bytes, es, header, rest) {
      AskingStops(bytes, es, header, rest);
    }
  }

  lemma AskingStops(bytes: seq<byte>, es: seq<Entry>, header: Block, rest: seq<byte>)
    requires AsksTooMuch(bytes, es, header, rest)
    ensures RunBlocks(Start(), bytes) == Stop(LimitExceeded)
  {
    hide RunBlocks, StepBlock, GoodEntries, TooMuch;
    assert bytes == EntriesBytes(es) + (header + rest);
    ScanEntries(Start(), es, header + rest);
    var f := Frame(|es|, PayloadTotal(es), 0, 0, 0);
    RunOneBlock(f, header, rest);
    HeaderOverLimit(f, header);
  }

  // ---------- the limits on chunks ----------

  lemma {:induction false} LiveCounts(count: nat, fed: seq<byte>, chunks: seq<seq<byte>>)
    requires AfterChunks(Live(count, fed), chunks).Live?
    ensures AfterChunks(Live(count, fed), chunks) == Live(count + |chunks|, fed + Concat(chunks))
    ensures count <= MAX_TAR_STREAM_CHUNKS && |fed| <= MAX_TAR_STREAM_BYTES ==>
              && count + |chunks| <= MAX_TAR_STREAM_CHUNKS && |fed + Concat(chunks)| <= MAX_TAR_STREAM_BYTES
              && forall i :: 0 <= i < |chunks| ==> |chunks[i]| <= MAX_TAR_STREAM_CHUNK_BYTES
    decreases |chunks|
  {
    hide RunBlocks;
    if chunks == [] {
      assert fed + Concat(chunks) == fed;
    } else {
      var next := AfterChunk(Live(count, fed), chunks[0]);
      if next.Done? { DoneStays(next.result, chunks[1..]); }
      LiveCounts(count + 1, fed + chunks[0], chunks[1..]);
      assert fed + Concat(chunks) == fed + chunks[0] + Concat(chunks[1..]);
    }
  }

  lemma {:induction false} ChunksAppend(p: Progress, a: seq<seq<byte>>, b: seq<seq<byte>>)
    ensures AfterChunks(p, a + b) == AfterChunks(AfterChunks(p, a), b)
    decreases |a|
  {
    hide AfterChunk;
    if a == [] {
      assert a + b == b;
    } else {
      assert (a + b)[1..] == a[1..] + b;
      ChunksAppend(AfterChunk(p, a[0]), a[1..], b);
    }
  }

  /** A chunk that takes a stream over the limits, behind chunks the consumer was content with, ends it
      LIMIT_EXCEEDED. */
  lemma OverLimitEnds(front: seq<seq<byte>>, c: seq<byte>, rest: seq<seq<byte>>, sha: seq<byte> -> Sha256)
    requires AfterChunks(Live(0, []), front).Live? && !ChunksWithinLimits(front + [c])
    ensures Outcome(AfterChunks(Live(0, []), front + [c] + rest), sha).status == FrameStatus.LimitExceeded
  {
    hide RunBlocks;
    LiveCounts(0, [], front);
    assert [] + Concat(front) == Concat(front);
    ConcatSnoc(front, c);
    if forall i :: 0 <= i < |front + [c]| ==> |(front + [c])[i]| <= MAX_TAR_STREAM_CHUNK_BYTES {
      assert (front + [c])[|front|] == c;
    }
    ChunksAppend(Live(0, []), front + [c], rest);
    ChunksAppend(Live(0, []), front, [c]);
    DoneStays(Failure(LimitExceeded), rest);
    assert [c][1..] == [];
  }

  /** A consumer that is content with its chunks has seen only chunks within the limits. */
  lemma LiveIsWithinLimits(chunks: seq<seq<byte>>)
    requires AfterChunks(Live(0, []), chunks).Live?
    ensures ChunksWithinLimits(chunks)
  {
    hide RunBlocks, AfterChunks;
    LiveCounts(0, [], chunks);
    assert [] + Concat(chunks) == Concat(chunks);
  }
}
