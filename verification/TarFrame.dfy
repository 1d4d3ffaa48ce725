/**
The incremental TAR frame consumer: a class fed chunk by chunk, a function over the whole byte string that it
refines, and a declarative grammar of framed TAR streams that the function decides.
*/
module TarFrame {
  import opened Prelude
  import opened PolicyLimits
  import opened TarHeader

  const MAX_TAR_STREAM_CHUNK_BYTES := 262_144
  const MAX_TAR_STREAM_CHUNKS := 65_536
  const MAX_TAR_HEADER_COUNT := MAX_MEMBER_COUNT * 2
  const MAX_TAR_STREAM_BYTES := MAX_TOTAL_UNCOMPRESSED_BYTES + MAX_TAR_HEADER_COUNT * 1_024 + 1_024

  datatype FrameStatus = Valid | Invalid | LimitExceeded

  datatype FrameResult = FrameResult(status: FrameStatus, streamSize: int, digest: Option<Sha256>, headerCount: int)
  {
    /** What the result type's own constructor insists on. */
    predicate Constructible() {
      if status == Valid then
        && 1_024 <= streamSize <= MAX_TAR_STREAM_BYTES
        && streamSize % TAR_BLOCK_BYTES == 0
        && digest.Some?
        && 0 <= headerCount <= MAX_TAR_HEADER_COUNT
      else
        streamSize == 0 && digest == None && headerCount == 0
    }
  }

  function Failure(status: FrameStatus): (r: FrameResult) {
    FrameResult(status, 0, None, 0)
  }

  // ---------- one block ----------

  /** The accounting the consumer keeps between blocks. */
  datatype Frame = Frame(headerCount: nat, payloadBytes: nat, sizeRemaining: nat, paddingRemaining: int,
                         zeroBlocks: nat)

  datatype Step = Continue(frame: Frame) | Stop(status: FrameStatus)

  function Start(): (f: Frame) {
    Frame(0, 0, 0, 0, 0)
  }

  type Block = s: seq<byte> | |s| == TAR_BLOCK_BYTES witness Zeros(TAR_BLOCK_BYTES)

  function Padded(size: nat): (n: nat)
    ensures size <= n < size + TAR_BLOCK_BYTES && n % TAR_BLOCK_BYTES == 0
  {
    (size + TAR_BLOCK_BYTES - 1) / TAR_BLOCK_BYTES * TAR_BLOCK_BYTES
  }

  function StepPayload(f: Frame, block: Block): (r: Step) {
    var n := if f.sizeRemaining < TAR_BLOCK_BYTES then f.sizeRemaining else TAR_BLOCK_BYTES;
    if block[n..] != Zeros(TAR_BLOCK_BYTES - n) then Stop(Invalid)
    else Continue(f.(sizeRemaining := f.sizeRemaining - n,
                     paddingRemaining := f.paddingRemaining - TAR_BLOCK_BYTES))
  }

  function StepHeader(f: Frame, block: Block): (r: Step) {
    if !ChecksumIsValid(block) then Stop(Invalid)
    else match ParseOctal(block[124..136])
      case None => Stop(Invalid)
      case Some(size) =>
        if f.headerCount + 1 > MAX_TAR_HEADER_COUNT || size > MAX_SINGLE_MEMBER_BYTES
           || f.payloadBytes + size > MAX_TOTAL_UNCOMPRESSED_BYTES
        then Stop(LimitExceeded)
        else Continue(Frame(f.headerCount + 1, f.payloadBytes + size, size, Padded(size), f.zeroBlocks))
  }

  function StepBlock(f: Frame, block: Block): (r: Step) {
    if f.paddingRemaining != 0 then StepPayload(f, block)
    else if block == Zeros(TAR_BLOCK_BYTES) then Continue(f.(zeroBlocks := f.zeroBlocks + 1))
    else if f.zeroBlocks > 0 then Stop(Invalid)
    else StepHeader(f, block)
  }

  /** Run over every complete block of bytes; a trailing partial block waits. */
  function RunBlocks(f: Frame, bytes: seq<byte>): (r: Step)
    decreases |bytes|
  {
    if |bytes| < TAR_BLOCK_BYTES then Continue(f)
    else match StepBlock(f, bytes[..TAR_BLOCK_BYTES])
      case Stop(s) => Stop(s)
      case Continue(g) => RunBlocks(g, bytes[TAR_BLOCK_BYTES..])
  }

  /** Carry on from a step over the bytes that follow it. */
  function Resume(s: Step, rest: seq<byte>): (r: Step) {
    match s
    case Stop(_) => s
    case Continue(g) => RunBlocks(g, rest)
  }

  function Tail(bytes: seq<byte>): (r: seq<byte>)
    ensures |r| == |bytes| % TAR_BLOCK_BYTES
  {
    bytes[|bytes| - |bytes| % TAR_BLOCK_BYTES..]
  }

  /** Bytes may arrive in any pieces: only the waiting partial block and the accounting carry over. */
  lemma {:induction false} RunBlocksSplit(f: Frame, a: seq<byte>, b: seq<byte>)
    ensures RunBlocks(f, a + b) == Resume(RunBlocks(f, a), Tail(a) + b)
    decreases |a|
  {
    if |a| < TAR_BLOCK_BYTES {
      assert Tail(a) == a;
    } else {
      assert (a + b)[..TAR_BLOCK_BYTES] == a[..TAR_BLOCK_BYTES];
      assert (a + b)[TAR_BLOCK_BYTES..] == a[TAR_BLOCK_BYTES..] + b;
      assert Tail(a) == Tail(a[TAR_BLOCK_BYTES..]);
      match StepBlock(f, a[..TAR_BLOCK_BYTES])
      case Stop(_) =>
      case Continue(g) => RunBlocksSplit(g, a[TAR_BLOCK_BYTES..], b);
    }
  }

  lemma WholeBlocksDrop(q: nat, x: nat)
    ensures (TAR_BLOCK_BYTES * q + x) % TAR_BLOCK_BYTES == x % TAR_BLOCK_BYTES
  {
    var y, z := x / TAR_BLOCK_BYTES, x % TAR_BLOCK_BYTES;
    assert TAR_BLOCK_BYTES * q + x == TAR_BLOCK_BYTES * (q + y) + z;
  }

  lemma TailLength(n: nat, m: nat)
    ensures (n % TAR_BLOCK_BYTES + m) % TAR_BLOCK_BYTES == (n + m) % TAR_BLOCK_BYTES
  {
    assert n == TAR_BLOCK_BYTES * (n / TAR_BLOCK_BYTES) + n % TAR_BLOCK_BYTES;
    WholeBlocksDrop(n / TAR_BLOCK_BYTES, n % TAR_BLOCK_BYTES + m);
  }

  lemma SuffixOfSuffix<T>(a: seq<T>, b: seq<T>, kept: nat, rest: nat)
    requires kept <= |a| && rest <= kept + |b|
    ensures (a[|a| - kept..] + b)[kept + |b| - rest..] == (a + b)[|a| + |b| - rest..]
  {
  }

  lemma TailAppend(a: seq<byte>, b: seq<byte>)
    ensures Tail(a + b) == Tail(Tail(a) + b)
  {
    TailLength(|a|, |b|);
    SuffixOfSuffix(a, b, |a| % TAR_BLOCK_BYTES, (|a| + |b|) % TAR_BLOCK_BYTES);
  }

  predicate AtEnd(f: Frame) {
    f.paddingRemaining == 0 && f.sizeRemaining == 0 && f.zeroBlocks >= 2
  }

  /** The verdict on a whole byte string, with no chunks in sight. */
  function Verdict(bytes: seq<byte>, sha: seq<byte> -> Sha256): (r: FrameResult) {
    match RunBlocks(Start(), bytes)
    case Stop(s) => Failure(s)
    case Continue(f) =>
      if |bytes| % TAR_BLOCK_BYTES == 0 && AtEnd(f) then FrameResult(Valid, |bytes|, Some(sha(bytes)), f.headerCount)
      else Failure(Invalid)
  }

  // ---------- chunks ----------

  /** What a consumer has promised so far: the bytes it took in, or a terminal result. */
  datatype Progress = Live(chunks: nat, fed: seq<byte>) | Done(result: FrameResult)

  predicate WithinLimits(chunks: nat, size: nat, chunk: seq<byte>) {
    chunks < MAX_TAR_STREAM_CHUNKS && |chunk| <= MAX_TAR_STREAM_CHUNK_BYTES && size + |chunk| <= MAX_TAR_STREAM_BYTES
  }

  function AfterChunk(p: Progress, chunk: seq<byte>): (r: Progress) {
    match p
    case Done(_) => p
    case Live(chunks, fed) =>
      if !WithinLimits(chunks, |fed|, chunk) then Done(Failure(LimitExceeded))
      else match RunBlocks(Start(), fed + chunk)
           case Stop(s) => Done(Failure(s))
           case Continue(_) => Live(chunks + 1, fed + chunk)
  }

  function AfterChunks(p: Progress, chunks: seq<seq<byte>>): (r: Progress)
    decreases |chunks|
  {
    if chunks == [] then p else AfterChunks(AfterChunk(p, chunks[0]), chunks[1..])
  }

  function Outcome(p: Progress, sha: seq<byte> -> Sha256): (r: FrameResult) {
    match p
    case Done(result) => result
    case Live(_, fed) => Verdict(fed, sha)
  }

  lemma {:induction false} DoneStays(r: FrameResult, chunks: seq<seq<byte>>)
    ensures AfterChunks(Done(r), chunks) == Done(r)
  {
    if chunks != [] { DoneStays(r, chunks[1..]); }
  }

  predicate ChunksWithinLimits(chunks: seq<seq<byte>>) {
    && |chunks| <= MAX_TAR_STREAM_CHUNKS
    && (forall i :: 0 <= i < |chunks| ==> |chunks[i]| <= MAX_TAR_STREAM_CHUNK_BYTES)
    && |Concat(chunks)| <= MAX_TAR_STREAM_BYTES
  }

  lemma {:induction false} ChunksAreVerdict(count: nat, fed: seq<byte>, chunks: seq<seq<byte>>,
                                            sha: seq<byte> -> Sha256)
    requires RunBlocks(Start(), fed).Continue?
    requires count + |chunks| <= MAX_TAR_STREAM_CHUNKS
    requires forall i :: 0 <= i < |chunks| ==> |chunks[i]| <= MAX_TAR_STREAM_CHUNK_BYTES
    requires |fed| + |Concat(chunks)| <= MAX_TAR_STREAM_BYTES
    ensures Outcome(AfterChunks(Live(count, fed), chunks), sha) == Verdict(fed + Concat(chunks), sha)
    decreases |chunks|
  {
    if chunks == [] {
      assert fed + Concat(chunks) == fed;
    } else {
      var c, rest := chunks[0], Concat(chunks[1..]);
      assert fed + Concat(chunks) == (fed + c) + rest;
      match RunBlocks(Start(), fed + c)
      case Stop(s) =>
        RunBlocksSplit(Start(), fed + c, rest);
        DoneStays(Failure(s), chunks[1..]);
      case Continue(_) =>
        ChunksAreVerdict(count + 1, fed + c, chunks[1..], sha);
    }
  }

  /** Within the limits the result is a function of the concatenated bytes alone. */
  lemma ResultIgnoresChunking(chunks: seq<seq<byte>>, other: seq<seq<byte>>, sha: seq<byte> -> Sha256)
    requires ChunksWithinLimits(chunks) && ChunksWithinLimits(other)
    requires Concat(chunks) == Concat(other)
    ensures Outcome(AfterChunks(Live(0, []), chunks), sha) == Outcome(AfterChunks(Live(0, []), other), sha)
         == Verdict(Concat(chunks), sha)
  {
    ChunksAreVerdict(0, [], chunks, sha);
    ChunksAreVerdict(0, [], other, sha);
    assert [] + Concat(chunks) == Concat(chunks);
  }

  // ---------- the consumer ----------

  class FrameConsumer {
    const sha: seq<byte> -> Sha256
    var buffer: seq<byte>
    var chunkCount: nat
    var finished: bool
    var hashed: seq<byte>  // what the running SHA-256 has absorbed
    var headerCount: nat
    var payloadBytes: nat
    var paddingRemaining: int
    var sizeRemaining: nat
    var result: Option<FrameResult>
    var streamSize: nat
    var zeroBlocks: nat
    ghost var fed: seq<byte>

    ghost function State(): (f: Frame)
      reads this
    {
      Frame(headerCount, payloadBytes, sizeRemaining, paddingRemaining, zeroBlocks)
    }

    ghost function Progress(): (p: Progress)
      reads this
    {
      if result.Some? then Done(result.value) else Live(chunkCount, fed)
    }

    ghost predicate Valid()
      reads this
    {
      && (result.Some? ==> result.value.Constructible())
      && (result.None? ==>
            && !finished
            && streamSize == |fed| && hashed == fed
            && |fed| <= MAX_TAR_STREAM_BYTES
            && RunBlocks(Start(), fed) == Continue(State())
            && buffer == Tail(fed))
    }

    constructor (sha: seq<byte> -> Sha256)
      ensures Valid() && Progress() == Live(0, []) && this.sha == sha
    {
      this.sha := sha;
      buffer, hashed, fed := [], [], [];
      chunkCount, headerCount, payloadBytes, streamSize := 0, 0, 0, 0;
      paddingRemaining, sizeRemaining, zeroBlocks := 0, 0, 0;
      finished, result := false, None;
    }

    method Fail(status: FrameStatus) returns (r: FrameResult)
      requires status != FrameStatus.Valid
      modifies this`buffer, this`result
      ensures r == Failure(status) && result == Some(r)
    {
      buffer := [];
      r := Failure(status);
      result := Some(r);
    }

    method AcceptBlock(block: Block) returns (ok: bool)
      modifies this`buffer, this`result, this`headerCount, this`payloadBytes, this`paddingRemaining,
               this`sizeRemaining, this`zeroBlocks
      ensures ok == StepBlock(old(State()), block).Continue?
      ensures ok ==>
                StepBlock(old(State()), block) == Continue(State()) && buffer == old(buffer) && result == old(result)
      ensures !ok ==> result == Some(Failure(StepBlock(old(State()), block).status))
      ensures !ok ==> StepBlock(old(State()), block).status != FrameStatus.Valid
    {
      hide ChecksumIsValid;
      if paddingRemaining != 0 {
        var payload := if sizeRemaining < TAR_BLOCK_BYTES then sizeRemaining else TAR_BLOCK_BYTES;
        if payload < TAR_BLOCK_BYTES && block[payload..] != Zeros(TAR_BLOCK_BYTES - payload) {
          var _ := Fail(Invalid);
          return false;
        }
        assert block[payload..] == Zeros(TAR_BLOCK_BYTES - payload);
        sizeRemaining := sizeRemaining - payload;
        paddingRemaining := paddingRemaining - TAR_BLOCK_BYTES;
        return true;
      }
      if block == Zeros(TAR_BLOCK_BYTES) {
        zeroBlocks := zeroBlocks + 1;
        return true;
      }
      if zeroBlocks > 0 || !ChecksumIsValid(block) {
        var _ := Fail(Invalid);
        return false;
      }
      var parsed := ParseOctal(block[124..136]);
      if parsed.None? {
        var _ := Fail(Invalid);
        return false;
      }
      var size := parsed.value;
      headerCount := headerCount + 1;
      if headerCount > MAX_TAR_HEADER_COUNT || size > MAX_SINGLE_MEMBER_BYTES
         || payloadBytes + size > MAX_TOTAL_UNCOMPRESSED_BYTES {
        var _ := Fail(LimitExceeded);
        return false;
      }
      payloadBytes := payloadBytes + size;
      sizeRemaining := size;
      paddingRemaining := Padded(size);
      return true;
    }

    /** Consume every complete block of the buffer. */
    method DrainBuffer() returns (ok: bool)
      requires result.None?
      modifies this`buffer, this`result, this`headerCount, this`payloadBytes, this`paddingRemaining,
               this`sizeRemaining, this`zeroBlocks
      ensures ok == RunBlocks(old(State()), old(buffer)).Continue?
      ensures ok ==>
                RunBlocks(old(State()), old(buffer)) == Continue(State()) && buffer == Tail(old(buffer)) && result.None?
      ensures !ok ==> var s := RunBlocks(old(State()), old(buffer)).status;
                      s != FrameStatus.Valid && result == Some(Failure(s))
    {
      ghost var whole := buffer;
      ghost var verdict := RunBlocks(State(), buffer);
      while |buffer| >= TAR_BLOCK_BYTES
        invariant result.None?
        invariant verdict == RunBlocks(State(), buffer)
        invariant Tail(buffer) == Tail(whole)
        decreases |buffer|
      {
        var block := buffer[..TAR_BLOCK_BYTES];
        assert Tail(buffer[TAR_BLOCK_BYTES..]) == Tail(buffer);
        buffer := buffer[TAR_BLOCK_BYTES..];
        var accepted := AcceptBlock(block);
        if !accepted {
          return false;
        }
      }
      assert Tail(buffer) == buffer;
      return true;
    }

    /** Take one chunk; false once the stream is refused or finished. */
    method Feed(chunk: seq<byte>) returns (ok: bool)
      requires Valid()
      modifies this
      ensures Valid()
      ensures old(result.Some?) ==> !ok && result == old(result)
      ensures Progress() == AfterChunk(old(Progress()), chunk)
      ensures ok == Progress().Live?
    {
      hide RunBlocks, StepBlock, Tail;
      if finished || result.Some? {
        return false;
      }
      chunkCount := chunkCount + 1;
      if chunkCount > MAX_TAR_STREAM_CHUNKS || |chunk| > MAX_TAR_STREAM_CHUNK_BYTES
         || streamSize + |chunk| > MAX_TAR_STREAM_BYTES {
        var _ := Fail(LimitExceeded);
        return false;
      }
      RunBlocksSplit(Start(), fed, chunk);
      TailAppend(fed, chunk);
      streamSize := streamSize + |chunk|;
      hashed := hashed + chunk;
      buffer := buffer + chunk;
      fed := fed + chunk;
      ok := DrainBuffer();
    }

    /** Close the stream. */
    method Finish() returns (r: FrameResult)
      requires Valid()
      modifies this
      ensures Valid()
      ensures r == Outcome(old(Progress()), sha) && Progress() == Done(r)
      ensures r.Constructible()
    {
      if result.Some? {
        return result.value;
      }
      finished := true;
      if buffer != [] || paddingRemaining != 0 || sizeRemaining > 0 || zeroBlocks < 2 {
        r := Fail(Invalid);
        return;
      }
      ValidIsConstructible(fed);
      r := FrameResult(FrameStatus.Valid, streamSize, Some(sha(hashed)), headerCount);
      result := Some(r);
    }
  }

  /** Feed chunks until one is refused, then finish; an iterable that raises instead ends INVALID. */
  method ValidateStream(chunks: seq<seq<byte>>, raises: bool, sha: seq<byte> -> Sha256) returns (r: FrameResult)
    ensures var p := AfterChunks(Live(0, []), chunks);
            r == if raises && p.Live? then Failure(Invalid) else Outcome(p, sha)
  {
    var consumer := new FrameConsumer(sha);
    var i := 0;
    while i < |chunks|
      invariant 0 <= i <= |chunks|
      invariant consumer.Valid() && fresh(consumer) && consumer.sha == sha
      invariant consumer.Progress().Live?
      invariant AfterChunks(Live(0, []), chunks) == AfterChunks(consumer.Progress(), chunks[i..])
    {
      var ok := consumer.Feed(chunks[i]);
      assert chunks[i..][0] == chunks[i] && chunks[i..][1..] == chunks[i + 1..];
      if !ok {
        DoneStays(consumer.Progress().result, chunks[i + 1..]);
        r := consumer.Finish();
        return;
      }
      i := i + 1;
    }
    if raises {
      return Failure(Invalid);
    }
    r := consumer.Finish();
  }

  // ---------- result bounds ----------

  lemma {:induction false} ZeroBlocksNeedBytes(f: Frame, bytes: seq<byte>)
    requires f.headerCount <= MAX_TAR_HEADER_COUNT
    requires RunBlocks(f, bytes).Continue?
    ensures var g := RunBlocks(f, bytes).frame;
            |bytes| >= TAR_BLOCK_BYTES * (g.zeroBlocks - f.zeroBlocks) && g.headerCount <= MAX_TAR_HEADER_COUNT
    decreases |bytes|
  {
    if |bytes| >= TAR_BLOCK_BYTES {
      var g := StepBlock(f, bytes[..TAR_BLOCK_BYTES]).frame;
      ZeroBlocksNeedBytes(g, bytes[TAR_BLOCK_BYTES..]);
    }
  }

  /** A stream that ends complete satisfies the size and header bounds the result constructor checks. */
  lemma ValidIsConstructible(bytes: seq<byte>)
    requires |bytes| <= MAX_TAR_STREAM_BYTES && |bytes| % TAR_BLOCK_BYTES == 0
    requires RunBlocks(Start(), bytes).Continue? && AtEnd(RunBlocks(Start(), bytes).frame)
    ensures 1_024 <= |bytes|
    ensures RunBlocks(Start(), bytes).frame.headerCount <= MAX_TAR_HEADER_COUNT
  {
    ZeroBlocksNeedBytes(Start(), bytes);
  }
}
