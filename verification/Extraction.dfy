/**
Validation of a private extraction workspace: the shape, then every file streamed under size limits, a clock that may
not go back or pass the deadline, and the listed checksums. Evidence exists exactly when everything holds.
*/
module Extraction {
  import opened Prelude
  import opened Text
  import opened Locators
  import opened Sorting
  import opened WorkspaceShape

  const MAX_STREAM_CHUNK_BYTES := 1_048_576
  const MAX_STREAM_CHUNK_COUNT := 2_048

  /** Library functions: case folding of segments, SHA-256, CRC-32 continued from a value, and its printed form. */
  datatype Env = Env(fold: SegmentFold, sha: seq<byte> -> Sha256, crc32: (seq<byte>, int) -> int,
                       crcText: int -> string)

  /** Continuing a CRC over two pieces is the CRC of both together. */
  ghost predicate CrcFolds(crc32: (seq<byte>, int) -> int) {
    && (forall a, b, c :: crc32(a + b, c) == crc32(b, crc32(a, c)))
    && (forall c :: crc32([], c) == c)
  }

  datatype Limits = Limits(start: real, deadline: real, memberCount: nat, singleMember: nat, totalUncompressed: nat,
                           workspace: nat)

  /** What streaming one observed member yields: chunks, then an end or an exception; and the identity check behind
      it. */
  datatype Stream = Stream(chunks: seq<seq<byte>>, raises: bool, isSame: bool)

  // ---------- the clock ----------

  /** The n-th reading of the clock; None when it raises or is not a finite number. */
  type Clock = nat -> Option<real>

  function LastReading(clock: Clock, start: real, k: nat): (t: real) {
    if k == 0 then start else if clock(k - 1).Some? then clock(k - 1).value else start
  }

  /** The first k readings are all there, never decrease from the start, and stay within the deadline. */
  predicate ClockOk(clock: Clock, limits: Limits, k: nat) {
    k == 0
    || (ClockOk(clock, limits, k - 1) && clock(k - 1).Some?
        && LastReading(clock, limits.start, k - 1) <= clock(k - 1).value <= limits.deadline)
  }

  /** Readings that are fine ascend from the start and stay within the deadline. */
  lemma {:induction false} ReadingsAscend(clock: Clock, limits: Limits, i: nat, j: nat, k: nat)
    requires i <= j < k && ClockOk(clock, limits, k)
    ensures clock(i).Some? && clock(j).Some?
    ensures limits.start <= clock(i).value <= clock(j).value <= limits.deadline
    decreases k
  {
    if j < k - 1 {
      ReadingsAscend(clock, limits, i, j, k - 1);
    } else if i < j {
      ReadingsAscend(clock, limits, i, j - 1, k - 1);
    } else if i > 0 {
      ReadingsAscend(clock, limits, i - 1, i - 1, k - 1);
    }
  }

  class DeadlineGuard {
    const clock: Clock
    const limits: Limits
    var last: real
    var readings: nat

    predicate Valid()
      reads this
    {
      ClockOk(clock, limits, readings) && last == LastReading(clock, limits.start, readings)
    }

    constructor (clock: Clock, limits: Limits)
      ensures Valid() && this.clock == clock && this.limits == limits && readings == 0
    {
      this.clock, this.limits, last, readings := clock, limits, limits.start, 0;
    }

    method Check() returns (ok: bool)
      requires Valid()
      modifies this
      ensures ok ==> Valid() && readings == old(readings) + 1
      ensures !ok ==> !ClockOk(clock, limits, old(readings) + 1)
    {
      var now := clock(readings);
      readings := readings + 1;
      if now.None? || now.value < last || now.value > limits.deadline {
        return false;
      }
      last := now.value;
      return true;
    }
  }

  lemma {:induction false} FewerReadings(clock: Clock, limits: Limits, k: nat, n: nat)
    requires k <= n && ClockOk(clock, limits, n)
    ensures ClockOk(clock, limits, k)
    decreases n
  {
    if k < n { FewerReadings(clock, limits, k, n - 1); }
  }

  // ---------- one stream ----------

  predicate SizeFits(limits: Limits, before: nat, size: nat) {
    size <= limits.singleMember && before + size <= limits.totalUncompressed && before + size <= limits.workspace
  }

  /** Chunks that may be streamed behind `before` bytes of other members: bounded, non-empty, and small enough in
      total. */
  predicate StreamOk(s: Stream, limits: Limits, before: nat) {
    && !s.raises && |s.chunks| <= MAX_STREAM_CHUNK_COUNT
    && (forall i :: 0 <= i < |s.chunks| ==> 0 < |s.chunks[i]| <= MAX_STREAM_CHUNK_BYTES)
    && (s.chunks != [] ==> SizeFits(limits, before, |Concat(s.chunks)|))
  }

  lemma ConcatTake(chunks: seq<seq<byte>>, k: nat)
    requires k < |chunks|
    ensures Concat(chunks[..k + 1]) == Concat(chunks[..k]) + chunks[k]
    ensures |Concat(chunks[..k + 1])| <= |Concat(chunks)|
  {
    assert chunks[..k + 1] == chunks[..k] + [chunks[k]];
    ConcatSnoc(chunks[..k], chunks[k]);
    assert chunks == chunks[..k + 1] + chunks[k + 1..];
    ConcatAppend(chunks[..k + 1], chunks[k + 1..]);
  }

  predicate ChunkOk(chunk: seq<byte>) { 0 < |chunk| <= MAX_STREAM_CHUNK_BYTES }

  lemma RefusedStream(s: Stream, limits: Limits, before: nat, i: nat)
    requires i < |s.chunks|
    requires !ChunkOk(s.chunks[i]) || i >= MAX_STREAM_CHUNK_COUNT
             || !SizeFits(limits, before, |Concat(s.chunks[..i + 1])|)
    ensures !StreamOk(s, limits, before)
  {
    hide Concat;
    ConcatTake(s.chunks, i);
  }

  lemma CrcContinues(crc32: (seq<byte>, int) -> int, a: seq<byte>, b: seq<byte>)
    requires CrcFolds(crc32)
    ensures crc32(a + b, 0) == crc32(b, crc32(a, 0))
  {
  }

  lemma CrcOfNothing(crc32: (seq<byte>, int) -> int)
    requires CrcFolds(crc32)
    ensures crc32([], 0) == 0
  {
  }

  /** The first i chunks are fine. */
  predicate StreamsSoFar(s: Stream, limits: Limits, before: nat, i: nat)
    requires i <= |s.chunks|
  {
    && i <= MAX_STREAM_CHUNK_COUNT && (forall j :: 0 <= j < i ==> ChunkOk(s.chunks[j]))
    && (i > 0 ==> SizeFits(limits, before, |Concat(s.chunks[..i])|))
  }

  lemma OneMoreChunk(s: Stream, limits: Limits, before: nat, i: nat)
    requires i < |s.chunks| && StreamsSoFar(s, limits, before, i) && ChunkOk(s.chunks[i]) && i < MAX_STREAM_CHUNK_COUNT
    requires SizeFits(limits, before, |Concat(s.chunks[..i + 1])|)
    ensures StreamsSoFar(s, limits, before, i + 1)
  {
    hide Concat;
  }

  lemma WholeStream(s: Stream, limits: Limits, before: nat)
    requires StreamsSoFar(s, limits, before, |s.chunks|)
    ensures StreamOk(s, limits, before) <==> !s.raises
  {
    hide Concat;
    assert s.chunks[..|s.chunks|] == s.chunks;
  }

  /** One turn of the streaming loop. */
  method TakeChunk(env: Env, guard: DeadlineGuard, s: Stream, before: nat, i: nat, size: nat, value: int)
    returns (ok: bool, newSize: nat, newValue: int)
    requires guard.Valid() && CrcFolds(env.crc32) && i < |s.chunks| && StreamsSoFar(s, guard.limits, before, i)
    requires size == |Concat(s.chunks[..i])| && value == env.crc32(Concat(s.chunks[..i]), 0)
    modifies guard
    ensures ok ==> guard.Valid() && guard.readings == old(guard.readings) + 1
                   && StreamsSoFar(s, guard.limits, before, i + 1)
                   && newSize == |Concat(s.chunks[..i + 1])| && newValue == env.crc32(Concat(s.chunks[..i + 1]), 0)
    ensures !ok ==> !StreamOk(s, guard.limits, before) || !ClockOk(guard.clock, guard.limits, old(guard.readings) + 1)
  {
    hide ClockOk, Concat, StreamOk, SizeFits, CrcFolds, LastReading, StreamsSoFar, ChunkOk;
    var chunk := s.chunks[i];
    newSize, newValue := size, value;
    ConcatTake(s.chunks, i);
    CrcContinues(env.crc32, Concat(s.chunks[..i]), chunk);
    ok := guard.Check();
    if !ok {
      return;
    }
    newSize := size + |chunk|;
    if !ChunkOk(chunk) || i + 1 > MAX_STREAM_CHUNK_COUNT || !SizeFits(guard.limits, before, newSize) {
      RefusedStream(s, guard.limits, before, i);
      return false, newSize, newValue;
    }
    OneMoreChunk(s, guard.limits, before, i);
    newValue := env.crc32(chunk, value);
  }

  /** `_stream_member`: the size, the digest and the CRC of exactly the bytes streamed. */
  method StreamMember(env: Env, guard: DeadlineGuard, s: Stream, before: nat)
    returns (ok: bool, size: nat, digest: Sha256, crc: string)
    requires guard.Valid() && CrcFolds(env.crc32)
    modifies guard
    ensures ok <==> StreamOk(s, guard.limits, before)
                    && ClockOk(guard.clock, guard.limits, old(guard.readings) + |s.chunks| + 1)
    ensures ok ==> guard.Valid() && guard.readings == old(guard.readings) + |s.chunks| + 1
    ensures ok ==> var bytes := Concat(s.chunks);
                   size == |bytes| && digest == env.sha(bytes) && crc == env.crcText(env.crc32(bytes, 0))
  {
    hide ClockOk, Concat, StreamOk, SizeFits, CrcFolds, LastReading, StreamsSoFar, ChunkOk, IsSha256;
    var hashed: seq<byte>, value := [], 0;
    size, digest, crc := 0, env.sha([]), "";
    ghost var first, all := guard.readings, guard.readings + |s.chunks| + 1;
    var i := 0;
    EmptyConcat(s.chunks);
    NoChunkYet(s, guard.limits, before);
    CrcOfNothing(env.crc32);
    while i < |s.chunks|
      invariant 0 <= i <= |s.chunks| && guard.Valid() && guard.readings == first + i
      invariant hashed == Concat(s.chunks[..i]) && size == |hashed| && value == env.crc32(hashed, 0)
      invariant StreamsSoFar(s, guard.limits, before, i)
    {
      ConcatTake(s.chunks, i);
      ok, size, value := TakeChunk(env, guard, s, before, i, size, value);
      if !ok {
        EarlyStop(guard.clock, guard.limits, first + i + 1, all);
        return;
      }
      hashed := hashed + s.chunks[i];
      i := i + 1;
    }
    assert s.chunks[..i] == s.chunks;
    WholeStream(s, guard.limits, before);
    if s.raises {
      return false, size, digest, crc;
    }
    ok := guard.Check();
    digest, crc := env.sha(hashed), env.crcText(value);
  }

  lemma EarlyStop(clock: Clock, limits: Limits, k: nat, n: nat)
    requires k <= n
    ensures !ClockOk(clock, limits, k) ==> !ClockOk(clock, limits, n)
  {
    hide ClockOk;
    if !ClockOk(clock, limits, k) { StopsEarly(clock, limits, k, n); }
  }

  lemma NoChunkYet(s: Stream, limits: Limits, before: nat)
    ensures StreamsSoFar(s, limits, before, 0)
  {
  }

  lemma EmptyConcat(chunks: seq<seq<byte>>)
    ensures Concat(chunks[..0]) == []
  {
    assert chunks[..0] == [];
  }

  lemma StopsEarly(clock: Clock, limits: Limits, k: nat, n: nat)
    requires k <= n && !ClockOk(clock, limits, k)
    ensures !ClockOk(clock, limits, n)
  {
    hide ClockOk;
    if ClockOk(clock, limits, n) { FewerReadings(clock, limits, k, n); }
  }

  // ---------- the whole workspace ----------

  datatype Evidence = Evidence(ordinal: nat, identity: Sha256, declared: nat, observed: nat, digest: Sha256,
                               crcMatched: bool) {
    predicate Constructible() { observed == declared }
  }

  type Streams = string -> Stream

  /** Everything asked of one file: its size, its stream, its identity and its listed checksum. */
  predicate FileOk(env: Env, m: Listed, o: Observed, s: Stream, limits: Limits, before: nat) {
    && o.size == m.size && SizeFits(limits, before, o.size)
    && StreamOk(s, limits, before) && |Concat(s.chunks)| == o.size && s.isSame
    && (m.crc.Some? ==> env.crcText(env.crc32(Concat(s.chunks), 0)) == m.crc.value)
  }

  function TotalSize(files: seq<Listed>): (n: nat) {
    if files == [] then 0 else TotalSize(files[..|files| - 1]) + files[|files| - 1].size
  }

  /** The first k files of a workspace whose observed files line up with the listed ones. */
  predicate FilesOk(env: Env, files: seq<Listed>, obs: seq<Observed>, streams: Streams, limits: Limits, k: nat)
    requires k <= |files| == |obs|
  {
    forall i :: 0 <= i < k ==>
      FileOk(env, files[i], obs[i], streams(obs[i].locator), limits, TotalSize(files[..i]))
  }

  lemma {:induction false} TotalGrows(files: seq<Listed>, i: nat)
    requires i < |files|
    ensures TotalSize(files[..i]) + files[i].size <= TotalSize(files)
    decreases |files|
  {
    var n := |files| - 1;
    if i < n {
      TotalGrows(files[..n], i);
      assert files[..n][..i] == files[..i];
    }
  }

  /** The checks with the running total let all files pass exactly when no file and not the total is too big. */
  lemma SizesFitIffTotals(files: seq<Listed>, limits: Limits)
    ensures (forall i :: 0 <= i < |files| ==> SizeFits(limits, TotalSize(files[..i]), files[i].size))
       <==> (forall i :: 0 <= i < |files| ==> files[i].size <= limits.singleMember)
            && (files != [] ==>
                  TotalSize(files) <= limits.totalUncompressed && TotalSize(files) <= limits.workspace)
  {
    forall i | 0 <= i < |files| ensures TotalSize(files[..i]) + files[i].size <= TotalSize(files) {
      TotalGrows(files, i);
    }
    if files != [] {
      var n := |files| - 1;
      assert TotalSize(files) == TotalSize(files[..n]) + files[n].size;
    }
  }

  /** How many clock readings the first k files take: one before each file, one per chunk, one behind the chunks. */
  function Readings(obs: seq<Observed>, streams: Streams, k: nat): (n: nat)
    requires k <= |obs|
  {
    if k == 0 then 1 else Readings(obs, streams, k - 1) + |streams(obs[k - 1].locator).chunks| + 2
  }

  function EvidenceOf(env: Env, m: Listed, s: Stream): (e: Evidence) {
    Evidence(m.ordinal, m.identity, m.size, m.size, env.sha(Concat(s.chunks)), m.crc.Some?)
  }

  /** The evidence says of the listed file, and of the bytes streamed for it, exactly this. */
  predicate Attests(env: Env, e: Evidence, m: Listed, s: Stream) {
    && e.ordinal == m.ordinal && e.identity == m.identity && e.declared == m.size && e.observed == m.size
    && e.digest == env.sha(Concat(s.chunks)) && (e.crcMatched <==> m.crc.Some?)
  }

  /** One piece of evidence per listed file, in order. */
  function EvidenceList(env: Env, files: seq<Listed>, streams: Streams): (es: seq<Evidence>)
    ensures |es| == |files| && forall i :: 0 <= i < |es| ==>
              es[i] == EvidenceOf(env, files[i], streams(files[i].locator))
  {
    seq(|files|, i requires 0 <= i < |files| => EvidenceOf(env, files[i], streams(files[i].locator)))
  }

  /** What evidence requires. */
  predicate WorkspaceOk(env: Env, ms: seq<Listed>, obs: seq<Observed>, streams: Streams, clock: Clock, limits: Limits) {
    var files, seen := ListedFiles(ms), ObservedFiles(obs);
    && ShapeOk(ms, obs, limits.memberCount, env.fold) && |files| == |seen|
    && FilesOk(env, files, seen, streams, limits, |files|)
    && ClockOk(clock, limits, Readings(seen, streams, |seen|) + 1)
  }

  lemma {:induction false} MoreReadings(obs: seq<Observed>, streams: Streams, k: nat, n: nat)
    requires k <= n <= |obs|
    ensures Readings(obs, streams, k) <= Readings(obs, streams, n)
    decreases n
  {
    if k < n { MoreReadings(obs, streams, k, n - 1); }
  }

  lemma AlignedFiles(ms: seq<Listed>, obs: seq<Observed>, i: nat)
    requires ObservedLocators(ObservedFiles(obs)) == ListedLocators(ListedFiles(ms)) && i < |ListedFiles(ms)|
    ensures i < |ObservedFiles(obs)| && ObservedFiles(obs)[i].locator == ListedFiles(ms)[i].locator
  {
    assert ListedLocators(ListedFiles(ms))[i] == ListedFiles(ms)[i].locator;
    assert |ObservedLocators(ObservedFiles(obs))| == |ObservedFiles(obs)|;
    assert ObservedLocators(ObservedFiles(obs))[i] == ObservedFiles(obs)[i].locator;
  }

  /** The turn of the loop for the i-th file. */
  method ValidateFile(env: Env, guard: DeadlineGuard, m: Listed, o: Observed, s: Stream, before: nat)
    returns (ok: bool, e: Evidence)
    requires guard.Valid() && CrcFolds(env.crc32)
    modifies guard
    ensures ok <==> FileOk(env, m, o, s, guard.limits, before)
                    && ClockOk(guard.clock, guard.limits, old(guard.readings) + |s.chunks| + 2)
    ensures ok ==> guard.Valid() && guard.readings == old(guard.readings) + |s.chunks| + 2
    ensures ok ==> e == EvidenceOf(env, m, s) && Attests(env, e, m, s) && e.observed == |Concat(s.chunks)|
  {
    hide ClockOk, Concat, StreamOk, SizeFits, CrcFolds, LastReading;
    e := EvidenceOf(env, m, s);
    ghost var first := guard.readings;
    ok := guard.Check();
    if !ok {
      StopsEarly(guard.clock, guard.limits, first + 1, first + |s.chunks| + 2);
      return;
    }
    if o.size != m.size || !SizeFits(guard.limits, before, o.size) {
      return false, e;
    }
    var size, digest, crc;
    ok, size, digest, crc := StreamMember(env, guard, s, before);
    if !ok {
      return;
    }
    if size != o.size || !s.isSame || (m.crc.Some? && crc != m.crc.value) {
      return false, e;
    }
    e := Evidence(m.ordinal, m.identity, m.size, size, digest, m.crc.Some?);
  }

  // ---------- the loop over the files ----------

  predicate FindsFiles(byLocator: map<string, Listed>, ms: seq<Listed>) {
    forall i :: 0 <= i < |ListedFiles(ms)| ==>
      ListedFiles(ms)[i].locator in byLocator && byLocator[ListedFiles(ms)[i].locator] == ListedFiles(ms)[i]
  }

  lemma FilesSnoc(ms: seq<Listed>, k: nat)
    requires k < |ms|
    ensures ListedFiles(ms[..k + 1]) == ListedFiles(ms[..k]) + (if ms[k].kind == RegularFile then [ms[k]] else [])
  {
    assert ms[..k + 1][..k] == ms[..k];
  }

  lemma ObservedFilesSnoc(obs: seq<Observed>, k: nat)
    requires k < |obs|
    ensures ObservedFiles(obs[..k + 1]) == ObservedFiles(obs[..k]) + (if obs[k].isDirectory then [] else [obs[k]])
  {
    assert obs[..k + 1][..k] == obs[..k];
  }

  lemma {:induction false} ObservedFilesOfPart(obs: seq<Observed>, k: nat)
    requires k <= |obs|
    ensures ObservedFiles(obs[..k]) <= ObservedFiles(obs)
    decreases |obs| - k
  {
    if k == |obs| {
      assert obs[..k] == obs;
    } else {
      ObservedFilesSnoc(obs, k);
      ObservedFilesOfPart(obs, k + 1);
    }
  }

  lemma LocatorsDiffer(ms: seq<Listed>, fold: string -> string, i: nat, j: nat)
    requires DistinctKeys(ListedLocators(ms), fold) && i < j < |ms|
    ensures ms[i].locator != ms[j].locator
  {
    hide Key;
    assert Key(ListedLocators(ms)[i], fold) != Key(ListedLocators(ms)[j], fold);
  }

  /** `by_locator`: the listed regular files under their locators. */
  method IndexFiles(ms: seq<Listed>, ghost fold: string -> string) returns (m: map<string, Listed>)
    requires DistinctKeys(ListedLocators(ms), fold)
    ensures FindsFiles(m, ms)
  {
    hide DistinctKeys;
    m := map[];
    var k := 0;
    assert ms[..0] == [];
    while k < |ms|
      invariant 0 <= k <= |ms| && FindsFiles(m, ms[..k])
    {
      FilesSnoc(ms, k);
      if ms[k].kind == RegularFile {
        forall i | 0 <= i < |ListedFiles(ms[..k])| ensures ListedFiles(ms[..k])[i].locator != ms[k].locator {
          var j := ListedFileIsMember(ms[..k], i);
          LocatorsDiffer(ms, fold, j, k);
        }
        m := m[ms[k].locator := ms[k]];
      }
      k := k + 1;
    }
    assert ms[..k] == ms;
  }

  lemma FilesOkSnoc(env: Env, files: seq<Listed>, obs: seq<Observed>, streams: Streams, limits: Limits, k: nat)
    requires k < |files| == |obs| && FilesOk(env, files, obs, streams, limits, k)
    ensures FilesOk(env, files, obs, streams, limits, k + 1)
       <==> FileOk(env, files[k], obs[k], streams(obs[k].locator), limits, TotalSize(files[..k]))
  {
    hide FileOk;
  }

  lemma FileFails(env: Env, files: seq<Listed>, obs: seq<Observed>, streams: Streams, limits: Limits, k: nat)
    requires k < |files| == |obs|
    requires !FileOk(env, files[k], obs[k], streams(obs[k].locator), limits, TotalSize(files[..k]))
    ensures !FilesOk(env, files, obs, streams, limits, |files|)
  {
    hide FileOk;
  }

  /** Where the loop stands after k files. */
  predicate LoopOk(env: Env, guard: DeadlineGuard, files: seq<Listed>, seen: seq<Observed>, streams: Streams, k: nat,
                   total: nat, evidence: seq<Evidence>)
    requires k <= |files| == |seen|
    reads guard
  {
    && guard.Valid() && guard.readings == Readings(seen, streams, k)
    && FilesOk(env, files, seen, streams, guard.limits, k)
    && total == TotalSize(files[..k]) && evidence == EvidenceList(env, files[..k], streams)
  }

  lemma NextTotal(files: seq<Listed>, k: nat)
    requires k < |files|
    ensures TotalSize(files[..k + 1]) == TotalSize(files[..k]) + files[k].size
  {
    assert files[..k + 1][..k] == files[..k];
  }

  lemma NextReadings(seen: seq<Observed>, streams: Streams, k: nat)
    requires k < |seen|
    ensures Readings(seen, streams, k + 1) == Readings(seen, streams, k) + |streams(seen[k].locator).chunks| + 2
  {
  }

  lemma NextEvidence(env: Env, files: seq<Listed>, streams: Streams, k: nat)
    requires k < |files|
    ensures EvidenceList(env, files[..k + 1], streams)
         == EvidenceList(env, files[..k], streams) + [EvidenceOf(env, files[k], streams(files[k].locator))]
  {
    hide EvidenceOf, IsSha256;
    var next, before := EvidenceList(env, files[..k + 1], streams), EvidenceList(env, files[..k], streams);
    forall i | 0 <= i < k ensures next[i] == before[i] {
      assert files[..k + 1][i] == files[..k][i];
    }
  }

  /** One file of the loop. */
  method NextFile(env: Env, guard: DeadlineGuard, ghost files: seq<Listed>, ghost seen: seq<Observed>, streams: Streams,
                  ghost k: nat, m: Listed, o: Observed, total: nat, evidence: seq<Evidence>)
    returns (ok: bool, newTotal: nat, newEvidence: seq<Evidence>)
    requires CrcFolds(env.crc32) && k < |files| == |seen| && files[k] == m && seen[k] == o && o.locator == m.locator
    requires LoopOk(env, guard, files, seen, streams, k, total, evidence)
    modifies guard
    ensures ok ==> LoopOk(env, guard, files, seen, streams, k + 1, newTotal, newEvidence)
    ensures !ok ==> !(FilesOk(env, files, seen, streams, guard.limits, |files|)
                      && ClockOk(guard.clock, guard.limits, Readings(seen, streams, |seen|) + 1))
  {
    hide FileOk, ClockOk, CrcFolds, EvidenceOf, IsSha256, LastReading, Concat, FilesOk, Readings, TotalSize;
    newTotal, newEvidence := total, evidence;
    NextTotal(files, k);
    NextReadings(seen, streams, k);
    NextEvidence(env, files, streams, k);
    FilesOkSnoc(env, files, seen, streams, guard.limits, k);
    MoreReadings(seen, streams, k + 1, |seen|);
    var e;
    ok, e := ValidateFile(env, guard, m, o, streams(o.locator), total);
    if !ok {
      if !ClockOk(guard.clock, guard.limits, Readings(seen, streams, k + 1)) {
        StopsEarly(guard.clock, guard.limits, Readings(seen, streams, k + 1), Readings(seen, streams, |seen|) + 1);
      } else {
        FileFails(env, files, seen, streams, guard.limits, k);
      }
      return;
    }
    newTotal := total + m.size;
    newEvidence := evidence + [e];
  }

  /** The loop over the snapshot of a workspace of the right shape. */
  method ValidateFiles(env: Env, guard: DeadlineGuard, ms: seq<Listed>, obs: seq<Observed>, streams: Streams)
    returns (ok: bool, evidence: seq<Evidence>)
    requires CrcFolds(env.crc32) && guard.Valid() && guard.readings == 1
    requires ShapeOk(ms, obs, guard.limits.memberCount, env.fold)
    modifies guard
    ensures var files, seen := ListedFiles(ms), ObservedFiles(obs);
            && |files| == |seen|
            && (ok <==> FilesOk(env, files, seen, streams, guard.limits, |files|)
                        && ClockOk(guard.clock, guard.limits, Readings(seen, streams, |seen|) + 1))
            && (ok ==> evidence == EvidenceList(env, files, streams))
  {
    hide FileOk, ClockOk, CrcFolds, EvidenceOf, IsSha256, LastReading, ShapeOk, ListedFiles, ObservedFiles, FilesOk,
         Readings, FindsFiles, TotalSize, LoopOk, EvidenceList;
    ghost var files, seen := ListedFiles(ms), ObservedFiles(obs);
    ShapeAligns(ms, obs, guard.limits.memberCount, env.fold);
    var byLocator := IndexFiles(ms, env.fold);
    evidence := [];
    var total, j := 0, 0;
    ghost var k := 0;
    LoopStarts(env, guard, files, seen, streams);
    assert obs[..0] == [];
    NoObservedFiles();
    while j < |obs|
      invariant 0 <= j <= |obs| && k <= |files| == |seen|
      invariant k == |ObservedFiles(obs[..j])| && LoopOk(env, guard, files, seen, streams, k, total, evidence)
    {
      ObservedFilesSnoc(obs, j);
      ObservedFilesOfPart(obs, j + 1);
      if !obs[j].isDirectory {
        assert seen[k] == obs[j];
        AlignedFiles(ms, obs, k);
        FoundFile(byLocator, ms, k);
        ok, total, evidence := NextFile(env, guard, files, seen, streams, k, byLocator[obs[j].locator],
                                         obs[j], total, evidence);
        if !ok {
          return;
        }
        k := k + 1;
      }
      j := j + 1;
    }
    assert obs[..j] == obs;
    LoopIsDone(env, guard, files, seen, streams, total, evidence);
    ok := guard.Check();
  }

  lemma LoopIsDone(env: Env, guard: DeadlineGuard, files: seq<Listed>, seen: seq<Observed>, streams: Streams,
                   total: nat, evidence: seq<Evidence>)
    requires |files| == |seen| && LoopOk(env, guard, files, seen, streams, |files|, total, evidence)
    ensures guard.Valid() && guard.readings == Readings(seen, streams, |seen|)
    ensures FilesOk(env, files, seen, streams, guard.limits, |files|) && evidence == EvidenceList(env, files, streams)
  {
    hide FilesOk, Readings, EvidenceOf, TotalSize;
    assert files[..|files|] == files;
  }

  lemma NoObservedFiles()
    ensures ObservedFiles([]) == []
  {
  }

  lemma LoopStarts(env: Env, guard: DeadlineGuard, files: seq<Listed>, seen: seq<Observed>, streams: Streams)
    requires guard.Valid() && guard.readings == 1 && |files| == |seen|
    ensures LoopOk(env, guard, files, seen, streams, 0, 0, [])
  {
    assert files[..0] == [];
    assert EvidenceList(env, [], streams) == [];
  }

  lemma FoundFile(byLocator: map<string, Listed>, ms: seq<Listed>, k: nat)
    requires FindsFiles(byLocator, ms) && k < |ListedFiles(ms)|
    ensures ListedFiles(ms)[k].locator in byLocator && byLocator[ListedFiles(ms)[k].locator] == ListedFiles(ms)[k]
  {
    hide ListedFiles;
  }

  lemma ShapeAligns(ms: seq<Listed>, obs: seq<Observed>, maxCount: nat, fold: string -> string)
    requires ShapeOk(ms, obs, maxCount, fold)
    ensures DistinctKeys(ListedLocators(ms), fold)
    ensures ObservedLocators(ObservedFiles(obs)) == ListedLocators(ListedFiles(ms))
    ensures |ListedFiles(ms)| == |ObservedFiles(obs)|
  {
    hide DistinctKeys, OneSpelling, ListedFiles, ObservedFiles, Directories;
    assert |ObservedLocators(ObservedFiles(obs))| == |ObservedFiles(obs)|;
    assert |ListedLocators(ListedFiles(ms))| == |ListedFiles(ms)|;
  }

  // ---------- the result ----------

  /** A sealed handoff numbers its members by position. */
  predicate Sealed(ms: seq<Listed>) { forall i :: 0 <= i < |ms| ==> ms[i].ordinal == i }

  lemma {:induction false} FilesAscend(ms: seq<Listed>)
    requires Sealed(ms)
    ensures forall i, j :: 0 <= i < j < |ListedFiles(ms)| ==> ListedFiles(ms)[i].ordinal < ListedFiles(ms)[j].ordinal
    ensures forall i :: 0 <= i < |ListedFiles(ms)| ==> ListedFiles(ms)[i].ordinal < |ms|
    decreases |ms|
  {
    if ms != [] { FilesAscend(ms[..|ms| - 1]); }
  }

  /** `_validate_private_extraction_workspace` on a sealed handoff: evidence exactly when everything holds, one piece
      per listed file, in order; `snapshot` is None when taking it raises. */
  method ValidateWorkspace(env: Env, ms: seq<Listed>, snapshot: Option<seq<Observed>>, streams: Streams, clock: Clock,
                           limits: Limits)
    returns (r: Option<seq<Evidence>>)
    requires CrcFolds(env.crc32) && Sealed(ms)
    ensures r.Some? <==> snapshot.Some? && WorkspaceOk(env, ms, snapshot.value, streams, clock, limits)
    ensures r.Some? ==> r.value == EvidenceList(env, ListedFiles(ms), streams)
    ensures r.Some? ==>
              var files := ListedFiles(ms);
              |r.value| == |files|
              && forall i :: 0 <= i < |files| ==> Attests(env, r.value[i], files[i], streams(files[i].locator))
  {
    hide ClockOk, CrcFolds, EvidenceOf, Attests, IsSha256, LastReading, ShapeOk, ListedFiles, ObservedFiles, FilesOk,
         Readings;
    var guard := new DeadlineGuard(clock, limits);
    var ok := guard.Check();
    if !ok {
      if snapshot.Some? {
        ReadingsAtLeastOne(ObservedFiles(snapshot.value), streams);
        StopsEarly(clock, limits, 1, Readings(ObservedFiles(snapshot.value), streams,
                                     |ObservedFiles(snapshot.value)|) + 1);
      }
      return None;
    }
    if snapshot.None? {
      return None;
    }
    ok := ValidateShape(ms, snapshot.value, limits.memberCount, env.fold);
    if !ok {
      return None;
    }
    var evidence;
    ok, evidence := ValidateFiles(env, guard, ms, snapshot.value, streams);
    if !ok {
      return None;
    }
    EvidenceIsSorted(env, ms, streams);
    EvidenceIsOnePerFile(env, ms, streams);
    return Some(SortBy(evidence, OrdinalOf));
  }

  lemma ReadingsAtLeastOne(obs: seq<Observed>, streams: Streams)
    ensures Readings(obs, streams, |obs|) >= 1
  {
    MoreReadings(obs, streams, 0, |obs|);
  }

  function OrdinalOf(e: Evidence): (n: int) { e.ordinal }

  lemma EvidenceIsSorted(env: Env, ms: seq<Listed>, streams: Streams)
    requires Sealed(ms)
    ensures var es := EvidenceList(env, ListedFiles(ms), streams); SortBy(es, OrdinalOf) == es
  {
    hide ListedFiles, Concat, IsSha256;
    FilesAscend(ms);
    SortedStays(EvidenceList(env, ListedFiles(ms), streams), OrdinalOf);
  }

  /** Evidence has one piece per regular file of the handoff, in ascending ordinal order, each of which its constructor
      takes and which attests the file's identity and size and the digest of the bytes streamed for it. */
  lemma EvidenceIsOnePerFile(env: Env, ms: seq<Listed>, streams: Streams)
    requires Sealed(ms)
    ensures var es, files := EvidenceList(env, ListedFiles(ms), streams), ListedFiles(ms);
            && |es| == |files|
            && (forall i :: 0 <= i < |es| ==>
                  es[i].Constructible() && Attests(env, es[i], files[i], streams(files[i].locator)))
            && (forall i, j :: 0 <= i < j < |es| ==> es[i].ordinal < es[j].ordinal)
  {
    hide ListedFiles, Concat, IsSha256;
    FilesAscend(ms);
  }

  // ---------- no file above a member ----------

  lemma FoldedSegments(locator: string, fold: SegmentFold)
    requires forall i :: 0 <= i < |Split(locator, '/')| ==> Split(locator, '/')[i] != ""
    ensures Split(Key(locator, fold), '/') == MapSegments(Split(locator, '/'), fold)
  {
    var parts := Split(locator, '/');
    var folded := MapSegments(parts, fold);
    forall i | 0 <= i < |folded| ensures '/' !in folded[i] { assert IsSegment(parts[i]); }
    SplitJoin(folded, '/');
  }

  lemma ParentKey(locator: string, fold: SegmentFold, j: nat)
    requires j < |ParentsOf(locator)|
    ensures Key(ParentsOf(locator)[j], fold) == Join(MapSegments(Split(locator, '/'), fold)[..j + 1], '/')
  {
    var parts := Split(locator, '/');
    SplitJoin(parts[..j + 1], '/');
    assert MapSegments(parts[..j + 1], fold) == MapSegments(parts, fold)[..j + 1];
  }

  lemma AncestorKey(locator: string, fold: SegmentFold, a: string) returns (j: nat)
    requires forall i :: 0 <= i < |Split(locator, '/')| ==> Split(locator, '/')[i] != ""
    requires IsAncestor(a, Key(locator, fold))
    ensures j < |ParentsOf(locator)| && Key(ParentsOf(locator)[j], fold) == a
  {
    hide Key, IsAncestor, Join, Split;
    FoldedSegments(locator, fold);
    AncestorsAreLeadingSegments(a, Key(locator, fold));
    var folded := MapSegments(Split(locator, '/'), fold);
    var i :| 1 <= i < |folded| && Join(folded[..i], '/') == a;
    j := i - 1;
    ParentKey(locator, fold, j);
  }

  /** In a workspace of the right shape no listed file is an ancestor of another member: the ancestor would have to be
      an observed directory and an observed file under one key. */
  lemma NoFileIsAnAncestor(ms: seq<Listed>, obs: seq<Observed>, maxCount: nat, fold: SegmentFold, f: nat, m: nat)
    requires ShapeOk(ms, obs, maxCount, fold) && f < |ms| && m < |ms| && ms[f].kind == RegularFile
    requires forall i :: 0 <= i < |Split(ms[m].locator, '/')| ==> Split(ms[m].locator, '/')[i] != ""
    ensures !IsAncestor(Key(ms[f].locator, fold), Key(ms[m].locator, fold))
  {
    hide Key, ParentsOf, ObservedFiles, ListedFiles, OneSpelling;
    if IsAncestor(Key(ms[f].locator, fold), Key(ms[m].locator, fold)) {
      var j := AncestorKey(ms[m].locator, fold, Key(ms[f].locator, fold));
      var p := ParentsOf(ms[m].locator)[j];
      assert p in Ancestors(ms);
      assert p in ObservedDirectories(obs);
      var d :| 0 <= d < |obs| && obs[d].isDirectory && obs[d].locator == p;
      var i := ListedFileIsThere(ms, f);
      assert ListedLocators(ListedFiles(ms))[i] == ms[f].locator;
      assert ObservedLocators(ObservedFiles(obs))[i] == ms[f].locator;
      var o := ObservedFileIsMember(obs, i);
      SameKeySameMember(obs, fold, d, o);
    }
  }

  lemma {:induction false} ListedFileIsThere(ms: seq<Listed>, j: nat) returns (i: nat)
    requires j < |ms| && ms[j].kind == RegularFile
    ensures i < |ListedFiles(ms)| && ListedFiles(ms)[i] == ms[j]
    decreases |ms|
  {
    var front := ms[..|ms| - 1];
    if j < |front| {
      i := ListedFileIsThere(front, j);
    } else {
      i := |ListedFiles(front)|;
    }
  }

  lemma SameKeySameMember(obs: seq<Observed>, fold: string -> string, a: nat, b: nat)
    requires a < |obs| && b < |obs| && DistinctKeys(ObservedLocators(obs), fold)
    requires Key(obs[a].locator, fold) == Key(obs[b].locator, fold)
    ensures a == b
  {
    hide Key;
    assert ObservedLocators(obs)[a] == obs[a].locator && ObservedLocators(obs)[b] == obs[b].locator;
  }
}
