/**
The two-process pipe with the TAR frame consumer in it: runs of the duplex pump in which the stream consumer and the
finalizer answer as the frame consumer does. What a completed run reports is about exactly the bytes it wrote.
*/
module WrapperRun {
  import opened Prelude
  import P = ProcessPump
  import D = Duplex
  import T = TarFrame
  import G = TarGrammar
  import L = Lifecycle

  /** The frame consumer after these chunks. */
  function Fed(chunks: seq<seq<byte>>): (p: T.Progress) { T.AfterChunks(T.Live(0, []), chunks) }

  function FrameResultOf(s: D.State, sha: seq<byte> -> Sha256): (r: T.FrameResult) {
    T.Outcome(Fed(s.pump.offered), sha)
  }

  /** The consumer's and the finalizer's answers are the frame consumer's `feed` and `finish`. */
  predicate FrameAnswers(s: D.State, a: D.Action, sha: seq<byte> -> Sha256) {
    match a
    case ThreadStep(Pump, Consumed(ok)) => ok == Fed(s.pump.offered).Live?
    case ThreadStep(Pump, Finalized(ok)) => ok == (FrameResultOf(s, sha).status == T.FrameStatus.Valid)
    case _ => true
  }

  function Step(limits: D.Limits, sha: seq<byte> -> Sha256, s: D.State, a: D.Action): (r: Option<D.State>) {
    if FrameAnswers(s, a, sha) then D.Step(limits, s, a) else None
  }

  function Run(limits: D.Limits, sha: seq<byte> -> Sha256, s: D.State, actions: seq<D.Action>): (r: Option<D.State>)
    decreases |actions|
  {
    if actions == [] then Some(s)
    else match Step(limits, sha, s, actions[0])
         case None => None
         case Some(next) => Run(limits, sha, next, actions[1..])
  }

  ghost predicate Reachable(limits: D.Limits, sha: seq<byte> -> Sha256, s: D.State) {
    exists actions :: Run(limits, sha, D.Start(), actions) == Some(s)
  }

  lemma {:induction false} RunSnoc(limits: D.Limits, sha: seq<byte> -> Sha256, s: D.State,
                                      actions: seq<D.Action>, a: D.Action)
    requires Run(limits, sha, s, actions).Some?
    ensures Run(limits, sha, s, actions + [a]) == Step(limits, sha, Run(limits, sha, s, actions).value, a)
    decreases |actions|
  {
    hide Step;
    if actions == [] {
      assert [] + [a] == [a] && [a][1..] == [];
      var r := Step(limits, sha, s, a);
      if r.Some? { assert Run(limits, sha, r.value, []) == r; }
    } else {
      assert (actions + [a])[1..] == actions[1..] + [a];
      RunSnoc(limits, sha, Step(limits, sha, s, actions[0]).value, actions[1..], a);
    }
  }

  lemma ReachNext(limits: D.Limits, sha: seq<byte> -> Sha256, s: D.State, a: D.Action) returns (q: D.State)
    requires Reachable(limits, sha, s) && Step(limits, sha, s, a).Some?
    ensures Step(limits, sha, s, a) == Some(q) && Reachable(limits, sha, q)
  {
    hide Run, Step;
    var actions :| Run(limits, sha, D.Start(), actions) == Some(s);
    RunSnoc(limits, sha, D.Start(), actions, a);
    q := Step(limits, sha, s, a).value;
    assert Run(limits, sha, D.Start(), actions + [a]) == Some(q);
  }

  lemma ReachStart(limits: D.Limits, sha: seq<byte> -> Sha256)
    ensures Reachable(limits, sha, D.Start())
  {
    assert Run(limits, sha, D.Start(), []) == Some(D.Start());
  }

  /** The finalizer accepted the stream only when the frame consumer found it valid. */
  predicate FinalizedIsValid(s: D.State, sha: seq<byte> -> Sha256) {
    s.pump.finalized ==> s.pump.eof && FrameResultOf(s, sha).status == T.FrameStatus.Valid
  }

  /** A finalized stream was at its end before the step, and takes no more chunks. */
  lemma FinalizedStep(limit: nat, t: D.Thread, sh: D.Shared, a: D.ThreadAction)
    requires D.ThreadInv(limit, t) && D.StepThread(limit, t, sh, a).Some? && (t.finalized ==> t.eof)
    ensures var q := D.StepThread(limit, t, sh, a).value.0;
            q.finalized ==> q.eof && q.offered == t.offered && (t.finalized || a == D.Finalized(true))
  {
    hide Concat, D.CaughtUp;
  }

  lemma StepKeepsValid(limits: D.Limits, sha: seq<byte> -> Sha256, s: D.State, a: D.Action)
    requires D.Inv(limits, s) && FinalizedIsValid(s, sha) && Step(limits, sha, s, a).Some?
    ensures FinalizedIsValid(Step(limits, sha, s, a).value, sha)
  {
    hide D.Inv, D.StepMain, D.StepThread, D.PhaseInv, T.Outcome, Fed, D.ThreadInv, D.ThreadReason;
    PumpIsOk(limits, s);
    match a
    case Main(m) =>
      D.MainStepKeeps(s, m);
      assert D.ThreadOf(D.StepMain(s, m).value, D.Pump) == D.ThreadOf(s, D.Pump);
    case ThreadStep(who, ta) =>
      if who == D.Pump { FinalizedStep(limits.stream, s.pump, s.shared, ta); }
  }

  lemma StepKeeps(limits: D.Limits, sha: seq<byte> -> Sha256, s: D.State, a: D.Action)
    requires D.Inv(limits, s) && FinalizedIsValid(s, sha) && Step(limits, sha, s, a).Some?
    ensures D.Inv(limits, Step(limits, sha, s, a).value) && FinalizedIsValid(Step(limits, sha, s, a).value, sha)
  {
    hide D.Inv, D.Step, FinalizedIsValid;
    D.StepKeeps(limits, s, a);
    StepKeepsValid(limits, sha, s, a);
  }

  lemma PumpIsOk(limits: D.Limits, s: D.State)
    requires D.Inv(limits, s)
    ensures s.pump.isPump && D.ThreadInv(limits.stream, s.pump) && D.PhaseInv(s) && D.SharedInv(s.shared)
  {
    hide D.ThreadInv, D.ThreadReason, D.PhaseInv;
    assert D.ThreadOk(limits, s, D.Pump);
  }

  lemma {:induction false} RunKeeps(limits: D.Limits, sha: seq<byte> -> Sha256, s: D.State, actions: seq<D.Action>,
                                    end: D.State)
    requires D.Inv(limits, s) && FinalizedIsValid(s, sha) && Run(limits, sha, s, actions) == Some(end)
    ensures D.Inv(limits, end) && FinalizedIsValid(end, sha)
    ensures D.Run(limits, s, actions) == Some(end)
    decreases |actions|
  {
    hide D.Inv, D.Step, FinalizedIsValid;
    if actions != [] {
      StepKeeps(limits, sha, s, actions[0]);
      RunKeeps(limits, sha, Step(limits, sha, s, actions[0]).value, actions[1..], end);
    }
  }

  lemma ReachableKeeps(limits: D.Limits, sha: seq<byte> -> Sha256, s: D.State)
    requires Reachable(limits, sha, s)
    ensures D.Reachable(limits, s) && FinalizedIsValid(s, sha)
  {
    hide D.Run, Run;
    var actions :| Run(limits, sha, D.Start(), actions) == Some(s);
    RunKeeps(limits, sha, D.Start(), actions, s);
    assert D.Run(limits, D.Start(), actions) == Some(s);
  }

  lemma {:induction false} LiveIsFed(count: nat, fed: seq<byte>, chunks: seq<seq<byte>>)
    requires T.AfterChunks(T.Live(count, fed), chunks).Live?
    ensures T.AfterChunks(T.Live(count, fed), chunks).fed == fed + Concat(chunks)
    decreases |chunks|
  {
    hide T.RunBlocks;
    if chunks == [] {
      assert fed + Concat(chunks) == fed;
    } else {
      var next := T.AfterChunk(T.Live(count, fed), chunks[0]);
      if next.Done? {
        T.DoneStays(next.result, chunks[1..]);
        assert false;
      }
      LiveIsFed(count + 1, fed + chunks[0], chunks[1..]);
      assert fed + Concat(chunks) == fed + chunks[0] + Concat(chunks[1..]);
    }
  }

  /** A consumer between chunks: a recorded failure, or bytes within the limit that scan so far. */
  predicate ProgressOk(p: T.Progress) {
    match p
    case Done(r) => r.status != T.FrameStatus.Valid && r.Constructible()
    case Live(_, fed) => |fed| <= T.MAX_TAR_STREAM_BYTES && T.RunBlocks(T.Start(), fed).Continue?
  }

  lemma ChunkKeepsOk(p: T.Progress, chunk: seq<byte>)
    requires ProgressOk(p)
    ensures ProgressOk(T.AfterChunk(p, chunk))
  {
    hide T.RunBlocks;
    if p.Live? { G.StopIsNeverValid(T.Start(), p.fed + chunk); }
  }

  lemma {:induction false} ChunksKeepOk(p: T.Progress, chunks: seq<seq<byte>>)
    requires ProgressOk(p)
    ensures ProgressOk(T.AfterChunks(p, chunks))
    decreases |chunks|
  {
    hide ProgressOk, T.AfterChunk;
    if chunks != [] {
      ChunkKeepsOk(p, chunks[0]);
      ChunksKeepOk(T.AfterChunk(p, chunks[0]), chunks[1..]);
    }
  }

  lemma FedIsOk(chunks: seq<seq<byte>>)
    ensures ProgressOk(Fed(chunks))
  {
    ChunksKeepOk(T.Live(0, []), chunks);
  }

  /** Finishing never builds a result its constructor rejects. */
  lemma OutcomeIsConstructible(chunks: seq<seq<byte>>, sha: seq<byte> -> Sha256)
    ensures T.Outcome(Fed(chunks), sha).Constructible()
  {
    hide T.RunBlocks, Fed;
    FedIsOk(chunks);
    var p := Fed(chunks);
    if p.Live? && T.Verdict(p.fed, sha).status == T.FrameStatus.Valid {
      G.StopIsNeverValid(T.Start(), p.fed);
      T.ValidIsConstructible(p.fed);
    }
  }

  /** A valid frame result is about exactly the bytes fed, and they are a framed TAR stream. */
  lemma ValidIsAboutTheBytes(chunks: seq<seq<byte>>, sha: seq<byte> -> Sha256)
    requires T.Outcome(Fed(chunks), sha).status == T.FrameStatus.Valid
    ensures var bytes := Concat(chunks);
            && T.Outcome(Fed(chunks), sha) == T.Verdict(bytes, sha)
            && T.Outcome(Fed(chunks), sha).streamSize == |bytes|
            && T.Outcome(Fed(chunks), sha).digest == Some(sha(bytes))
            && exists es, k :: G.Framed(bytes, es, k)
  {
    hide T.RunBlocks, T.AfterChunks, G.Framed;
    FedIsOk(chunks);
    LiveIsFed(0, [], chunks);
    assert [] + Concat(chunks) == Concat(chunks);
    G.ValidIffFramed(Concat(chunks), sha);
  }

  /** When the pipe succeeds, what was written to the inner process is the producer's whole output, it is a framed TAR
      stream, and the frame result carries its size and digest. */
  lemma SucceededIsFramed(limits: D.Limits, sha: seq<byte> -> Sha256, s: D.State)
    requires Reachable(limits, sha, s) && s.phase.Returned? && s.phase.result.status == P.Succeeded
    ensures var r := FrameResultOf(s, sha);
            && s.pump.eof && s.pump.written == Concat(s.pump.accepted) == Concat(s.pump.read)
            && r.status == T.FrameStatus.Valid && r.streamSize == |s.pump.written|
            && r.digest == Some(sha(s.pump.written))
            && exists es, k :: G.Framed(s.pump.written, es, k)
  {
    hide Reachable, D.Reachable, Fed, T.Outcome, G.Framed, D.Inv;
    ReachableKeeps(limits, sha, s);
    D.SucceededMeansComplete(limits, s);
    ValidIsAboutTheBytes(s.pump.offered, sha);
  }

  /** In every state of a run, what was written begins what the frame consumer accepted. */
  lemma WrittenWasAccepted(limits: D.Limits, sha: seq<byte> -> Sha256, s: D.State)
    requires Reachable(limits, sha, s)
    ensures s.pump.written <= Concat(s.pump.accepted) && Concat(s.pump.accepted) <= Concat(s.pump.read)
  {
    hide Reachable, D.Reachable, D.Inv;
    ReachableKeeps(limits, sha, s);
    D.WrittenIsPrefixOfAccepted(limits, s, D.Pump);
  }

  function TerminalOf(s: D.State, sha: seq<byte> -> Sha256): (t: Option<T.FrameStatus>) {
    match Fed(s.pump.offered)
    case Done(r) => Some(r.status)
    case Live(_, _) =>
      if s.pump.eof && FrameResultOf(s, sha).status != T.FrameStatus.Valid
      then Some(FrameResultOf(s, sha).status) else None
  }

  /** On a stream in chunks within the limits the terminal status, when there is one, is the verdict on the bytes, and a
      stream that ended has one exactly when it is not valid. */
  lemma TerminalIsTheVerdict(s: D.State, sha: seq<byte> -> Sha256)
    requires T.ChunksWithinLimits(s.pump.offered)
    ensures var v := T.Verdict(Concat(s.pump.offered), sha).status;
            && (TerminalOf(s, sha).Some? ==> TerminalOf(s, sha).value == v != T.FrameStatus.Valid)
            && (s.pump.eof ==> (TerminalOf(s, sha).None? <==> v == T.FrameStatus.Valid))
  {
    hide T.RunBlocks, T.AfterChunks;
    FedIsOk(s.pump.offered);
    T.ResultIgnoresChunking(s.pump.offered, s.pump.offered, sha);
  }

  /** `run_wrapper_pipeline` over a pipe whose stream consumer is the frame consumer: COMPLETED reports the size and
      the digest of exactly the bytes written to the inner process, which are the producer's whole output and a framed
      TAR. */
  method RunWrapper(w: L.World, outer: L.CreateAnswers, inner: L.CreateAnswers, limits: D.Limits,
                    sha: seq<byte> -> Sha256, ghost s: D.State, process: L.Call<D.DuplexResult>, frame: L.FrameEnd,
                    outerName: string, innerName: string)
    returns (r: L.WrapperResult, ghost trace: L.Trace)
    requires Reachable(limits, sha, s)
    requires process.Answer? ==> s.phase == D.Returned(process.value)
    requires frame == L.FrameEnd(FrameResultOf(s, sha), TerminalOf(s, sha))
    ensures L.StartsAreGuarded(trace) && L.RemovalFollowsAbsence(trace)
    ensures r.Constructible()
    ensures r.status == L.Completed ==>
              && L.EndsClean(trace)
              && s.pump.eof && s.pump.written == Concat(s.pump.accepted) == Concat(s.pump.read)
              && r.streamSize == |s.pump.written| && r.streamSha == Some(sha(s.pump.written))
              && exists es, k :: G.Framed(s.pump.written, es, k)
  {
    hide Reachable, D.Reachable, Fed, T.Outcome, G.Framed, TerminalOf, L.StartsAreGuarded, L.RemovalFollowsAbsence,
         L.EndsClean, L.Kills, L.WrapperExpected;
    ReachableKeeps(limits, sha, s);
    if process.Answer? {
      D.SucceededMeansComplete(limits, s);
    }
    OutcomeIsConstructible(s.pump.offered, sha);
    r, trace := L.RunWrapperLocked(w, outer, inner, process, frame, outerName, innerName);
    if r.status == L.Completed {
      SucceededIsFramed(limits, sha, s);
    }
  }
}
