/**
Runs of the two-process pipe that succeed: any framed stream, and any other output, within the limits can be
delivered.
*/
module DuplexRun {
  import opened Prelude
  import P = ProcessPump
  import D = Duplex
  import T = TarFrame
  import G = TarGrammar
  import W = WrapperRun

  const CLEAN := P.Shared([], false)

  // ---------- one state leads to another ----------

  /** Actions that leave the thread of the parsed output alone. */
  predicate Aside(actions: seq<D.Action>) {
    forall i :: 0 <= i < |actions| ==> !(actions[i].ThreadStep? && actions[i].who == D.ConsumerStdout)
  }

  ghost predicate Leads(limits: D.Limits, sha: seq<byte> -> Sha256, s: D.State, q: D.State) {
    exists actions :: Aside(actions) && W.Run(limits, sha, s, actions) == Some(q)
  }

  lemma LeadsNowhere(limits: D.Limits, sha: seq<byte> -> Sha256, s: D.State)
    ensures Leads(limits, sha, s, s)
  {
    assert W.Run(limits, sha, s, []) == Some(s);
  }

  lemma LeadsNext(limits: D.Limits, sha: seq<byte> -> Sha256, s: D.State, q: D.State, a: D.Action) returns (r: D.State)
    requires Leads(limits, sha, s, q) && W.Step(limits, sha, q, a).Some?
    requires !(a.ThreadStep? && a.who == D.ConsumerStdout)
    ensures W.Step(limits, sha, q, a) == Some(r) && Leads(limits, sha, s, r)
  {
    hide W.Run, W.Step;
    var actions :| Aside(actions) && W.Run(limits, sha, s, actions) == Some(q);
    W.RunSnoc(limits, sha, s, actions, a);
    r := W.Step(limits, sha, q, a).value;
    assert Aside(actions + [a]) && W.Run(limits, sha, s, actions + [a]) == Some(r);
  }

  /** A thread that fails nothing makes a step. */
  lemma ThreadGoes(limits: D.Limits, sha: seq<byte> -> Sha256, s: D.State, q: D.State, who: D.Who, t: D.Thread,
                   a: D.ThreadAction, next: D.Thread) returns (r: D.State)
    requires Leads(limits, sha, s, q) && who != D.ConsumerStdout && q.shared == CLEAN && D.ThreadOf(q, who) == t
    requires D.StepThread(D.LimitOf(limits, who), t, CLEAN, a) == Some((next, CLEAN))
    requires W.FrameAnswers(q, D.ThreadStep(who, a), sha)
    ensures r == D.WithThread(q, who, next, CLEAN) && Leads(limits, sha, s, r)
  {
    hide Leads, D.StepThread, W.FrameAnswers;
    r := LeadsNext(limits, sha, s, q, D.ThreadStep(who, a));
  }

  // ---------- streams ----------

  /** A thread between two chunks, and one that is through. */
  function Between(isPump: bool, done: seq<seq<byte>>): (t: D.Thread) {
    D.Thread(isPump, D.Head, |Concat(done)|, done, done, done, if isPump then Concat(done) else [], false, false)
  }

  function AtTheEnd(isPump: bool, done: seq<seq<byte>>): (t: D.Thread) {
    Between(isPump, done).(pc := D.Exited, eof := true, finalized := isPump)
  }

  lemma SideReadsOne(limits: D.Limits, sha: seq<byte> -> Sha256, s: D.State, q: D.State, who: D.Who,
                     done: seq<seq<byte>>,
                     c: P.Chunk) returns (r: D.State)
    requires Leads(limits, sha, s, q) && (who == D.ProducerStderr || who == D.ConsumerStderr) && q.shared == CLEAN
    requires D.ThreadOf(q, who) == Between(false, done) && c != [] && |Concat(done + [c])| <= D.LimitOf(limits, who)
    ensures r == D.WithThread(q, who, Between(false, done + [c]), CLEAN) && Leads(limits, sha, s, r)
  {
    hide Leads, Concat;
    ConcatSnoc(done, c);
    var t0 := Between(false, done);
    var t1 := t0.(pc := D.Reading);
    var t2 := t1.(pc := D.Counting(c), read := done + [c]);
    var t3 := t2.(pc := D.Consuming(c), count := |Concat(done + [c])|, offered := done + [c]);
    r := ThreadGoes(limits, sha, s, q, who, t0, D.Look, t1);
    r := ThreadGoes(limits, sha, s, r, who, t1, D.ReadChunk(c), t2);
    r := ThreadGoes(limits, sha, s, r, who, t2, D.Count, t3);
    r := ThreadGoes(limits, sha, s, r, who, t3, D.Consumed(true), Between(false, done + [c]));
  }

  lemma {:induction false} SideDelivers(limits: D.Limits, sha: seq<byte> -> Sha256, s: D.State, q: D.State, who: D.Who,
                                        done: seq<P.Chunk>, more: seq<P.Chunk>) returns (r: D.State)
    requires Leads(limits, sha, s, q) && (who == D.ProducerStderr || who == D.ConsumerStderr) && q.shared == CLEAN
    requires D.ThreadOf(q, who) == Between(false, done) && P.Readable(done + more, D.LimitOf(limits, who))
    ensures r == D.WithThread(q, who, AtTheEnd(false, done + more), CLEAN) && Leads(limits, sha, s, r)
    decreases |more|
  {
    hide Leads, Concat;
    if more == [] {
      assert done + more == done;
      var t0 := Between(false, done);
      r := ThreadGoes(limits, sha, s, q, who, t0, D.Look, t0.(pc := D.Reading));
      r := ThreadGoes(limits, sha, s, r, who, t0.(pc := D.Reading), D.ReadEnd, AtTheEnd(false, done));
    } else {
      var c := more[0];
      assert more == [c] + more[1..] && (done + more)[|done|] == c;
      P.PartFits(done, c, more[1..]);
      r := SideReadsOne(limits, sha, s, q, who, done, c);
      r := SideDelivers(limits, sha, s, r, who, done + [c], more[1..]);
    }
  }

  // ---------- the framed stream ----------

  /** A consumer that is live after all chunks was live after each. */
  lemma {:induction false} PrefixIsLive(p: T.Progress, done: seq<seq<byte>>, more: seq<seq<byte>>)
    requires T.AfterChunks(p, done + more).Live?
    ensures T.AfterChunks(p, done).Live?
    decreases |done|
  {
    hide T.AfterChunk;
    if done == [] {
      if p.Done? {
        T.DoneStays(p.result, done + more);
      }
    } else {
      assert (done + more)[0] == done[0] && (done + more)[1..] == done[1..] + more;
      PrefixIsLive(T.AfterChunk(p, done[0]), done[1..], more);
    }
  }

  lemma PumpPassesOne(limits: D.Limits, sha: seq<byte> -> Sha256, s: D.State, q: D.State,
                      done: seq<seq<byte>>, c: P.Chunk)
    returns (r: D.State)
    requires Leads(limits, sha, s, q) && q.shared == CLEAN && q.pump == Between(true, done)
    requires c != [] && |Concat(done + [c])| <= limits.stream && W.Fed(done + [c]).Live?
    ensures r == q.(pump := Between(true, done + [c])) && Leads(limits, sha, s, r)
  {
    hide Leads, Concat, W.Fed;
    ConcatSnoc(done, c);
    var t0 := Between(true, done);
    var t1 := t0.(pc := D.Reading);
    var t2 := t1.(pc := D.Counting(c), read := done + [c]);
    var t3 := t2.(pc := D.Consuming(c), count := |Concat(done + [c])|, offered := done + [c]);
    var t4 := t3.(pc := D.Writing(c), accepted := done + [c]);
    r := ThreadGoes(limits, sha, s, q, D.Pump, t0, D.Look, t1);
    r := ThreadGoes(limits, sha, s, r, D.Pump, t1, D.ReadChunk(c), t2);
    r := ThreadGoes(limits, sha, s, r, D.Pump, t2, D.Count, t3);
    r := ThreadGoes(limits, sha, s, r, D.Pump, t3, D.Consumed(true), t4);
    r := ThreadGoes(limits, sha, s, r, D.Pump, t4, D.Wrote, Between(true, done + [c]));
  }

  lemma PumpEnds(limits: D.Limits, sha: seq<byte> -> Sha256, s: D.State, q: D.State, done: seq<seq<byte>>)
    returns (r: D.State)
    requires Leads(limits, sha, s, q) && q.shared == CLEAN && q.pump == Between(true, done)
    requires T.Outcome(W.Fed(done), sha).status == T.FrameStatus.Valid
    ensures r == q.(pump := AtTheEnd(true, done)) && Leads(limits, sha, s, r)
  {
    hide Leads, Concat, W.Fed, T.Outcome;
    var t0 := Between(true, done);
    var t1 := t0.(pc := D.Reading);
    var t2 := t1.(pc := D.Finalizing, eof := true);
    var t3 := t2.(pc := D.Closing, finalized := true);
    r := ThreadGoes(limits, sha, s, q, D.Pump, t0, D.Look, t1);
    r := ThreadGoes(limits, sha, s, r, D.Pump, t1, D.ReadEnd, t2);
    r := ThreadGoes(limits, sha, s, r, D.Pump, t2, D.Finalized(true), t3);
    r := ThreadGoes(limits, sha, s, r, D.Pump, t3, D.CloseInput(true), AtTheEnd(true, done));
  }

  lemma {:induction false} PumpDelivers(limits: D.Limits, sha: seq<byte> -> Sha256, s: D.State, q: D.State,
                                        done: seq<P.Chunk>, more: seq<P.Chunk>) returns (r: D.State)
    requires Leads(limits, sha, s, q) && q.shared == CLEAN && q.pump == Between(true, done)
    requires P.Readable(done + more, limits.stream) && T.Outcome(W.Fed(done + more), sha).status == T.FrameStatus.Valid
    ensures r == q.(pump := AtTheEnd(true, done + more)) && Leads(limits, sha, s, r)
    decreases |more|
  {
    hide Leads, Concat, T.AfterChunks, T.Outcome;
    if more == [] {
      assert done + more == done;
      r := PumpEnds(limits, sha, s, q, done);
    } else {
      var c := more[0];
      assert more == [c] + more[1..] && (done + more)[|done|] == c;
      P.PartFits(done, c, more[1..]);
      ValidIsLive(done + more, sha);
      PrefixIsLive(T.Live(0, []), done + [c], more[1..]);
      r := PumpPassesOne(limits, sha, s, q, done, c);
      r := PumpDelivers(limits, sha, s, r, done + [c], more[1..]);
    }
  }

  lemma ValidIsLive(chunks: seq<seq<byte>>, sha: seq<byte> -> Sha256)
    requires T.Outcome(W.Fed(chunks), sha).status == T.FrameStatus.Valid
    ensures W.Fed(chunks).Live?
  {
    W.FedIsOk(chunks);
  }

  // ---------- the supervising loop ----------

  lemma LoopEnds(limits: D.Limits, sha: seq<byte> -> Sha256, s: D.State, q: D.State) returns (r: D.State)
    requires Leads(limits, sha, s, q) && q.phase == D.Looping && q.shared == CLEAN && D.AllExited(q)
    requires q.producerExit == q.consumerExit == None && q.status == None && !q.terminationFailed
    ensures r == q.(phase := D.Joining, producerExit := Some(0), consumerExit := Some(0)) && Leads(limits, sha, s, r)
  {
    hide Leads, D.StepThread;
    r := LeadsNext(limits, sha, s, q, D.Main(D.Loop));
    r := LeadsNext(limits, sha, s, r, D.Main(D.Ask(P.NotCancelled)));
    r := LeadsNext(limits, sha, s, r, D.Main(D.Clock(false)));
    r := LeadsNext(limits, sha, s, r, D.Main(D.WaitProducer(Some(0))));
    r := LeadsNext(limits, sha, s, r, D.Main(D.WaitConsumer(Some(0))));
    r := LeadsNext(limits, sha, s, r, D.Main(D.Loop));
    r := LeadsNext(limits, sha, s, r, D.Main(D.WaitBoth(None, None)));
  }

  lemma LoopReports(limits: D.Limits, sha: seq<byte> -> Sha256, s: D.State, q: D.State) returns (r: D.State)
    requires Leads(limits, sha, s, q) && q.phase == D.Joining && q.shared == CLEAN && D.AllExited(q)
    requires q.producerExit == q.consumerExit == Some(0) && q.status == None && !q.terminationFailed
    ensures Leads(limits, sha, s, r)
    ensures r
         == q.(phase := D.Returned(D.DuplexResult(P.Succeeded, Some(0), Some(0), q.pump.count, q.producerStderr.count,
                                                       q.consumerStdout.count, q.consumerStderr.count)))
  {
    hide Leads, D.StepThread;
    r := LeadsNext(limits, sha, s, q, D.Main(D.Join(false)));
    r := LeadsNext(limits, sha, s, r, D.Main(D.Decide));
    r := LeadsNext(limits, sha, s, r, D.Main(D.Report));
  }

  // ---------- success ----------

  /** What the four streams hold: within the limits, and a framed stream in chunks the frame consumer takes. */
  ghost predicate Deliverable(limits: D.Limits, stream: seq<P.Chunk>, producerErr: seq<P.Chunk>, out: seq<P.Chunk>,
                              consumerErr: seq<P.Chunk>) {
    && P.Readable(stream, limits.stream) && T.ChunksWithinLimits(stream)
    && (exists es, k :: G.Framed(Concat(stream), es, k))
    && P.Readable(producerErr, limits.producerStderr) && P.Readable(out, limits.consumerStdout)
    && P.Readable(consumerErr, limits.consumerStderr)
  }

  lemma FramedOutcome(stream: seq<seq<byte>>, sha: seq<byte> -> Sha256)
    requires T.ChunksWithinLimits(stream) && exists es, k :: G.Framed(Concat(stream), es, k)
    ensures T.Outcome(W.Fed(stream), sha).status == T.FrameStatus.Valid
  {
    hide G.Framed, T.Verdict, T.AfterChunks, T.Outcome;
    G.ValidIffFramed(Concat(stream), sha);
    T.ResultIgnoresChunking(stream, stream, sha);
  }

  /** With the parsed output through, everything else can be delivered and the pipe returns SUCCEEDED. */
  lemma OthersDeliver(limits: D.Limits, sha: seq<byte> -> Sha256, stream: seq<P.Chunk>, producerErr: seq<P.Chunk>,
                      out: seq<P.Chunk>, consumerErr: seq<P.Chunk>) returns (r: D.State)
    requires Deliverable(limits, stream, producerErr, out, consumerErr)
    ensures Leads(limits, sha, D.Start().(consumerStdout := AtTheEnd(false, out)), r)
    ensures r.pump == AtTheEnd(true, stream) && r.producerStderr == AtTheEnd(false, producerErr)
    ensures r.consumerStdout == AtTheEnd(false, out) && r.consumerStderr == AtTheEnd(false, consumerErr)
    ensures r.phase == D.Returned(D.DuplexResult(P.Succeeded, Some(0), Some(0), |Concat(stream)|, |Concat(producerErr)|,
                                                 |Concat(out)|, |Concat(consumerErr)|))
  {
    hide Leads, P.Readable, T.ChunksWithinLimits, G.Framed, T.Outcome;
    FramedOutcome(stream, sha);
    var s := D.Start().(consumerStdout := AtTheEnd(false, out));
    LeadsNowhere(limits, sha, s);
    assert [] + stream == stream && [] + producerErr == producerErr && [] + consumerErr == consumerErr;
    r := PumpDelivers(limits, sha, s, s, [], stream);
    r := SideDelivers(limits, sha, s, r, D.ProducerStderr, [], producerErr);
    r := SideDelivers(limits, sha, s, r, D.ConsumerStderr, [], consumerErr);
    r := LoopEnds(limits, sha, s, r);
    r := LoopReports(limits, sha, s, r);
  }

  lemma {:induction false} RunAppend(limits: D.Limits, sha: seq<byte> -> Sha256, s: D.State, first: seq<D.Action>,
                                     second: seq<D.Action>)
    requires W.Run(limits, sha, s, first).Some?
    ensures W.Run(limits, sha, s, first + second) == W.Run(limits, sha, W.Run(limits, sha, s, first).value, second)
    decreases |first|
  {
    hide W.Step;
    if first == [] {
      assert first + second == second;
    } else {
      assert (first + second)[0] == first[0] && (first + second)[1..] == first[1..] + second;
      RunAppend(limits, sha, W.Step(limits, sha, s, first[0]).value, first[1..], second);
    }
  }

  lemma LeadsReach(limits: D.Limits, sha: seq<byte> -> Sha256, s: D.State, q: D.State)
    requires W.Reachable(limits, sha, s) && Leads(limits, sha, s, q)
    ensures W.Reachable(limits, sha, q)
  {
    hide W.Run;
    var first :| W.Run(limits, sha, D.Start(), first) == Some(s);
    var second :| Aside(second) && W.Run(limits, sha, s, second) == Some(q);
    RunAppend(limits, sha, D.Start(), first, second);
  }

  /** A pipe where only the thread of the parsed output has moved. */
  function Moved(t: D.Thread): (w: D.State) { D.Start().(consumerStdout := t) }

  lemma OutputGoes(limits: D.Limits, sha: seq<byte> -> Sha256, t: D.Thread, a: D.ThreadAction, next: D.Thread)
    requires W.Reachable(limits, sha, Moved(t))
    requires D.StepThread(limits.consumerStdout, t, CLEAN, a) == Some((next, CLEAN))
    ensures W.Reachable(limits, sha, Moved(next))
  {
    hide W.Reachable, D.StepThread;
    var q := W.ReachNext(limits, sha, Moved(t), D.ThreadStep(D.ConsumerStdout, a));
  }

  lemma {:induction false} OutputDelivers(limits: D.Limits, sha: seq<byte> -> Sha256, done: seq<P.Chunk>,
                                          more: seq<P.Chunk>)
    requires W.Reachable(limits, sha, Moved(Between(false, done))) && P.Readable(done + more, limits.consumerStdout)
    ensures W.Reachable(limits, sha, Moved(AtTheEnd(false, done + more)))
    decreases |more|
  {
    hide W.Reachable, Concat, Moved;
    var t0 := Between(false, done);
    var t1 := t0.(pc := D.Reading);
    OutputGoes(limits, sha, t0, D.Look, t1);
    if more == [] {
      assert done + more == done;
      OutputGoes(limits, sha, t1, D.ReadEnd, AtTheEnd(false, done));
    } else {
      var c := more[0];
      assert more == [c] + more[1..] && (done + more)[|done|] == c;
      P.PartFits(done, c, more[1..]);
      var t2 := t1.(pc := D.Counting(c), read := done + [c]);
      var t3 := t2.(pc := D.Consuming(c), count := |Concat(done + [c])|, offered := done + [c]);
      OutputGoes(limits, sha, t1, D.ReadChunk(c), t2);
      OutputGoes(limits, sha, t2, D.Count, t3);
      OutputGoes(limits, sha, t3, D.Consumed(true), Between(false, done + [c]));
      OutputDelivers(limits, sha, done + [c], more[1..]);
    }
  }

  lemma StartIsMoved()
    ensures Moved(Between(false, [])) == D.Start()
  {
  }

  /** Any framed stream and any other output within the limits have a run that delivers all of it, writes the stream
      to the inner process and returns SUCCEEDED. */
  lemma SuccessIsPossible(limits: D.Limits, sha: seq<byte> -> Sha256, stream: seq<P.Chunk>, producerErr: seq<P.Chunk>,
                          out: seq<P.Chunk>, consumerErr: seq<P.Chunk>) returns (r: D.State)
    requires Deliverable(limits, stream, producerErr, out, consumerErr)
    ensures W.Reachable(limits, sha, r)
    ensures r.pump.accepted == stream && r.pump.written == Concat(stream) && r.consumerStdout.accepted == out
    ensures r.producerStderr.accepted == producerErr && r.consumerStderr.accepted == consumerErr
    ensures r.phase == D.Returned(D.DuplexResult(P.Succeeded, Some(0), Some(0), |Concat(stream)|, |Concat(producerErr)|,
                                                 |Concat(out)|, |Concat(consumerErr)|))
  {
    hide W.Reachable, Leads, Concat, Moved, T.ChunksWithinLimits, G.Framed;
    W.ReachStart(limits, sha);
    StartIsMoved();
    assert [] + out == out;
    OutputDelivers(limits, sha, [], out);
    r := OthersDeliver(limits, sha, stream, producerErr, out, consumerErr);
    MovedIs(AtTheEnd(false, out));
    LeadsReach(limits, sha, Moved(AtTheEnd(false, out)), r);
  }

  lemma MovedIs(t: D.Thread)
    ensures Moved(t) == D.Start().(consumerStdout := t)
  {
  }
}
