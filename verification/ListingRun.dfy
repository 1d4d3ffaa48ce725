/**
A listing that succeeds: whatever the tool prints within its limits, if it parses, some run of the whole ends LISTED,
with one process or with a framed stream between two.
*/
module ListingRun {
  import opened Prelude
  import opened SltMachine
  import opened SltDriver
  import opened SltResults
  import opened Handoff
  import S = SltFields
  import P = ProcessPump
  import D = Duplex
  import W = WrapperRun
  import R = DuplexRun
  import T = TarFrame
  import G = TarGrammar
  import L = Lifecycle

  lemma {:induction false} RunSnoc(setup: Setup, s: State, actions: seq<Action>, a: Action)
    requires Run(setup, s, actions).Some?
    ensures Run(setup, s, actions + [a]) == Step(setup, Run(setup, s, actions).value, a)
    decreases |actions|
  {
    hide Step;
    if actions == [] {
      assert (actions + [a])[1..] == [];
    } else {
      assert (actions + [a])[1..] == actions[1..] + [a];
      RunSnoc(setup, Step(setup, s, actions[0]).value, actions[1..], a);
    }
  }

  lemma ReachNext(setup: Setup, s: State, a: Action) returns (q: State)
    requires Reachable(setup, s) && Step(setup, s, a).Some?
    ensures Step(setup, s, a) == Some(q) && Reachable(setup, q)
  {
    hide Step, Run;
    var wrapped, actions :| Run(setup, Start(setup, wrapped), actions) == Some(s);
    RunSnoc(setup, Start(setup, wrapped), actions, a);
    q := Step(setup, s, a).value;
    assert Run(setup, Start(setup, wrapped), actions + [a]) == Some(q);
  }

  lemma ReachStart(setup: Setup, wrapped: bool)
    ensures Reachable(setup, Start(setup, wrapped))
  {
    hide Step;
    assert Run(setup, Start(setup, wrapped), []) == Some(Start(setup, wrapped));
  }

  /** A step of the process pump that neither begins nor ends a consumer call is a step of the whole. */
  lemma PumpGoes(setup: Setup, s: State, a: P.Action) returns (q: State)
    requires Reachable(setup, s) && s.phase == Running && s.job.Plain? && P.Step(setup.plain, s.job.p, a).Some?
    requires !s.job.p.out.pc.Consuming? && !P.Step(setup.plain, s.job.p, a).value.out.pc.Consuming?
    ensures Reachable(setup, q) && q == s.(job := Plain(P.Step(setup.plain, s.job.p, a).value))
  {
    hide Reachable, P.Step;
    NothingAnswered(setup.plain, s.job.p, a);
    q := ReachNext(setup, s, JobActs(PlainStep(a)));
  }

  lemma NothingAnswered(limits: P.Limits, p: P.State, a: P.Action)
    requires P.Step(limits, p, a).Some? && !p.out.pc.Consuming?
    ensures Answered(PlainStep(a)) == None
  {
  }

  /** A pump where only the output reader has moved, with nothing failed. */
  function Moved(r: P.Reader): (job: Job) { Plain(P.Start().(out := r)) }

  /** The runner between two chunks of the parsed output, and inside its consumer with one. */
  function Ahead(wrapped: bool, done: seq<seq<byte>>): (job: Job) {
    if wrapped then Wrapped(R.Moved(R.Between(false, done))) else Moved(P.Between(done))
  }

  function InCall(wrapped: bool, done: seq<seq<byte>>, c: P.Chunk): (job: Job) {
    var all, n := done + [c], |Concat(done + [c])|;
    if wrapped then Wrapped(R.Moved(D.Thread(false, D.Consuming(c), n, all, all, done, [], false, false)))
    else Moved(P.Reader(P.Consuming(c), n, all, all, done, false))
  }

  function OutputLimit(setup: Setup, wrapped: bool): (n: nat) {
    if wrapped then setup.wrapped.consumerStdout else setup.plain.stdout
  }

  predicate Ready(setup: Setup, s: State, wrapped: bool, done: seq<seq<byte>>) {
    && setup.supported && s.phase == Running && s.job == Ahead(wrapped, done)
    && s.put == Idle && s.slot == None && !s.done && !s.sawEnd && s.parsed == None
    && s.worker.Parsing? && s.worker.drive.Driving?
    && s.worker.drive == DriveChunks(setup.env, LockedForm, StartDrive(LockedForm, setup.table), done)
    && s.got == done
  }

  lemma Begins(setup: Setup, wrapped: bool) returns (s: State)
    requires setup.supported
    ensures Reachable(setup, s) && Ready(setup, s, wrapped, [])
  {
    hide Reachable;
    ReachStart(setup, wrapped);
    s := ReachNext(setup, Start(setup, wrapped), Activate);
  }

  lemma ReaderGoes(setup: Setup, s: State, r: P.Reader, a: P.ReaderAction, next: P.Reader) returns (q: State)
    requires Reachable(setup, s) && s.phase == Running && s.job == Moved(r)
    requires P.StepReader(setup.plain.stdout, r, P.Shared([], false), a) == Some((next, P.Shared([], false)))
    requires !r.pc.Consuming? && !next.pc.Consuming?
    ensures Reachable(setup, q) && q == s.(job := Moved(next))
  {
    hide Reachable, P.StepReader;
    q := PumpGoes(setup, s, P.OutReader(a));
  }

  lemma CallBegins(setup: Setup, s: State, r: P.Reader, c: P.Chunk) returns (q: State)
    requires Reachable(setup, s) && s.phase == Running && s.job == Moved(r) && r.pc == P.Rechecking(c)
    ensures Reachable(setup, q)
    ensures q == s.(put := Looking(c), job := Moved(r.(pc := P.Consuming(c), offered := r.offered + [c])))
  {
    hide Reachable;
    q := ReachNext(setup, s, JobActs(PlainStep(P.OutReader(P.Recheck))));
  }

  /** The thread of the parsed output makes a step outside its consumer. */
  lemma OutputGoes(setup: Setup, s: State, t: D.Thread, a: D.ThreadAction, next: D.Thread) returns (q: State)
    requires Reachable(setup, s) && s.phase == Running && s.job == Wrapped(R.Moved(t))
    requires D.StepThread(setup.wrapped.consumerStdout, t, R.CLEAN, a) == Some((next, R.CLEAN))
    requires !a.Consumed? && !next.pc.Consuming?
    ensures Reachable(setup, q) && q == s.(job := Wrapped(R.Moved(next)))
  {
    hide Reachable, D.StepThread;
    q := ReachNext(setup, s, JobActs(WrappedStep(D.ThreadStep(D.ConsumerStdout, a))));
  }

  lemma Counts(limit: nat, t: D.Thread, c: P.Chunk)
    requires t.pc == D.Counting(c) && t.count + |c| <= limit
    ensures D.StepThread(limit, t, R.CLEAN, D.Count)
         == Some((t.(pc := D.Consuming(c), count := t.count + |c|, offered := t.offered + [c]), R.CLEAN))
  {
  }

  lemma OutputCall(setup: Setup, s: State, t: D.Thread, c: P.Chunk) returns (q: State)
    requires Reachable(setup, s) && s.phase == Running && s.job == Wrapped(R.Moved(t)) && t.pc == D.Counting(c)
    requires t.count + |c| <= setup.wrapped.consumerStdout
    ensures Reachable(setup, q)
    ensures q == s.(put := Looking(c), job := Wrapped(R.Moved(
                      t.(pc := D.Consuming(c), count := t.count + |c|, offered := t.offered + [c]))))
  {
    hide Reachable, D.StepThread;
    Counts(setup.wrapped.consumerStdout, t, c);
    q := ReachNext(setup, s, JobActs(WrappedStep(D.ThreadStep(D.ConsumerStdout, D.Count))));
  }

  /** The reader gets a chunk as far as its consumer. */
  lemma ReadsOne(setup: Setup, s: State, wrapped: bool, done: seq<seq<byte>>, c: P.Chunk) returns (q: State)
    requires Reachable(setup, s) && s.phase == Running && s.job == Ahead(wrapped, done)
    requires c != [] && |Concat(done + [c])| <= OutputLimit(setup, wrapped)
    ensures Reachable(setup, q) && q == s.(put := Looking(c), job := InCall(wrapped, done, c))
  {
    hide Reachable, Concat, Moved, R.Moved;
    ConcatSnoc(done, c);
    if wrapped {
      var t0 := R.Between(false, done);
      var t1 := t0.(pc := D.Reading);
      var t2 := t1.(pc := D.Counting(c), read := done + [c]);
      q := OutputGoes(setup, s, t0, D.Look, t1);
      q := OutputGoes(setup, q, t1, D.ReadChunk(c), t2);
      q := OutputCall(setup, q, t2, c);
    } else {
      var r0 := P.Between(done);
      var r1 := r0.(pc := P.Reading);
      var r2 := r1.(pc := P.Counting(c), read := done + [c]);
      var r3 := r2.(pc := P.Rechecking(c), count := |Concat(done + [c])|);
      q := ReaderGoes(setup, s, r0, P.Look, r1);
      q := ReaderGoes(setup, q, r1, P.ReadChunk(c), r2);
      q := ReaderGoes(setup, q, r2, P.Count, r3);
      q := CallBegins(setup, q, r3, c);
    }
  }

  lemma ReaderAnswers(setup: Setup, s: State, r: P.Reader, c: P.Chunk) returns (q: State)
    requires Reachable(setup, s) && s.phase == Running && s.job == Moved(r) && r.pc == P.Consuming(c)
             && s.put == Answering(true)
    ensures Reachable(setup, q) && q == s.(put := Idle, job := Moved(r.(pc := P.Head, accepted := r.accepted + [c])))
  {
    hide Reachable;
    q := ReachNext(setup, s, JobActs(PlainStep(P.OutReader(P.Consumed(true)))));
  }

  lemma Accepts(limit: nat, t: D.Thread, c: P.Chunk)
    requires t.pc == D.Consuming(c) && !t.isPump
    ensures D.StepThread(limit, t, R.CLEAN, D.Consumed(true))
         == Some((t.(pc := D.Head, accepted := t.accepted + [c]), R.CLEAN))
  {
  }

  lemma OutputAnswers(setup: Setup, s: State, t: D.Thread, c: P.Chunk) returns (q: State)
    requires Reachable(setup, s) && s.phase == Running && s.job == Wrapped(R.Moved(t)) && s.put == Answering(true)
    requires t.pc == D.Consuming(c) && !t.isPump
    ensures Reachable(setup, q)
    ensures q == s.(put := Idle, job := Wrapped(R.Moved(t.(pc := D.Head, accepted := t.accepted + [c]))))
  {
    hide Reachable, D.StepThread;
    Accepts(setup.wrapped.consumerStdout, t, c);
    q := ReachNext(setup, s, JobActs(WrappedStep(D.ThreadStep(D.ConsumerStdout, D.Consumed(true)))));
  }

  lemma CallAnswers(setup: Setup, s: State, wrapped: bool, done: seq<seq<byte>>, c: P.Chunk) returns (q: State)
    requires Reachable(setup, s) && s.phase == Running && s.job == InCall(wrapped, done, c) && s.put == Answering(true)
    ensures Reachable(setup, q) && q == s.(put := Idle, job := Ahead(wrapped, done + [c]))
  {
    hide Reachable, Concat, Moved, R.Moved;
    var all, n := done + [c], |Concat(done + [c])|;
    if wrapped {
      q := OutputAnswers(setup, s, D.Thread(false, D.Consuming(c), n, all, all, done, [], false, false), c);
    } else {
      q := ReaderAnswers(setup, s, P.Reader(P.Consuming(c), n, all, all, done, false), c);
    }
  }

  /** The chunk goes through the queue to the worker, and the reader is told so. */
  lemma HandsOne(setup: Setup, s: State, wrapped: bool, done: seq<seq<byte>>, c: P.Chunk) returns (q: State)
    requires Reachable(setup, s) && Ready(setup, s, wrapped, done)
    requires c != [] && |Concat(done + [c])| <= OutputLimit(setup, wrapped)
    requires DriveChunks(setup.env, LockedForm, StartDrive(LockedForm, setup.table), done + [c]).Driving?
    ensures Reachable(setup, q) && Ready(setup, q, wrapped, done + [c])
  {
    hide Reachable, DriveChunks, DriveChunk, Concat, InCall, Ahead, OutputLimit, JobStep;
    var start := StartDrive(LockedForm, setup.table);
    DriveSnoc(setup.env, LockedForm, start, done, c);
    q := ReadsOne(setup, s, wrapped, done, c);
    q := ReachNext(setup, q, PutLook);
    q := ReachNext(setup, q, PutTry);
    q := ReachNext(setup, q, Take);
    q := CallAnswers(setup, q, wrapped, done, c);
  }

  lemma PrefixDrives(env: Env, start: Drive, done: seq<seq<byte>>, more: seq<seq<byte>>)
    requires DriveChunks(env, LockedForm, start, done + more).Driving?
    ensures DriveChunks(env, LockedForm, start, done).Driving?
    decreases |done|
  {
    hide DriveChunk;
    if done != [] {
      assert (done + more)[0] == done[0] && (done + more)[1..] == done[1..] + more;
      PrefixDrives(env, DriveChunk(env, LockedForm, start, done[0]), done[1..], more);
    } else if start.Halted? {
      HaltedStays(env, LockedForm, start.status, done + more);
    }
  }

  lemma {:induction false} HandsAll(setup: Setup, s: State, wrapped: bool, done: seq<P.Chunk>, more: seq<P.Chunk>)
    returns (q: State)
    requires Reachable(setup, s) && Ready(setup, s, wrapped, done)
    requires P.Readable(done + more, OutputLimit(setup, wrapped))
    requires DriveChunks(setup.env, LockedForm, StartDrive(LockedForm, setup.table), done + more).Driving?
    ensures Reachable(setup, q) && Ready(setup, q, wrapped, done + more)
    decreases |more|
  {
    hide Reachable, Ready, DriveChunks, Concat, OutputLimit;
    if more == [] {
      assert done + more == done;
      q := s;
    } else {
      var c := more[0];
      assert more == [c] + more[1..] && (done + more)[|done|] == c;
      P.PartFits(done, c, more[1..]);
      PrefixDrives(setup.env, StartDrive(LockedForm, setup.table), done + [c], more[1..]);
      q := HandsOne(setup, s, wrapped, done, c);
      q := HandsAll(setup, q, wrapped, done + [c], more[1..]);
    }
  }

  lemma StreamsEnd(setup: Setup, s: State, chunks: seq<seq<byte>>) returns (q: State)
    requires Reachable(setup, s) && Ready(setup, s, false, chunks)
    ensures Reachable(setup, q)
    ensures q
         == s.(job := Plain(P.Start().(out := P.AtTheEnd(chunks),
                                       err := P.StartReader().(pc := P.Exited, eof := true))))
  {
    hide Reachable, DriveChunks, Concat;
    q := PumpGoes(setup, s, P.OutReader(P.Look));
    q := PumpGoes(setup, q, P.OutReader(P.ReadEnd));
    q := PumpGoes(setup, q, P.ErrReader(P.Look));
    q := PumpGoes(setup, q, P.ErrReader(P.ReadEnd));
  }

  /** A pump whose streams ended well, with the loop about to look again. */
  lemma LoopEnds(setup: Setup, s: State, p: P.State) returns (q: State)
    requires Reachable(setup, s) && s.phase == Running && s.job == Plain(p) && P.AllExited(p) && !p.shared.event
    requires p.phase == P.Looping && p.exitCode == None
    ensures Reachable(setup, q) && q == s.(job := Plain(p.(phase := P.Joining, exitCode := Some(0))))
  {
    hide Reachable, P.StepReader;
    q := PumpGoes(setup, s, P.Main(P.Loop));
    q := PumpGoes(setup, q, P.Main(P.Ask(P.NotCancelled, true)));
    q := PumpGoes(setup, q, P.Main(P.Clock(false, true)));
    q := PumpGoes(setup, q, P.Main(P.Wait(Some(0))));
    q := PumpGoes(setup, q, P.Main(P.Loop));
  }

  lemma PumpReports(setup: Setup, s: State, p: P.State) returns (q: State)
    requires Reachable(setup, s) && s.phase == Running && s.job == Plain(p) && P.AllExited(p) && p.shared.failures == []
    requires p.phase == P.Joining && p.exitCode == Some(0) && p.status == None && !p.terminationFailed
    ensures Reachable(setup, q)
    ensures q
         == s.(job := Plain(p.(phase := P.Returned(P.ProcessResult(P.Succeeded, Some(0), p.out.count, p.err.count)))))
  {
    hide Reachable, P.StepReader;
    q := PumpGoes(setup, s, P.Main(P.Join(false, true)));
    q := PumpGoes(setup, q, P.Main(P.Decide));
    q := PumpGoes(setup, q, P.Main(P.Report));
  }

  /** The pump reaches the end of its streams and returns SUCCEEDED. */
  lemma PumpFinishes(setup: Setup, s: State, chunks: seq<seq<byte>>) returns (q: State)
    requires Reachable(setup, s) && Ready(setup, s, false, chunks)
    ensures Reachable(setup, q) && q == s.(job := q.job) && q.job.Plain? && Succeeded(q.job)
            && q.job.p.out.read == chunks
  {
    hide Reachable, DriveChunks, Concat;
    q := StreamsEnd(setup, s, chunks);
    q := LoopEnds(setup, q, q.job.p);
    q := PumpReports(setup, q, q.job.p);
  }

  /** What the other threads and the loop of the pipe do goes on while the queue rests. */
  lemma {:induction false} PipeGoes(setup: Setup, s: State, w: D.State, actions: seq<D.Action>) returns (q: State)
    requires Reachable(setup, s) && s.phase == Running && s.job == Wrapped(w) && !w.consumerStdout.pc.Consuming?
    requires R.Aside(actions) && W.Run(setup.wrapped, setup.sha, w, actions).Some?
    ensures Reachable(setup, q) && q == s.(job := Wrapped(W.Run(setup.wrapped, setup.sha, w, actions).value))
    decreases |actions|
  {
    hide Reachable, W.Step;
    if actions == [] {
      q := s;
    } else {
      var next := W.Step(setup.wrapped, setup.sha, w, actions[0]).value;
      AsideKeepsOutput(setup.wrapped, setup.sha, w, actions[0]);
      q := ReachNext(setup, s, JobActs(WrappedStep(actions[0])));
      q := PipeGoes(setup, q, next, actions[1..]);
    }
  }

  lemma AsideKeepsOutput(limits: D.Limits, sha: seq<byte> -> Sha256, w: D.State, a: D.Action)
    requires W.Step(limits, sha, w, a).Some? && R.Aside([a])
    ensures W.Step(limits, sha, w, a).value.consumerStdout == w.consumerStdout && Answered(WrappedStep(a)) == None
  {
    hide D.StepThread, W.FrameAnswers;
    assert [a][0] == a;
  }

  /** The whole stream and everything else is delivered, and the pipe returns SUCCEEDED with a valid frame. */
  lemma PipeFinishes(setup: Setup, s: State, stream: seq<P.Chunk>, producerErr: seq<P.Chunk>, out: seq<P.Chunk>,
                     consumerErr: seq<P.Chunk>) returns (q: State)
    requires Reachable(setup, s) && Ready(setup, s, true, out)
    requires R.Deliverable(setup.wrapped, stream, producerErr, out, consumerErr)
    ensures Reachable(setup, q) && q == s.(job := q.job) && q.job.Wrapped? && Succeeded(q.job)
    ensures q.job.w.consumerStdout.read == out && q.job.w.pump.offered == stream
    ensures CanReturn(setup, q.job, L.Completed)
  {
    hide Reachable, DriveChunks, Concat, R.Deliverable, R.Aside, W.Run, W.Fed, W.TerminalOf;
    var t0 := R.Between(false, out);
    q := OutputGoes(setup, s, t0, D.Look, t0.(pc := D.Reading));
    q := OutputGoes(setup, q, t0.(pc := D.Reading), D.ReadEnd, R.AtTheEnd(false, out));
    var w := R.OthersDeliver(setup.wrapped, setup.sha, stream, producerErr, out, consumerErr);
    var actions :| R.Aside(actions)
                   && W.Run(setup.wrapped, setup.sha, R.Moved(R.AtTheEnd(false, out)), actions) == Some(w);
    q := PipeGoes(setup, q, R.Moved(R.AtTheEnd(false, out)), actions);
    StreamIsValid(setup, stream, producerErr, out, consumerErr);
  }

  lemma StreamIsValid(setup: Setup, stream: seq<P.Chunk>, producerErr: seq<P.Chunk>, out: seq<P.Chunk>,
                      consumerErr: seq<P.Chunk>)
    requires R.Deliverable(setup.wrapped, stream, producerErr, out, consumerErr)
    ensures T.Outcome(W.Fed(stream), setup.sha).status == T.FrameStatus.Valid
  {
    hide T.Outcome, W.Fed, P.Readable, T.ChunksWithinLimits, G.Framed;
    R.FramedOutcome(stream, setup.sha);
  }

  /** The runner returns COMPLETED, the queue is closed and the worker ends with its result. */
  lemma CallEnds(setup: Setup, s: State, drive: Drive, result: LockedResult) returns (q: State)
    requires Reachable(setup, s) && setup.supported && s.phase == Running && CanReturn(setup, s.job, L.Completed)
    requires s.slot == None && !s.done && s.worker == Parsing(drive) && EndOf(setup, drive) == S.Ok(result)
    ensures Reachable(setup, q) && q.phase == Ended(L.Completed) && q.job == s.job && q.parsed == Some(S.Ok(result))
  {
    hide Reachable, EndOf, CanReturn, DriveChunk, JobStep;
    q := ReachNext(setup, s, RunnerReturns(L.Completed));
    q := ReachNext(setup, q, CloseLook);
    q := ReachNext(setup, q, CloseTry);
    q := WorkerEnds(setup, q, drive, result);
    q := ReachNext(setup, q, Join(false));
  }

  /** The worker takes the sentinel and is gone with its result. */
  lemma WorkerEnds(setup: Setup, s: State, drive: Drive, result: LockedResult) returns (q: State)
    requires Reachable(setup, s) && setup.supported && s.phase == Joining(L.Completed) && s.slot == Some(Sentinel)
    requires s.worker == Parsing(drive) && EndOf(setup, drive) == S.Ok(result)
    ensures Reachable(setup, q) && q.phase == s.phase && q.job == s.job
    ensures q.worker == Gone && q.parsed == Some(S.Ok(result))
  {
    hide Reachable, EndOf, CanReturn, DriveChunk, JobStep;
    q := ReachNext(setup, s, Take);
    q := ReachNext(setup, q, Flag);
    q := ReachNext(setup, q, Mark);
  }

  lemma ParsedMeansDriving(setup: Setup, chunks: seq<seq<byte>>)
    requires ParseChunks(setup, chunks).Ok?
    ensures DriveChunks(setup.env, LockedForm, StartDrive(LockedForm, setup.table), chunks).Driving?
  {
    hide DriveChunks, LockedEnd;
  }

  predicate EndsListed(s: State, chunks: seq<seq<byte>>, result: LockedResult) {
    && s.phase == Ended(L.Completed) && ReadSoFar(s.job) == chunks && s.parsed == Some(S.Ok(result))
    && ListingStatusOf(s.phase.run, StatusOf(s.parsed.value), s.parserTerminal) == Listed
  }

  lemma PlainCanReturn(setup: Setup, job: Job)
    requires job.Plain? && Succeeded(job)
    ensures CanReturn(setup, job, L.Completed)
  {
  }

  /** Any output of one process within its limit that parses has a run that ends LISTED with that very result. */
  lemma ListingIsPossible(setup: Setup, chunks: seq<P.Chunk>, result: LockedResult) returns (s: State)
    requires setup.supported && P.Readable(chunks, setup.plain.stdout) && ParseChunks(setup, chunks) == S.Ok(result)
    ensures Reachable(setup, s) && s.job.Plain? && EndsListed(s, chunks, result)
  {
    hide Reachable, DriveChunks, Concat, EndOf, Succeeded, P.Readable, Ahead, CanReturn;
    ParsedMeansDriving(setup, chunks);
    s := Begins(setup, false);
    assert [] + chunks == chunks;
    s := HandsAll(setup, s, false, [], chunks);
    s := PumpFinishes(setup, s, chunks);
    PlainCanReturn(setup, s.job);
    s := CallEnds(setup, s, s.worker.drive, result);
  }

  /** The same of a wrapper: any framed stream, with any output of the inner process that parses. */
  lemma WrapperListingIsPossible(setup: Setup, stream: seq<P.Chunk>, producerErr: seq<P.Chunk>, out: seq<P.Chunk>,
                                 consumerErr: seq<P.Chunk>, result: LockedResult) returns (s: State)
    requires setup.supported && R.Deliverable(setup.wrapped, stream, producerErr, out, consumerErr)
    requires ParseChunks(setup, out) == S.Ok(result)
    ensures Reachable(setup, s) && s.job.Wrapped? && s.job.w.pump.offered == stream && EndsListed(s, out, result)
  {
    hide Reachable, DriveChunks, Concat, EndOf, Succeeded, P.Readable, Ahead, CanReturn, T.ChunksWithinLimits, G.Framed;
    ParsedMeansDriving(setup, out);
    s := Begins(setup, true);
    assert [] + out == out;
    s := HandsAll(setup, s, true, [], out);
    s := PipeFinishes(setup, s, stream, producerErr, out, consumerErr);
    s := CallEnds(setup, s, s.worker.drive, result);
  }
}
