/**
Whose reason a refused listing is given. When the parser stops early, the tool's output is refused and the run comes
back policy-rejected; the caller is told the parser's reason instead exactly when the worker finished while the runner
was active. For a signature the parser supports that is always so behind a refused call; for one it does not support
it is a race between the worker and the start of the run.
*/
module ParserReason {
  import opened Prelude
  import opened SltDriver
  import opened Handoff
  import opened ListingRun
  import S = SltFields
  import P = ProcessPump
  import L = Lifecycle

  // ---------- what every step keeps ----------

  /** The worker has looked at `runner_active`. */
  predicate HasLooked(w: Worker) { w.Marking? || w.Gone? }

  predicate FlagInv(setup: Setup, s: State) {
    && (s.runnerActive <==> s.phase == Running)
    && (s.done ==> s.worker.Gone?)
    && (s.put == Answering(false) ==> s.done)
    && (s.parserTerminal ==> HasLooked(s.worker))
    && (setup.supported && s.phase == Launching ==> s.worker.Parsing? && s.slot == None && s.put == Idle)
    && (setup.supported && s.phase == Running && HasLooked(s.worker) ==> s.parserTerminal)
  }

  lemma JobKeepsFlags(setup: Setup, s: State, ja: JobAction)
    requires FlagInv(setup, s) && Step(setup, s, JobActs(ja)).Some?
    ensures FlagInv(setup, Step(setup, s, JobActs(ja)).value)
    ensures Step(setup, s, JobActs(ja)).value.parserTerminal == s.parserTerminal
  {
    hide JobStep, Answered, Calling;
  }

  lemma OthersKeepFlags(setup: Setup, s: State, a: Action)
    requires FlagInv(setup, s) && Step(setup, s, a).Some? && !a.JobActs?
    ensures FlagInv(setup, Step(setup, s, a).value)
    ensures Step(setup, s, a).value.parserTerminal <==> s.parserTerminal || (a == Flag && s.runnerActive)
  {
    hide JobStep, Answered, Calling, DriveChunk, EndOf, CanReturn;
  }

  /** A result the worker has while nothing has closed the queue is a refusal. */
  predicate FlaggedIsRefused(s: State) { s.parserTerminal ==> s.parsed.Some? && s.parsed.value.Refused? }

  lemma FlagIsRefusal(setup: Setup, s: State)
    requires Inv(setup, s) && FlagInv(setup, s) && s.worker.Flagging? && s.runnerActive
    ensures s.parsed.Some? && s.parsed.value.Refused?
  {
    hide JobReachable, DriveChunks, ParseChunks, NothingLost;
  }

  lemma RefusalStays(setup: Setup, s: State, a: Action)
    requires Inv(setup, s) && FlagInv(setup, s) && FlaggedIsRefused(s) && Step(setup, s, a).Some?
    ensures FlaggedIsRefused(Step(setup, s, a).value)
  {
    hide Inv, JobStep, Answered, Calling, DriveChunk, EndOf, CanReturn;
    if a == Flag && s.runnerActive {
      FlagIsRefusal(setup, s);
    }
  }

  // ---------- histories ----------

  predicate ActiveBefore(setup: Setup, wrapped: bool, actions: seq<Action>, i: nat)
    requires i < |actions|
  {
    var before := Run(setup, Start(setup, wrapped), actions[..i]);
    before.Some? && before.value.runnerActive
  }

  /** The worker was finished and looked while the runner was active. */
  predicate FinishedDuringRun(setup: Setup, wrapped: bool, actions: seq<Action>) {
    exists i :: 0 <= i < |actions| && actions[i] == Flag && ActiveBefore(setup, wrapped, actions, i)
  }

  predicate IsRefusal(a: Action) { a.JobActs? && Answered(a.a) == Some(false) }

  /** A consumer call was answered false while the runner was active. */
  predicate RefusedDuringRun(setup: Setup, wrapped: bool, actions: seq<Action>) {
    exists i :: 0 <= i < |actions| && IsRefusal(actions[i]) && ActiveBefore(setup, wrapped, actions, i)
  }

  lemma ActiveBeforeSnoc(setup: Setup, wrapped: bool, actions: seq<Action>, a: Action, i: nat)
    requires i <= |actions|
    ensures ActiveBefore(setup, wrapped, actions + [a], i)
       <==> if i < |actions| then ActiveBefore(setup, wrapped, actions, i)
            else Run(setup, Start(setup, wrapped), actions).Some?
                 && Run(setup, Start(setup, wrapped), actions).value.runnerActive
  {
    hide Run;
    assert (actions + [a])[..i] == actions[..i];
    if i == |actions| { assert actions[..i] == actions; }
  }

  lemma HistorySnoc(setup: Setup, wrapped: bool, actions: seq<Action>, a: Action, s: State)
    requires Run(setup, Start(setup, wrapped), actions) == Some(s)
    ensures FinishedDuringRun(setup, wrapped, actions + [a])
       <==> FinishedDuringRun(setup, wrapped, actions) || (a == Flag && s.runnerActive)
    ensures RefusedDuringRun(setup, wrapped, actions + [a])
       <==> RefusedDuringRun(setup, wrapped, actions) || (IsRefusal(a) && s.runnerActive)
  {
    hide Run, ActiveBefore, IsRefusal;
    var more := actions + [a];
    forall i | 0 <= i < |more|
      ensures more[i] == if i < |actions| then actions[i] else a
      ensures ActiveBefore(setup, wrapped, more, i)
         <==> if i < |actions| then ActiveBefore(setup, wrapped, actions, i) else s.runnerActive
    {
      ActiveBeforeSnoc(setup, wrapped, actions, a, i);
    }
    if i :| 0 <= i < |actions| && actions[i] == Flag && ActiveBefore(setup, wrapped, actions, i) {
      assert more[i] == Flag;
    }
    if i :| 0 <= i < |actions| && IsRefusal(actions[i]) && ActiveBefore(setup, wrapped, actions, i) {
      assert IsRefusal(more[i]);
    }
    if a == Flag && s.runnerActive { assert more[|actions|] == Flag; }
    if IsRefusal(a) && s.runnerActive { assert IsRefusal(more[|actions|]); }
  }

  /** What the flag remembers of a run. */
  predicate Remembers(setup: Setup, s: State, finished: bool, refused: bool) {
    && FlagInv(setup, s) && FlaggedIsRefused(s)
    && (s.parserTerminal <==> finished)
    && (setup.supported && refused ==> s.parserTerminal)
  }

  lemma StepRemembers(setup: Setup, s: State, a: Action, finished: bool, refused: bool)
    requires Inv(setup, s) && Remembers(setup, s, finished, refused) && Step(setup, s, a).Some?
    ensures Remembers(setup, Step(setup, s, a).value, finished || (a == Flag && s.runnerActive),
                      refused || (IsRefusal(a) && s.runnerActive))
  {
    hide Inv, Step, FlaggedIsRefused;
    RefusalStays(setup, s, a);
    if a.JobActs? {
      JobKeepsFlags(setup, s, a.a);
      if IsRefusal(a) { RefusalIsDone(setup, s, a.a); }
    } else {
      OthersKeepFlags(setup, s, a);
    }
  }

  lemma RefusalIsDone(setup: Setup, s: State, ja: JobAction)
    requires FlagInv(setup, s) && Step(setup, s, JobActs(ja)).Some? && Answered(ja) == Some(false)
    ensures s.done && s.worker.Gone?
  {
    hide JobStep, Answered, Calling;
  }

  lemma {:induction false} RunPrefix(setup: Setup, s: State, actions: seq<Action>, a: Action)
    requires Run(setup, s, actions + [a]).Some?
    ensures Run(setup, s, actions).Some?
    decreases |actions|
  {
    hide Step;
    if actions != [] {
      assert (actions + [a])[1..] == actions[1..] + [a];
      RunPrefix(setup, Step(setup, s, actions[0]).value, actions[1..], a);
    }
  }

  /** A run that made a step: the state before its last step, and that step. */
  lemma LastStep(setup: Setup, wrapped: bool, actions: seq<Action>, s: State) returns (before: State)
    requires Run(setup, Start(setup, wrapped), actions) == Some(s) && actions != []
    ensures var front, a := actions[..|actions| - 1], actions[|actions| - 1];
            Run(setup, Start(setup, wrapped), front) == Some(before) && Step(setup, before, a) == Some(s)
  {
    hide Run, Step, Start;
    var front, a := actions[..|actions| - 1], actions[|actions| - 1];
    assert front + [a] == actions;
    RunPrefix(setup, Start(setup, wrapped), front, a);
    RunSnoc(setup, Start(setup, wrapped), front, a);
    before := Run(setup, Start(setup, wrapped), front).value;
  }

  lemma RunHoldsInv(setup: Setup, wrapped: bool, actions: seq<Action>, s: State)
    requires Run(setup, Start(setup, wrapped), actions) == Some(s)
    ensures Inv(setup, s)
  {
    hide Run, Inv;
    StartKeeps(setup, wrapped);
    RunKeeps(setup, Start(setup, wrapped), actions, s);
  }

  lemma {:induction false} RunRemembers(setup: Setup, wrapped: bool, actions: seq<Action>, s: State)
    requires Run(setup, Start(setup, wrapped), actions) == Some(s)
    ensures Remembers(setup, s, FinishedDuringRun(setup, wrapped, actions), RefusedDuringRun(setup, wrapped, actions))
    decreases |actions|
  {
    hide Run, Step, Start, Inv, Remembers, FinishedDuringRun, RefusedDuringRun, IsRefusal;
    if actions == [] {
      NothingHappened(setup, wrapped, s);
    } else {
      var front, a := actions[..|actions| - 1], actions[|actions| - 1];
      var before := LastStep(setup, wrapped, actions, s);
      assert front + [a] == actions;
      RunRemembers(setup, wrapped, front, before);
      RunHoldsInv(setup, wrapped, front, before);
      HistorySnoc(setup, wrapped, front, a, before);
      StepRemembers(setup, before, a, FinishedDuringRun(setup, wrapped, front),
                    RefusedDuringRun(setup, wrapped, front));
    }
  }

  lemma NothingHappened(setup: Setup, wrapped: bool, s: State)
    requires Run(setup, Start(setup, wrapped), []) == Some(s)
    ensures Remembers(setup, s, FinishedDuringRun(setup, wrapped, []), RefusedDuringRun(setup, wrapped, []))
  {
    assert s == Start(setup, wrapped);
  }

  // ---------- the theorems ----------

  /** For a supported signature, a consumer call that is answered false while the runner is active means the parser has
      refused and said so in time. */
  lemma RefusedCallIsFlagged(setup: Setup, s: State)
    requires Reachable(setup, s) && setup.supported && s.runnerActive && s.put == Answering(false)
    ensures s.parserTerminal && s.parsed.Some? && s.parsed.value.Refused?
  {
    hide Run, Inv;
    var wrapped, actions :| Run(setup, Start(setup, wrapped), actions) == Some(s);
    RunRemembers(setup, wrapped, actions, s);
  }

  /** Behind a policy-rejected run the caller is told the parser's reason exactly when the worker finished while the
      runner was active, and for a supported signature that is so whenever a consumer call was refused during the
      run. */
  lemma ReasonReachesTheCaller(setup: Setup, wrapped: bool, actions: seq<Action>, s: State)
    requires Run(setup, Start(setup, wrapped), actions) == Some(s) && s.phase == Ended(L.PolicyRejected)
    ensures s.parsed.Some?
    ensures ListingStatusOf(L.PolicyRejected, StatusOf(s.parsed.value), s.parserTerminal)
         == if !FinishedDuringRun(setup, wrapped, actions) then ListingStatus.PolicyRejected
            else if s.parsed == Some(S.Refused(S.LimitExceeded)) then ListingStatus.LimitExceeded
            else ListingStatus.ToolFailed
    ensures setup.supported && RefusedDuringRun(setup, wrapped, actions) ==> FinishedDuringRun(setup, wrapped, actions)
  {
    hide Run, FinishedDuringRun, RefusedDuringRun, JobReachable, WorkerOk, QueueInv, PutMatches, FlagInv;
    RunRemembers(setup, wrapped, actions, s);
    StartKeeps(setup, wrapped);
    RunKeeps(setup, Start(setup, wrapped), actions, s);
  }

  // ---------- a signature the parser does not support ----------

  lemma FlagsAndActivates(setup: Setup, s: State, early: bool) returns (q: State)
    requires Reachable(setup, s) && s.phase == Launching && !s.runnerActive && s.worker == Flagging && !s.parserTerminal
    ensures Reachable(setup, q)
    ensures q == s.(phase := Running, runnerActive := true, worker := Marking, parserTerminal := !early)
  {
    hide Reachable, Took, JobStep, Calling, Answered, CanReturn;
    if early {
      q := ReachNext(setup, s, Flag);
      q := ReachNext(setup, q, Activate);
    } else {
      q := ReachNext(setup, s, Activate);
      q := ReachNext(setup, q, Flag);
    }
  }

  /** The worker refuses at once, before the runner is active or after. */
  lemma RefusesAtOnce(setup: Setup, early: bool) returns (s: State)
    requires !setup.supported
    ensures Reachable(setup, s)
    ensures s == Start(setup, false).(phase := Running, runnerActive := true, worker := Gone, done := true,
                                      parsed := Some(S.Refused(S.GrammarRejected)), parserTerminal := !early)
  {
    hide Reachable, StartDrive, Took, JobStep, Calling, Answered, CanReturn;
    ReachStart(setup, false);
    s := ReachNext(setup, Start(setup, false), RefuseAtOnce);
    s := FlagsAndActivates(setup, s, early);
    s := ReachNext(setup, s, Mark);
  }

  /** The output reader at the first byte, whose consumer call is answered false. */
  lemma FirstByteIsRefused(setup: Setup, s: State) returns (q: State)
    requires Reachable(setup, s) && s.phase == Running && s.done && s.job == Plain(P.Start()) && setup.plain.stdout > 0
    ensures Reachable(setup, q)
    ensures q == s.(put := Idle, job := Moved(P.Reader(P.Refusing, 1, [[0]], [[0]], [], false)))
  {
    hide Reachable, Ahead, InCall, Concat, JobStep;
    FirstByte();
    q := ReadsOne(setup, s, false, [], [0]);
    q := ReachNext(setup, q, PutLook);
    q := CallRefused(setup, q, P.Reader(P.Consuming([0]), 1, [[0]], [[0]], [], false), [0]);
  }

  lemma FirstByte()
    ensures Ahead(false, []) == Plain(P.Start()) && |Concat([] + [[0 as byte]])| == 1
    ensures InCall(false, [], [0]) == Moved(P.Reader(P.Consuming([0]), 1, [[0]], [[0]], [], false))
  {
    var none, one: seq<seq<byte>> := [], [[0]];
    assert Concat(none) == [] && one[1..] == none && Concat(one) == one[0] + Concat(none);
    assert none + one == one;
  }

  lemma CallRefused(setup: Setup, s: State, r: P.Reader, c: P.Chunk) returns (q: State)
    requires Reachable(setup, s) && s.phase == Running && s.job == Moved(r) && r.pc == P.Consuming(c)
    requires s.put == Answering(false)
    ensures Reachable(setup, q) && q == s.(put := Idle, job := Moved(r.(pc := P.Refusing)))
  {
    hide Reachable;
    q := ReachNext(setup, s, JobActs(PlainStep(P.OutReader(P.Consumed(false)))));
  }

  /** The refusal stops the process, and the pump reports it. */
  lemma PumpRejects(setup: Setup, s: State, r: P.Reader) returns (q: State)
    requires Reachable(setup, s) && s.phase == Running && s.job == Moved(r) && r.pc == P.Refusing
    ensures Reachable(setup, q) && q == s.(job := q.job) && q.job.Plain? && q.job.p.out == r.(pc := P.Exited)
    ensures q.job.p.shared.failures == [P.ConsumerRejected]
    ensures q.job.p.phase == P.Returned(P.ProcessResult(P.ConsumerRejected, Some(-9), r.count, 0))
  {
    hide Reachable;
    q := PumpGoes(setup, s, P.OutReader(P.Refuse));
    q := PumpGoes(setup, q, P.ErrReader(P.Look));
    assert q.job.p.shared.failures == [P.ConsumerRejected];
    q := PumpStops(setup, q, q.job.p);
  }

  lemma PumpStops(setup: Setup, s: State, p: P.State) returns (q: State)
    requires Reachable(setup, s) && s.phase == Running && s.job == Plain(p) && P.AllExited(p) && p.phase == P.Looping
    requires p.shared == P.Shared([P.ConsumerRejected], true) && p.exitCode == None && !p.terminationFailed
    ensures Reachable(setup, q)
    ensures q.job.Plain? && q == s.(job := q.job) && q.job.p.out == p.out && q.job.p.shared == p.shared
    ensures q.job.p.phase == P.Returned(P.ProcessResult(P.ConsumerRejected, Some(-9), p.out.count, p.err.count))
  {
    hide Reachable, P.StepReader;
    q := PumpGoes(setup, s, P.Main(P.Loop));
    q := PumpGoes(setup, q, P.Main(P.TakePrecedence(true)));
    q := PumpGoes(setup, q, P.Main(P.WaitStopped(Some(-9))));
    q := StoppedReports(setup, q, q.job.p);
  }

  lemma StoppedReports(setup: Setup, s: State, p: P.State) returns (q: State)
    requires Reachable(setup, s) && s.phase == Running && s.job == Plain(p) && P.AllExited(p) && p.phase == P.Joining
    requires p.shared.failures == [P.ConsumerRejected] && !p.terminationFailed
    ensures Reachable(setup, q)
    ensures q
         == s.(job := Plain(p.(phase := P.Returned(
                                 P.ProcessResult(P.ConsumerRejected, p.exitCode, p.out.count, p.err.count)))))
  {
    hide Reachable, P.StepReader;
    q := PumpGoes(setup, s, P.Main(P.Join(false, true)));
    q := PumpGoes(setup, q, P.Main(P.Decide));
    q := PumpGoes(setup, q, P.Main(P.Report));
  }

  /** For an unsupported signature the same refused call, of the same output, is answered POLICY_REJECTED when the
      worker refused before the runner was active, and TOOL_FAILED when it did so afterwards. */
  lemma UnsupportedIsARace(setup: Setup, early: bool) returns (s: State)
    requires !setup.supported && setup.plain.stdout > 0
    ensures Reachable(setup, s) && s.phase == Ended(L.PolicyRejected) && s.job.Plain?
    ensures s.job.p.out.offered == [[0]] && s.job.p.out.accepted == []
    ensures s.job.p.shared.failures == [P.ConsumerRejected]
    ensures s.parsed == Some(S.Refused(S.GrammarRejected))
    ensures ListingStatusOf(L.PolicyRejected, StatusOf(s.parsed.value), s.parserTerminal)
         == if early then ListingStatus.PolicyRejected else ListingStatus.ToolFailed
  {
    hide Reachable, StartDrive, Took, JobStep, Calling, Answered, CanReturn, P.Start;
    s := RefusesAtOnce(setup, early);
    s := FirstByteIsRefused(setup, s);
    s := PumpRejects(setup, s, P.Reader(P.Refusing, 1, [[0]], [[0]], [], false));
    RejectedCanReturn(setup, s.job.p);
    s := CallIsOver(setup, s);
  }

  lemma RejectedCanReturn(setup: Setup, p: P.State)
    requires p.phase.Returned? && p.phase.result.status == P.ConsumerRejected
    ensures CanReturn(setup, Plain(p), L.PolicyRejected)
  {
  }

  lemma CallIsOver(setup: Setup, s: State) returns (q: State)
    requires Reachable(setup, s) && s.phase == Running && CanReturn(setup, s.job, L.PolicyRejected)
    requires s.done && s.worker == Gone && s.parsed.Some?
    ensures Reachable(setup, q) && q == s.(phase := Ended(L.PolicyRejected), runnerActive := false)
  {
    hide Reachable, Took, JobStep, Calling, Answered, CanReturn;
    q := ReachNext(setup, s, RunnerReturns(L.PolicyRejected));
    q := ReachNext(setup, q, CloseLook);
    q := ReachNext(setup, q, Join(false));
  }
}
