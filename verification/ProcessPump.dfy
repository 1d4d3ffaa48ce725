/**
`ArchiveProcessRunner.run` as a transition system: two reader threads that take turns with a supervising loop. An action
is one atomic step of one thread together with whatever the outside world answered; a run is any sequence of actions,
so every statement about runs is a statement about every interleaving and every behaviour of the process, its pipes,
the consumers, the cancellation probe and the clock.
*/
module ProcessPump {
  import opened Prelude

  datatype Status = Succeeded | Failed | TimedOut | Cancelled | LimitExceeded | ConsumerRejected

  datatype ProcessResult = ProcessResult(status: Status, exitCode: Option<int>, stdoutBytes: nat, stderrBytes: nat) {
    predicate Constructible() { status == Succeeded ==> exitCode == Some(0) }
  }

  /** `_stream_failure_precedence`. */
  function Precedence(failures: seq<Status>): (s: Status) {
    if LimitExceeded in failures then LimitExceeded else ConsumerRejected
  }

  // ---------- a reader thread ----------

  type Chunk = c: seq<byte> | |c| <= READ_CHUNK_BYTES

  /** Where a reader stands: at the loop head, inside `read`, before the lock, before the second look at the event,
      inside its consumer, about to record a rejection, or returned. */
  datatype Pc = Head | Reading | Counting(chunk: Chunk) | Rechecking(chunk: Chunk) | Consuming(chunk: Chunk) | Refusing
              | Exited

  /** `read`, `offered` and `accepted` are the chunks that came off the pipe, went to the consumer, and were not
      refused. */
  datatype Reader = Reader(pc: Pc, count: nat, read: seq<seq<byte>>, offered: seq<seq<byte>>, accepted: seq<seq<byte>>,
                           eof: bool)

  /** What the threads share. */
  datatype Shared = Shared(failures: seq<Status>, event: bool) {
    function Fail(s: Status): (r: Shared) { Shared(failures + [s], true) }
  }

  datatype ReaderAction =
    | Look                             // test the event at the loop head
    | ReadChunk(chunk: Chunk)          // `read` returns bytes
    | ReadEnd                          // `read` returns nothing: end of file
    | ReadRaises
    | Count                            // add to the counter under the lock
    | Recheck                          // test the event again, then call the consumer
    | Consumed(accepted: bool)         // the consumer returns; false also when it raises
    | Refuse                           // record the rejection under the lock

  function StepReader(limit: nat, r: Reader, sh: Shared, a: ReaderAction): (q: Option<(Reader, Shared)>) {
    match (r.pc, a)
    case (Head, Look) => Some((r.(pc := if sh.event then Exited else Reading), sh))
    case (Reading, ReadChunk(c)) => if c == [] then None else Some((r.(pc := Counting(c), read := r.read + [c]), sh))
    case (Reading, ReadEnd) => Some((r.(pc := Exited, eof := true), sh))
    case (Reading, ReadRaises) => Some((r.(pc := Refusing), sh))
    case (Counting(c), Count) =>
      var n := r.count + |c|;
      if n > limit then Some((r.(pc := Exited, count := n), sh.Fail(LimitExceeded)))
      else Some((r.(pc := Rechecking(c), count := n), sh))
    case (Rechecking(c), Recheck) =>
      if sh.event then Some((r.(pc := Exited), sh)) else Some((r.(pc := Consuming(c), offered := r.offered + [c]), sh))
    case (Consuming(c), Consumed(ok)) =>
      if ok then Some((r.(pc := Head, accepted := r.accepted + [c]), sh)) else Some((r.(pc := Refusing), sh))
    case (Refusing, Refuse) => Some((r.(pc := Exited), sh.Fail(ConsumerRejected)))
    case _ => None
  }

  // ---------- the supervising loop ----------

  datatype Phase = Looping | SawFailure | Asking | Timing | Waiting | Stopping | Joining | Rejoining | Deciding
                 | Reporting(status: Status) | Returned(result: ProcessResult) | Raised

  datatype Answer = NotCancelled | IsCancelled | ProbeRaises

  datatype MainAction =
    | Loop                                     // the loop condition, then the event
    | TakePrecedence(killed: bool)
    | Ask(answer: Answer, killed: bool)
    | Clock(expired: bool, killed: bool)
    | Wait(code: Option<int>)                  // `wait` of at most 0.05 s
    | WaitStopped(code: Option<int>)           // `wait` of 5 s after a kill
    | Join(anyAlive: bool, killed: bool)       // both joins and the liveness test
    | JoinAgain
    | Decide
    | Report
    | RaiseOut                                 // clock, `wait` or `close` raises out of the call

  datatype State = State(out: Reader, err: Reader, shared: Shared, phase: Phase, status: Option<Status>,
                         exitCode: Option<int>, terminationFailed: bool)

  predicate AllExited(s: State) { s.out.pc == Exited && s.err.pc == Exited }

  /** The last decision, made under the lock. */
  function Decision(s: State): (d: Status) {
    if s.terminationFailed then Failed
    else if s.shared.failures != [] then Precedence(s.shared.failures)
    else match s.status
         case Some(d) => d
         case None => if s.exitCode == Some(0) then Succeeded else Failed
  }

  function Stop(s: State, status: Status, killed: bool): (r: State) {
    s.(phase := Stopping, status := Some(status), terminationFailed := !killed)
  }

  function StepMain(s: State, a: MainAction): (r: Option<State>) {
    match (s.phase, a)
    case (Looping, Loop) =>
      if s.exitCode.Some? then Some(s.(phase := Joining))
      else Some(s.(phase := if s.shared.event then SawFailure else Asking))
    case (SawFailure, TakePrecedence(killed)) => Some(Stop(s, Precedence(s.shared.failures), killed))
    case (Asking, Ask(answer, killed)) =>
      (match answer
       case NotCancelled => Some(s.(phase := Timing))
       case IsCancelled => Some(Stop(s, Cancelled, killed))
       case ProbeRaises => Some(Stop(s, Failed, killed)))
    case (Timing, Clock(expired, killed)) =>
      if expired then Some(Stop(s, TimedOut, killed)) else Some(s.(phase := Waiting))
    case (Waiting, Wait(code)) => Some(s.(phase := Looping, exitCode := code))
    case (Stopping, WaitStopped(code)) =>
      Some(if code.Some? then s.(phase := Joining, exitCode := code)
           else s.(phase := Joining, terminationFailed := true, status := Some(Failed)))
    case (Joining, Join(anyAlive, killed)) =>
      if anyAlive then
        if AllExited(s) then None
        else Some(s.(phase := Rejoining, shared := s.shared.(event := true), terminationFailed := true))
      else if AllExited(s) then Some(s.(phase := Deciding))
      else None
    case (Rejoining, JoinAgain) => Some(s.(phase := Deciding))
    case (Deciding, Decide) => Some(s.(phase := Reporting(Decision(s))))
    case (Reporting(d), Report) => Some(s.(phase := Returned(ProcessResult(d, s.exitCode, s.out.count, s.err.count))))
    case (_, RaiseOut) =>
      if s.phase in {Timing, Waiting, Stopping, Joining} || s.phase.Reporting? then Some(s.(phase := Raised)) else None
    case _ => None
  }

  // ---------- the whole ----------

  datatype Limits = Limits(stdout: nat, stderr: nat)

  datatype Action = OutReader(r: ReaderAction) | ErrReader(r: ReaderAction) | Main(m: MainAction)

  function Step(limits: Limits, s: State, a: Action): (r: Option<State>) {
    match a
    case OutReader(ra) =>
      (match StepReader(limits.stdout, s.out, s.shared, ra)
       case None => None
       case Some((reader, shared)) => Some(s.(out := reader, shared := shared)))
    case ErrReader(ra) =>
      (match StepReader(limits.stderr, s.err, s.shared, ra)
       case None => None
       case Some((reader, shared)) => Some(s.(err := reader, shared := shared)))
    case Main(ma) => StepMain(s, ma)
  }

  function StartReader(): (r: Reader) { Reader(Head, 0, [], [], [], false) }

  function Start(): (s: State) {
    State(StartReader(), StartReader(), Shared([], false), Looping, None, None, false)
  }

  /** The state after the actions, None as soon as one of them is not enabled. */
  function Run(limits: Limits, s: State, actions: seq<Action>): (r: Option<State>)
    decreases |actions|
  {
    if actions == [] then Some(s)
    else match Step(limits, s, actions[0])
         case None => None
         case Some(next) => Run(limits, next, actions[1..])
  }

  // ---------- what every step keeps ----------

  /** How the three chunk histories and the counter relate at each place a reader can stand. */
  predicate ReaderInv(limit: nat, r: Reader) {
    && |Concat(r.offered)| <= limit
    && (r.pc.Counting? || r.count == |Concat(r.read)|)
    && match r.pc
       case Head => r.read == r.offered == r.accepted && r.count <= limit && !r.eof
       case Reading => r.read == r.offered == r.accepted && r.count <= limit && !r.eof
       case Counting(c) => r.read == r.offered + [c] && r.offered == r.accepted
                           && r.count == |Concat(r.offered)| && !r.eof
       case Rechecking(c) => r.read == r.offered + [c] && r.offered == r.accepted && r.count <= limit && !r.eof
       case Consuming(c) => r.read == r.offered == r.accepted + [c] && r.count <= limit && !r.eof
       case Refusing => r.accepted <= r.offered == r.read && r.count <= limit && !r.eof
       case Exited => r.accepted <= r.offered <= r.read && r.count <= limit + READ_CHUNK_BYTES
                      && (r.eof ==> r.read == r.accepted && r.count <= limit)
  }

  /** A reader that left early left a reason behind, and one that went over its limit recorded that. */
  predicate ReaderReason(limit: nat, r: Reader, sh: Shared) {
    && (r.pc == Exited && !r.eof ==> sh.event)
    && (r.count > limit ==> LimitExceeded in sh.failures)
  }

  predicate SharedInv(sh: Shared) {
    forall i :: 0 <= i < |sh.failures| ==> sh.failures[i] == LimitExceeded || sh.failures[i] == ConsumerRejected
  }

  predicate InLoop(p: Phase) { p in {Looping, SawFailure, Asking, Timing, Waiting} }

  predicate PhaseInv(s: State) {
    && (InLoop(s.phase) ==> s.status.None? && !s.terminationFailed)
    && (s.phase in {SawFailure, Asking, Timing, Waiting, Stopping} ==> s.exitCode.None?)
    && (s.phase == SawFailure ==> s.shared.event)
    && (s.phase == Stopping ==> s.status.Some?)
    && (!InLoop(s.phase) && !s.phase.Raised? && s.exitCode.None? && s.phase != Stopping ==> s.terminationFailed)
    && (s.phase in {Deciding, Rejoining} || s.phase.Reporting? || s.phase.Returned? ==>
          AllExited(s) || s.terminationFailed)
    && (s.status.Some? && !InLoop(s.phase) ==>
          s.status.value in {Failed, TimedOut, Cancelled}
          || (s.shared.failures != [] && (s.status.value == LimitExceeded ==> LimitExceeded in s.shared.failures)))
    && (s.phase.Reporting? ==> s.phase.status == Decision(s))
    && (s.phase.Returned? ==>
          && s.phase.result.status == Decision(s) && s.phase.result.exitCode == s.exitCode
          && (!s.terminationFailed ==>
                s.phase.result.stdoutBytes == s.out.count && s.phase.result.stderrBytes == s.err.count))
  }

  predicate Inv(limits: Limits, s: State) {
    && ReaderInv(limits.stdout, s.out) && ReaderInv(limits.stderr, s.err)
    && ReaderReason(limits.stdout, s.out, s.shared) && ReaderReason(limits.stderr, s.err, s.shared)
    && SharedInv(s.shared) && (s.shared.event ==> s.shared.failures != [] || s.terminationFailed)
    && PhaseInv(s)
    && (s.phase.Returned? ==> s.phase.result.stdoutBytes <= limits.stdout + READ_CHUNK_BYTES
                              && s.phase.result.stderrBytes <= limits.stderr + READ_CHUNK_BYTES)
  }

  lemma ReaderStepKeeps(limit: nat, r: Reader, sh: Shared, a: ReaderAction)
    requires ReaderInv(limit, r) && ReaderReason(limit, r, sh) && StepReader(limit, r, sh, a).Some?
    ensures var (q, after) := StepReader(limit, r, sh, a).value;
            ReaderInv(limit, q) && ReaderReason(limit, q, after)
  {
    match (r.pc, a)
    case (Reading, ReadChunk(c)) => ConcatSnoc(r.read, c);
    case (Rechecking(c), Recheck) => ConcatSnoc(r.offered, c);
    case (Counting(c), Count) => ConcatSnoc(r.offered, c);
    case _ =>
  }

  lemma SharedStep(limit: nat, r: Reader, sh: Shared, a: ReaderAction)
    requires StepReader(limit, r, sh, a).Some? && SharedInv(sh)
    ensures var after := StepReader(limit, r, sh, a).value.1;
            && SharedInv(after) && (sh.event ==> after.event) && sh.failures <= after.failures
            && (after.event && after.failures == [] ==> sh.event)
    ensures r.pc != Exited
  {
  }

  lemma ReasonIsMonotone(limit: nat, r: Reader, sh: Shared, after: Shared)
    requires ReaderReason(limit, r, sh) && (sh.event ==> after.event) && sh.failures <= after.failures
    ensures ReaderReason(limit, r, after)
  {
    if LimitExceeded in sh.failures {
      var i :| 0 <= i < |sh.failures| && sh.failures[i] == LimitExceeded;
      assert after.failures[i] == LimitExceeded;
    }
  }

  lemma PhaseAfterReader(s: State, q: State)
    requires PhaseInv(s) && !AllExited(s) && s.shared.failures <= q.shared.failures
             && (s.shared.event ==> q.shared.event)
    requires q == s.(out := q.out, err := q.err, shared := q.shared)
    ensures PhaseInv(q)
  {
    if LimitExceeded in s.shared.failures {
      var i :| 0 <= i < |s.shared.failures| && s.shared.failures[i] == LimitExceeded;
      assert q.shared.failures[i] == LimitExceeded;
    }
  }

  lemma StepKeeps(limits: Limits, s: State, a: Action)
    requires Inv(limits, s) && Step(limits, s, a).Some?
    ensures Inv(limits, Step(limits, s, a).value)
  {
    hide ReaderInv, ReaderReason, SharedInv, PhaseInv, StepReader;
    var q := Step(limits, s, a).value;
    match a
    case OutReader(ra) =>
      ReaderStepKeeps(limits.stdout, s.out, s.shared, ra);
      SharedStep(limits.stdout, s.out, s.shared, ra);
      ReasonIsMonotone(limits.stderr, s.err, s.shared, q.shared);
      PhaseAfterReader(s, q);
    case ErrReader(ra) =>
      ReaderStepKeeps(limits.stderr, s.err, s.shared, ra);
      SharedStep(limits.stderr, s.err, s.shared, ra);
      ReasonIsMonotone(limits.stdout, s.out, s.shared, q.shared);
      PhaseAfterReader(s, q);
    case Main(ma) => MainStepKeeps(limits, s, ma);
  }

  lemma CountIsBounded(limit: nat, r: Reader)
    requires ReaderInv(limit, r)
    ensures r.count <= limit + READ_CHUNK_BYTES
  {
  }

  lemma MainStepKeeps(limits: Limits, s: State, a: MainAction)
    requires Inv(limits, s) && StepMain(s, a).Some?
    ensures Inv(limits, StepMain(s, a).value)
  {
    hide ReaderInv;
    CountIsBounded(limits.stdout, s.out);
    CountIsBounded(limits.stderr, s.err);
  }

  lemma {:induction false} RunKeeps(limits: Limits, s: State, actions: seq<Action>, end: State)
    requires Inv(limits, s) && Run(limits, s, actions) == Some(end)
    ensures Inv(limits, end)
    decreases |actions|
  {
    hide Inv, Step;
    if actions != [] {
      StepKeeps(limits, s, actions[0]);
      RunKeeps(limits, Step(limits, s, actions[0]).value, actions[1..], end);
    }
  }

  /** The states of a run from the start. */
  ghost predicate Reachable(limits: Limits, s: State) {
    exists actions :: Run(limits, Start(), actions) == Some(s)
  }

  lemma ReachableKeeps(limits: Limits, s: State)
    requires Reachable(limits, s)
    ensures Inv(limits, s)
  {
    hide Run;
    var actions :| Run(limits, Start(), actions) == Some(s);
    RunKeeps(limits, Start(), actions, s);
  }

  lemma {:induction false} RunSnoc(limits: Limits, s: State, actions: seq<Action>, a: Action)
    requires Run(limits, s, actions).Some?
    ensures Run(limits, s, actions + [a]) == Step(limits, Run(limits, s, actions).value, a)
    decreases |actions|
  {
    hide Step;
    if actions == [] {
      assert [] + [a] == [a] && [a][1..] == [];
      var r := Step(limits, s, a);
      if r.Some? { assert Run(limits, r.value, []) == r; }
    } else {
      assert (actions + [a])[1..] == actions[1..] + [a];
      RunSnoc(limits, Step(limits, s, actions[0]).value, actions[1..], a);
    }
  }

  lemma ReachNext(limits: Limits, s: State, a: Action) returns (q: State)
    requires Reachable(limits, s) && Step(limits, s, a).Some?
    ensures Step(limits, s, a) == Some(q) && Reachable(limits, q)
  {
    hide Run, Step;
    var actions :| Run(limits, Start(), actions) == Some(s);
    RunSnoc(limits, Start(), actions, a);
    q := Step(limits, s, a).value;
    assert Run(limits, Start(), actions + [a]) == Some(q);
  }

  lemma ReachStart(limits: Limits)
    ensures Reachable(limits, Start())
  {
    assert Run(limits, Start(), []) == Some(Start());
  }

  // ---------- the theorems ----------

  /** In every reachable state what was accepted begins what was offered begins what was read; the bytes offered stay
      within the limit, and the counter exceeds it by at most one read. */
  lemma DeliveryIsBounded(limits: Limits, s: State)
    requires Reachable(limits, s)
    ensures s.out.accepted <= s.out.offered <= s.out.read && s.err.accepted <= s.err.offered <= s.err.read
    ensures |Concat(s.out.offered)| <= limits.stdout && |Concat(s.err.offered)| <= limits.stderr
    ensures s.out.count <= limits.stdout + READ_CHUNK_BYTES && s.err.count <= limits.stderr + READ_CHUNK_BYTES
    ensures s.phase.Returned? ==> s.phase.result.stdoutBytes <= limits.stdout + READ_CHUNK_BYTES
                                  && s.phase.result.stderrBytes <= limits.stderr + READ_CHUNK_BYTES
  {
    ReachableKeeps(limits, s);
    CountIsBounded(limits.stdout, s.out);
    CountIsBounded(limits.stderr, s.err);
  }

  /** One stream was delivered whole: read to its end, every chunk accepted in order, counted, within its limit. */
  predicate Delivered(limit: nat, r: Reader, bytes: nat) {
    r.eof && r.accepted == r.offered == r.read && bytes == r.count == |Concat(r.read)| <= limit
  }

  /** SUCCEEDED means both streams were delivered whole and the process ended with zero; a result is always one its
      constructor takes. */
  lemma SucceededMeansComplete(limits: Limits, s: State)
    requires Reachable(limits, s) && s.phase.Returned?
    ensures s.phase.result.Constructible()
    ensures s.phase.result.status == Succeeded ==>
              && Delivered(limits.stdout, s.out, s.phase.result.stdoutBytes)
              && Delivered(limits.stderr, s.err, s.phase.result.stderrBytes)
              && s.phase.result.exitCode == Some(0) && s.shared.failures == []
  {
    ReachableKeeps(limits, s);
  }

  /** When the process was brought down, the status is decided by what was recorded, in whatever order: LIMIT_EXCEEDED
      if any thread recorded it, else CONSUMER_REJECTED if any was, else what the loop saw, else the exit code. */
  lemma RecordedFailuresDecide(limits: Limits, s: State)
    requires Reachable(limits, s) && s.phase.Returned? && !s.terminationFailed
    ensures s.phase.result.status == LimitExceeded <==> LimitExceeded in s.shared.failures
    ensures s.phase.result.status == ConsumerRejected
       <==> s.shared.failures != [] && LimitExceeded !in s.shared.failures
    ensures s.phase.result.status == Succeeded
       <==> s.shared.failures == [] && s.status.None? && s.phase.result.exitCode == Some(0)
    ensures s.shared.failures == [] && s.status.Some? ==> s.phase.result.status == s.status.value
    ensures AllExited(s)
  {
    ReachableKeeps(limits, s);
  }

  // ---------- what decides the status ----------

  /** The status the event makes the loop stop with: the caller cancels, the probe raises, or time is up. */
  function AnswerTo(a: Action): (d: Option<Status>) {
    if !a.Main? then None
    else match a.m
         case Ask(answer, _) =>
           if answer == IsCancelled then Some(Cancelled) else if answer == ProbeRaises then Some(Failed) else None
         case Clock(expired, _) => if expired then Some(TimedOut) else None
         case _ => None
  }

  /** At most one event answered, none as long as there is no status; and a status without any failure is its answer. */
  predicate Answered(actions: seq<Action>, status: Option<Status>, failed: bool) {
    && (forall i :: 0 <= i < |actions| && AnswerTo(actions[i]).Some? ==> AnswerTo(actions[i]) == status)
    && (forall i, j :: 0 <= i < j < |actions| ==> AnswerTo(actions[i]).None? || AnswerTo(actions[j]).None?)
    && (status.Some? && !failed ==> exists i :: 0 <= i < |actions| && AnswerTo(actions[i]) == status)
  }

  lemma AnsweredSnoc(actions: seq<Action>, a: Action, before: Option<Status>, after: Option<Status>, failed: bool,
                     fails: bool)
    requires Answered(actions, before, failed) && (failed ==> fails)
    requires AnswerTo(a).Some? ==> before == None && after == AnswerTo(a)
    requires AnswerTo(a).None? ==> after == before || (before == None && fails)
    ensures Answered(actions + [a], after, fails)
  {
    hide AnswerTo;
    var more := actions + [a];
    assert more[|actions|] == a && forall i :: 0 <= i < |actions| ==> more[i] == actions[i];
    if after.Some? && !fails && AnswerTo(a).None? {
      var i :| 0 <= i < |actions| && AnswerTo(actions[i]) == before;
      assert AnswerTo(more[i]) == after;
    }
  }

  /** How a step moves status and failures while termination works. */
  lemma StepAnswers(limits: Limits, s: State, a: Action)
    requires Inv(limits, s) && Step(limits, s, a).Some? && !Step(limits, s, a).value.terminationFailed
    ensures var q := Step(limits, s, a).value;
            && !s.terminationFailed && (s.shared.failures != [] ==> q.shared.failures != [])
            && (AnswerTo(a).Some? ==> s.status == None && q.status == AnswerTo(a))
            && (AnswerTo(a).None? ==> q.status == s.status || (s.status == None && q.shared.failures != []))
  {
    hide ReaderInv, ReaderReason;
    StepKeeps(limits, s, a);
  }

  lemma {:induction false} RunPrefix(limits: Limits, s: State, actions: seq<Action>, a: Action)
    requires Run(limits, s, actions + [a]).Some?
    ensures Run(limits, s, actions).Some?
    decreases |actions|
  {
    hide Step;
    if actions != [] {
      assert (actions + [a])[1..] == actions[1..] + [a];
      RunPrefix(limits, Step(limits, s, actions[0]).value, actions[1..], a);
    }
  }

  lemma {:induction false} RunAnswers(limits: Limits, actions: seq<Action>, s: State)
    requires Run(limits, Start(), actions) == Some(s) && !s.terminationFailed
    ensures Answered(actions, s.status, s.shared.failures != [])
    decreases |actions|
  {
    hide Run, Step, AnswerTo, Answered, Inv;
    if actions == [] {
      NothingAnswered(limits, s);
    } else {
      var front, a := actions[..|actions| - 1], actions[|actions| - 1];
      assert front + [a] == actions;
      RunPrefix(limits, Start(), front, a);
      RunSnoc(limits, Start(), front, a);
      var before := Run(limits, Start(), front).value;
      assert Reachable(limits, before);
      ReachableKeeps(limits, before);
      StepAnswers(limits, before, a);
      RunAnswers(limits, front, before);
      AnsweredSnoc(front, a, before.status, s.status, before.shared.failures != [], s.shared.failures != []);
    }
  }

  lemma NothingAnswered(limits: Limits, s: State)
    requires Run(limits, Start(), []) == Some(s)
    ensures Answered([], s.status, s.shared.failures != [])
  {
  }

  /** When the process was brought down, the status is LIMIT_EXCEEDED if any thread recorded it, else CONSUMER_REJECTED
      if any failure was recorded, else the answer of the one event that made the loop stop, if there was one, else what
      the exit code says. */
  lemma EventsDecide(limits: Limits, actions: seq<Action>, s: State)
    requires Run(limits, Start(), actions) == Some(s) && s.phase.Returned? && !s.terminationFailed
    ensures forall i, j :: 0 <= i < j < |actions| ==> AnswerTo(actions[i]).None? || AnswerTo(actions[j]).None?
    ensures LimitExceeded in s.shared.failures ==> s.phase.result.status == LimitExceeded
    ensures s.shared.failures != [] && LimitExceeded !in s.shared.failures ==>
              s.phase.result.status == ConsumerRejected
    ensures s.shared.failures == [] ==>
              forall i :: 0 <= i < |actions| && AnswerTo(actions[i]).Some? ==>
                s.phase.result.status == AnswerTo(actions[i]).value
    ensures s.shared.failures == [] && (forall i :: 0 <= i < |actions| ==> AnswerTo(actions[i]).None?) ==>
              s.phase.result.status == if s.phase.result.exitCode == Some(0) then Succeeded else Failed
  {
    hide Run, AnswerTo, ReaderInv, ReaderReason;
    assert Reachable(limits, s);
    ReachableKeeps(limits, s);
    RunAnswers(limits, actions, s);
  }

  // ---------- a run that succeeds ----------

  function Between(chunks: seq<seq<byte>>): (r: Reader) {
    Reader(Head, |Concat(chunks)|, chunks, chunks, chunks, false)
  }

  function AtTheEnd(chunks: seq<seq<byte>>): (r: Reader) { Between(chunks).(pc := Exited, eof := true) }

  predicate Readable(chunks: seq<Chunk>, limit: nat) {
    |Concat(chunks)| <= limit && forall i :: 0 <= i < |chunks| ==> chunks[i] != []
  }

  lemma PartFits(done: seq<seq<byte>>, c: seq<byte>, more: seq<seq<byte>>)
    ensures done + ([c] + more) == (done + [c]) + more
    ensures |Concat(done + [c])| == |Concat(done)| + |c| <= |Concat((done + [c]) + more)|
  {
    ConcatSnoc(done, c);
    ConcatAppend(done + [c], more);
  }

  /** From the loop head the output reader can bring further chunks within the limit to its consumer and reach the
      end. */
  lemma {:induction false} OutReaderDelivers(limits: Limits, s: State, done: seq<Chunk>, more: seq<Chunk>)
    returns (q: State)
    requires Reachable(limits, s) && s.out == Between(done) && !s.shared.event && Readable(done + more, limits.stdout)
    ensures Reachable(limits, q) && q == s.(out := AtTheEnd(done + more))
    decreases |more|
  {
    hide Reachable, Concat;
    q := ReachNext(limits, s, OutReader(Look));
    if more == [] {
      q := ReachNext(limits, q, OutReader(ReadEnd));
      assert done + more == done;
    } else {
      var c := more[0];
      assert more == [c] + more[1..] && (done + more)[|done|] == c;
      PartFits(done, c, more[1..]);
      q := ReachNext(limits, q, OutReader(ReadChunk(c)));
      q := ReachNext(limits, q, OutReader(Count));
      q := ReachNext(limits, q, OutReader(Recheck));
      q := ReachNext(limits, q, OutReader(Consumed(true)));
      q := OutReaderDelivers(limits, q, done + [c], more[1..]);
    }
  }

  lemma {:induction false} ErrReaderDelivers(limits: Limits, s: State, done: seq<Chunk>, more: seq<Chunk>)
    returns (q: State)
    requires Reachable(limits, s) && s.err == Between(done) && !s.shared.event && Readable(done + more, limits.stderr)
    ensures Reachable(limits, q) && q == s.(err := AtTheEnd(done + more))
    decreases |more|
  {
    hide Reachable, Concat;
    q := ReachNext(limits, s, ErrReader(Look));
    if more == [] {
      q := ReachNext(limits, q, ErrReader(ReadEnd));
      assert done + more == done;
    } else {
      var c := more[0];
      assert more == [c] + more[1..] && (done + more)[|done|] == c;
      PartFits(done, c, more[1..]);
      q := ReachNext(limits, q, ErrReader(ReadChunk(c)));
      q := ReachNext(limits, q, ErrReader(Count));
      q := ReachNext(limits, q, ErrReader(Recheck));
      q := ReachNext(limits, q, ErrReader(Consumed(true)));
      q := ErrReaderDelivers(limits, q, done + [c], more[1..]);
    }
  }

  lemma ReadersDeliver(limits: Limits, outs: seq<Chunk>, errs: seq<Chunk>) returns (s: State)
    requires Readable(outs, limits.stdout) && Readable(errs, limits.stderr)
    ensures Reachable(limits, s) && s == Start().(out := AtTheEnd(outs), err := AtTheEnd(errs))
  {
    hide Reachable;
    ReachStart(limits);
    assert [] + outs == outs && [] + errs == errs;
    s := OutReaderDelivers(limits, Start(), [], outs);
    s := ErrReaderDelivers(limits, s, [], errs);
  }

  /** Whatever the two streams hold within their limits, there is a run that delivers all of it and returns
      SUCCEEDED. */
  lemma SuccessIsPossible(limits: Limits, outs: seq<Chunk>, errs: seq<Chunk>) returns (s: State)
    requires Readable(outs, limits.stdout) && Readable(errs, limits.stderr)
    ensures Reachable(limits, s) && s.out.accepted == outs && s.err.accepted == errs
    ensures s.phase == Returned(ProcessResult(Succeeded, Some(0), |Concat(outs)|, |Concat(errs)|))
  {
    hide Reachable, StepReader, Concat;
    s := ReadersDeliver(limits, outs, errs);
    s := ReachNext(limits, s, Main(Loop));
    s := ReachNext(limits, s, Main(Ask(NotCancelled, true)));
    s := ReachNext(limits, s, Main(Clock(false, true)));
    s := ReachNext(limits, s, Main(Wait(Some(0))));
    s := ReachNext(limits, s, Main(Loop));
    s := ReachNext(limits, s, Main(Join(false, true)));
    s := ReachNext(limits, s, Main(Decide));
    s := ReachNext(limits, s, Main(Report));
  }
}
