/**
`ArchiveProcessRunner.run_duplex` as a transition system: a pump thread that reads the producer, shows every chunk to
the stream consumer and writes it to the inner process; three plain readers; and the supervising loop over both
processes.
*/
module Duplex {
  import opened Prelude
  import P = ProcessPump

  type Status = P.Status

  type Chunk = P.Chunk

  type Shared = P.Shared

  datatype DuplexResult = DuplexResult(status: Status, producerExit: Option<int>, consumerExit: Option<int>,
                                       streamBytes: nat, producerStderrBytes: nat, consumerStdoutBytes: nat,
                                       consumerStderrBytes: nat)
  {
    predicate Constructible() { status == P.Succeeded ==> producerExit == Some(0) && consumerExit == Some(0) }
  }

  // ---------- threads ----------

  /** Where a thread stands. Only the pump finalizes the stream, writes, and closes the inner process's input. */
  datatype Pc = Head | Reading | Counting(chunk: Chunk) | Consuming(chunk: Chunk) | Writing(chunk: Chunk) | Finalizing
              | Recording(status: Status) | Closing | RecordingClose | Exited

  datatype Thread = Thread(isPump: bool, pc: Pc, count: nat, read: seq<seq<byte>>, offered: seq<seq<byte>>,
                           accepted: seq<seq<byte>>, written: seq<byte>, eof: bool, finalized: bool)

  datatype ThreadAction =
    | Look
    | ReadChunk(chunk: Chunk)
    | ReadEnd
    | ReadRaises
    | Count                               // add to the counter, then compare with the limit and call the consumer
    | Consumed(accepted: bool)
    | Wrote                               // the whole chunk went to the inner process
    | WriteRaises(kept: nat)              // only its first bytes did
    | Finalized(accepted: bool)
    | Record                              // record a failure under the lock
    | CloseInput(closed: bool)

  /** Where a thread goes when its loop is over. */
  function Leave(t: Thread): (pc: Pc) { if t.isPump then Closing else Exited }

  function StepThread(limit: nat, t: Thread, sh: Shared, a: ThreadAction): (q: Option<(Thread, Shared)>) {
    match (t.pc, a)
    case (Head, Look) => Some((t.(pc := if sh.event then Leave(t) else Reading), sh))
    case (Reading, ReadChunk(c)) => if c == [] then None else Some((t.(pc := Counting(c), read := t.read + [c]), sh))
    case (Reading, ReadEnd) => Some((t.(pc := if t.isPump then Finalizing else Exited, eof := true), sh))
    case (Reading, ReadRaises) => Some((t.(pc := Recording(P.ConsumerRejected)), sh))
    case (Counting(c), Count) =>
      var n := t.count + |c|;
      if n > limit then Some((t.(pc := Recording(P.LimitExceeded), count := n), sh))
      else Some((t.(pc := Consuming(c), count := n, offered := t.offered + [c]), sh))
    case (Consuming(c), Consumed(ok)) =>
      if !ok then Some((t.(pc := Recording(P.ConsumerRejected)), sh))
      else Some((t.(pc := if t.isPump then Writing(c) else Head, accepted := t.accepted + [c]), sh))
    case (Writing(c), Wrote) => Some((t.(pc := Head, written := t.written + c), sh))
    case (Writing(c), WriteRaises(k)) =>
      if k > |c| then None else Some((t.(pc := Recording(P.ConsumerRejected), written := t.written + c[..k]), sh))
    case (Finalizing, Finalized(ok)) =>
      Some((if ok then t.(pc := Closing, finalized := true) else t.(pc := Recording(P.ConsumerRejected)), sh))
    case (Recording(s), Record) => Some((t.(pc := Leave(t)), sh.Fail(s)))
    case (Closing, CloseInput(ok)) => Some((t.(pc := if ok then Exited else RecordingClose), sh))
    case (RecordingClose, Record) => Some((t.(pc := Exited), sh.Fail(P.ConsumerRejected)))
    case _ => None
  }

  // ---------- the supervising loop ----------

  datatype Phase = Looping | SawFailure | Asking | Timing | WaitingProducer | WaitingConsumer | Breaking | Draining
                 | Joining | Rejoining | Deciding | Reporting(status: Status) | Returned(result: DuplexResult) | Raised

  datatype MainAction =
    | Loop
    | TakePrecedence
    | Ask(answer: P.Answer)
    | Clock(expired: bool)
    | WaitProducer(code: Option<int>)
    | WaitConsumer(code: Option<int>)
    | StopAll(stopped: bool)                                 // both kills and the closing of the input worked
    | WaitBoth(producer: Option<int>, consumer: Option<int>) // at most 5 s each, for the exits still missing
    | Join(anyAlive: bool)
    | JoinAgain
    | Decide
    | Report
    | RaiseOut

  datatype State = State(pump: Thread, producerStderr: Thread, consumerStdout: Thread, consumerStderr: Thread,
                         shared: Shared, phase: Phase, status: Option<Status>, producerExit: Option<int>,
                         consumerExit: Option<int>, terminationFailed: bool)

  predicate AllExited(s: State) {
    s.pump.pc == Exited && s.producerStderr.pc == Exited && s.consumerStdout.pc == Exited
  && s.consumerStderr.pc == Exited
  }

  function Decision(s: State): (d: Status) {
    if s.terminationFailed then P.Failed
    else match s.status
         case Some(d) => d
         case None =>
           if s.shared.failures != [] then P.Precedence(s.shared.failures)
           else if s.producerExit == Some(0) && s.consumerExit == Some(0) then P.Succeeded else P.Failed
  }

  function Break(s: State, status: Status): (r: State) { s.(phase := Breaking, status := Some(status)) }

  function Kept(exit: Option<int>, code: Option<int>): (r: Option<int>) { if exit.Some? then exit else code }

  function AfterProducer(s: State): (p: Phase) { if s.consumerExit.None? then WaitingConsumer else Looping }

  predicate Nonzero(code: Option<int>) { code.Some? && code != Some(0) }

  function StepMain(s: State, a: MainAction): (r: Option<State>) {
    match (s.phase, a)
    case (Looping, Loop) =>
      if s.producerExit.Some? && s.consumerExit.Some? then Some(s.(phase := Draining))
      else Some(s.(phase := if s.shared.event then SawFailure else Asking))
    case (SawFailure, TakePrecedence) => Some(Break(s, P.Precedence(s.shared.failures)))
    case (Asking, Ask(answer)) =>
      (match answer
       case NotCancelled => Some(s.(phase := Timing))
       case IsCancelled => Some(Break(s, P.Cancelled))
       case ProbeRaises => Some(Break(s, P.Failed)))
    case (Timing, Clock(expired)) =>
      if expired then Some(Break(s, P.TimedOut))
      else Some(s.(phase := if s.producerExit.None? then WaitingProducer else AfterProducer(s)))
    case (WaitingProducer, WaitProducer(code)) =>
      var next := s.(producerExit := code);
      Some(if Nonzero(code) then Break(next, P.Failed) else next.(phase := AfterProducer(s)))
    case (WaitingConsumer, WaitConsumer(code)) =>
      var next := s.(consumerExit := code);
      Some(if (code.Some? && s.producerExit.None?) || Nonzero(code) then Break(next, P.Failed)
           else next.(phase := Looping))
    case (Breaking, StopAll(stopped)) =>
      Some(s.(phase := Draining, shared := s.shared.(event := true), terminationFailed := !stopped))
    case (Draining, WaitBoth(p, c)) =>
      var next := s.(phase := Joining, producerExit := Kept(s.producerExit, p),
                     consumerExit := Kept(s.consumerExit, c));
      Some(if next.producerExit.None? || next.consumerExit.None? then next.(terminationFailed := true) else next)
    case (Joining, Join(anyAlive)) =>
      if anyAlive then
        if AllExited(s) then None
        else Some(s.(phase := Rejoining, shared := s.shared.(event := true), terminationFailed := true))
      else if AllExited(s) then Some(s.(phase := Deciding))
      else None
    case (Rejoining, JoinAgain) => Some(s.(phase := Deciding))
    case (Deciding, Decide) => Some(s.(phase := Reporting(Decision(s))))
    case (Reporting(d), Report) =>
      Some(s.(phase := Returned(DuplexResult(d, s.producerExit, s.consumerExit, s.pump.count, s.producerStderr.count,
                                             s.consumerStdout.count, s.consumerStderr.count))))
    case (_, RaiseOut) =>
      if s.phase in {Timing, WaitingProducer, WaitingConsumer, Draining} || s.phase.Reporting?
      then Some(s.(phase := Raised)) else None
    case _ => None
  }

  // ---------- the whole ----------

  datatype Limits = Limits(stream: nat, producerStderr: nat, consumerStdout: nat, consumerStderr: nat)

  datatype Who = Pump | ProducerStderr | ConsumerStdout | ConsumerStderr

  datatype Action = ThreadStep(who: Who, t: ThreadAction) | Main(m: MainAction)

  function ThreadOf(s: State, who: Who): (t: Thread) {
    match who
    case Pump => s.pump
    case ProducerStderr => s.producerStderr
    case ConsumerStdout => s.consumerStdout
    case ConsumerStderr => s.consumerStderr
  }

  function LimitOf(limits: Limits, who: Who): (n: nat) {
    match who
    case Pump => limits.stream
    case ProducerStderr => limits.producerStderr
    case ConsumerStdout => limits.consumerStdout
    case ConsumerStderr => limits.consumerStderr
  }

  function WithThread(s: State, who: Who, t: Thread, sh: Shared): (q: State) {
    match who
    case Pump => s.(pump := t, shared := sh)
    case ProducerStderr => s.(producerStderr := t, shared := sh)
    case ConsumerStdout => s.(consumerStdout := t, shared := sh)
    case ConsumerStderr => s.(consumerStderr := t, shared := sh)
  }

  function Step(limits: Limits, s: State, a: Action): (r: Option<State>) {
    match a
    case ThreadStep(who, ta) =>
      (match StepThread(LimitOf(limits, who), ThreadOf(s, who), s.shared, ta)
       case None => None
       case Some((t, sh)) => Some(WithThread(s, who, t, sh)))
    case Main(ma) => StepMain(s, ma)
  }

  function StartThread(isPump: bool): (t: Thread) { Thread(isPump, Head, 0, [], [], [], [], false, false) }

  function Start(): (s: State) {
    State(StartThread(true), StartThread(false), StartThread(false), StartThread(false), P.Shared([], false), Looping,
          None, None, None, false)
  }

  function Run(limits: Limits, s: State, actions: seq<Action>): (r: Option<State>)
    decreases |actions|
  {
    if actions == [] then Some(s)
    else match Step(limits, s, actions[0])
         case None => None
         case Some(next) => Run(limits, next, actions[1..])
  }

  // ---------- what every step keeps ----------

  /** Everything read was accepted and, by the pump, written. */
  predicate CaughtUp(t: Thread) {
    t.read == t.offered == t.accepted && (t.isPump ==> t.written == Concat(t.accepted))
  }

  predicate ThreadInv(limit: nat, t: Thread) {
    && |Concat(t.offered)| <= limit
    && t.accepted <= t.offered <= t.read && (t.isPump ==> t.written <= Concat(t.accepted))
    && t.count <= limit + READ_CHUNK_BYTES
    && (t.pc.Counting? || t.count == |Concat(t.read)|)
    && (t.count > limit ==> t.pc == Recording(P.LimitExceeded) || t.pc in {Closing, RecordingClose, Exited})
    && (t.eof ==> CaughtUp(t) && t.count <= limit)
    && match t.pc
       case Head => CaughtUp(t) && !t.eof
       case Reading => CaughtUp(t) && !t.eof
       case Counting(c) =>
         && t.read == t.offered + [c] && t.offered == t.accepted && t.count == |Concat(t.offered)| && !t.eof
         && (t.isPump ==> t.written == Concat(t.accepted))
       case Consuming(c) =>
         t.read == t.offered == t.accepted + [c] && !t.eof && (t.isPump ==> t.written == Concat(t.accepted))
       case Writing(c) => t.isPump && t.read == t.offered == t.accepted && !t.eof && Concat(t.accepted) == t.written + c
       case Finalizing => t.isPump && t.eof
       case Closing => t.isPump
       case RecordingClose => t.isPump
       case _ => true
  }

  /** A thread past its loop is past the end of its stream, finalized if it is the pump, or has set the event. */
  predicate ThreadReason(limit: nat, t: Thread, sh: Shared) {
    && (t.pc in {Closing, RecordingClose, Exited} ==> (t.eof && (t.isPump ==> t.finalized)) || sh.event)
    && (t.count > limit && t.pc != Recording(P.LimitExceeded) ==> P.LimitExceeded in sh.failures)
  }

  predicate SharedInv(sh: Shared) {
    forall i :: 0 <= i < |sh.failures| ==> sh.failures[i] == P.LimitExceeded || sh.failures[i] == P.ConsumerRejected
  }

  predicate RecordsFailure(t: Thread) {
    t.pc.Recording? ==> t.pc.status == P.LimitExceeded || t.pc.status == P.ConsumerRejected
  }

  predicate InLoop(p: Phase) { p in {Looping, SawFailure, Asking, Timing, WaitingProducer, WaitingConsumer} }

  predicate ControlInv(s: State) {
    && (InLoop(s.phase) ==> s.status.None? && !s.terminationFailed)
    && (s.phase == Breaking ==> s.status.Some? && !s.terminationFailed)
    && (s.phase == SawFailure ==> s.shared.event)
    && (s.shared.event ==> s.shared.failures != [] || s.terminationFailed || s.status.Some?)
    && (s.phase in {Draining, Joining, Rejoining, Deciding} && s.status.None? ==>
          s.producerExit.Some? && s.consumerExit.Some?)
    && (s.phase in {Deciding, Rejoining} || s.phase.Reporting? || s.phase.Returned? ==>
          AllExited(s) || s.terminationFailed)
    && s.status != Some(P.Succeeded)
  }

  predicate ReportInv(s: State) {
    && (s.phase.Reporting? ==> s.phase.status == Decision(s))
    && (s.phase.Returned? ==>
          && s.phase.result.status == Decision(s)
          && s.phase.result.producerExit == s.producerExit && s.phase.result.consumerExit == s.consumerExit
          && (!s.terminationFailed ==>
                && s.phase.result.streamBytes == s.pump.count
                && s.phase.result.producerStderrBytes == s.producerStderr.count
                && s.phase.result.consumerStdoutBytes == s.consumerStdout.count
                && s.phase.result.consumerStderrBytes == s.consumerStderr.count))
  }

  predicate PhaseInv(s: State) { ControlInv(s) && ReportInv(s) }

  predicate ThreadOk(limits: Limits, s: State, who: Who) {
    var t := ThreadOf(s, who);
    && t.isPump == (who == Pump)
    && ThreadInv(LimitOf(limits, who), t) && ThreadReason(LimitOf(limits, who), t, s.shared) && RecordsFailure(t)
  }

  predicate Inv(limits: Limits, s: State) {
    (forall who :: ThreadOk(limits, s, who)) && SharedInv(s.shared) && PhaseInv(s)
  }

  lemma ReadingKeeps(limit: nat, t: Thread, sh: Shared, a: ThreadAction)
    requires ThreadInv(limit, t) && StepThread(limit, t, sh, a).Some? && (t.pc.Reading? || t.pc.Counting?)
    ensures ThreadInv(limit, StepThread(limit, t, sh, a).value.0)
  {
    hide Concat;
    match (t.pc, a)
    case (Reading, ReadChunk(c)) => ConcatSnoc(t.read, c);
    case (Counting(c), Count) => ConcatSnoc(t.offered, c);
    case _ =>
  }

  lemma ThreadInvKeeps(limit: nat, t: Thread, sh: Shared, a: ThreadAction)
    requires ThreadInv(limit, t) && StepThread(limit, t, sh, a).Some?
    ensures ThreadInv(limit, StepThread(limit, t, sh, a).value.0)
  {
    hide ThreadInv, StepThread;
    if t.pc.Reading? || t.pc.Counting? {
      ReadingKeeps(limit, t, sh, a);
    } else {
      DeliveringKeeps(limit, t, sh, a);
    }
  }

  lemma DeliveringKeeps(limit: nat, t: Thread, sh: Shared, a: ThreadAction)
    requires ThreadInv(limit, t) && StepThread(limit, t, sh, a).Some? && !t.pc.Reading? && !t.pc.Counting?
    ensures ThreadInv(limit, StepThread(limit, t, sh, a).value.0)
  {
    hide Concat;
    match (t.pc, a)
    case (Consuming(c), Consumed(ok)) => ConcatSnoc(t.accepted, c);
    case _ =>
  }

  lemma ThreadStepKeeps(limit: nat, t: Thread, sh: Shared, a: ThreadAction)
    requires ThreadInv(limit, t) && ThreadReason(limit, t, sh) && RecordsFailure(t) && StepThread(limit, t, sh, a).Some?
    ensures var (q, after) := StepThread(limit, t, sh, a).value;
            ThreadInv(limit, q) && ThreadReason(limit, q, after) && RecordsFailure(q) && q.isPump == t.isPump
  {
    hide Concat, CaughtUp;
    ThreadInvKeeps(limit, t, sh, a);
  }

  predicate Extends(sh: Shared, after: Shared) {
    (sh.event ==> after.event) && sh.failures <= after.failures
  }

  lemma SharedStep(limit: nat, t: Thread, sh: Shared, a: ThreadAction)
    requires StepThread(limit, t, sh, a).Some? && SharedInv(sh) && RecordsFailure(t)
    ensures var after := StepThread(limit, t, sh, a).value.1;
            && SharedInv(after) && Extends(sh, after)
            && (after.event && after.failures == [] ==> sh.event)
    ensures t.pc != Exited
  {
  }

  lemma StillRecorded(sh: Shared, after: Shared)
    requires Extends(sh, after)
    ensures P.LimitExceeded in sh.failures ==> P.LimitExceeded in after.failures
  {
    if P.LimitExceeded in sh.failures {
      var i :| 0 <= i < |sh.failures| && sh.failures[i] == P.LimitExceeded;
      assert after.failures[i] == P.LimitExceeded;
    }
  }

  lemma OthersStayOk(limits: Limits, s: State, q: State, who: Who)
    requires ThreadOk(limits, s, who) && ThreadOf(q, who) == ThreadOf(s, who) && Extends(s.shared, q.shared)
    ensures ThreadOk(limits, q, who)
  {
    hide ThreadInv, RecordsFailure;
    StillRecorded(s.shared, q.shared);
  }

  lemma PhaseAfterThread(s: State, q: State, who: Who)
    requires PhaseInv(s) && !AllExited(s) && Extends(s.shared, q.shared)
    requires q.shared.event && q.shared.failures == [] ==> s.shared.event
    requires q == WithThread(s, who, ThreadOf(q, who), q.shared)
    ensures PhaseInv(q)
  {
  }

  lemma StepKeeps(limits: Limits, s: State, a: Action)
    requires Inv(limits, s) && Step(limits, s, a).Some?
    ensures Inv(limits, Step(limits, s, a).value)
  {
    hide ThreadInv, ThreadReason, SharedInv, PhaseInv, StepThread, RecordsFailure, StepMain;
    var q := Step(limits, s, a).value;
    match a
    case ThreadStep(who, ta) =>
      assert ThreadOk(limits, s, who);
      ThreadStepKeeps(LimitOf(limits, who), ThreadOf(s, who), s.shared, ta);
      SharedStep(LimitOf(limits, who), ThreadOf(s, who), s.shared, ta);
      forall other | other != who ensures ThreadOk(limits, q, other) {
        OthersStayOk(limits, s, q, other);
      }
      PhaseAfterThread(s, q, who);
    case Main(ma) =>
      MainStepKeeps(s, ma);
      forall who ensures ThreadOk(limits, q, who) {
        OthersStayOk(limits, s, q, who);
      }
  }

  lemma MainKeepsControl(s: State, a: MainAction)
    requires ControlInv(s) && SharedInv(s.shared) && StepMain(s, a).Some?
    ensures var q := StepMain(s, a).value;
            && ControlInv(q) && SharedInv(q.shared) && Extends(s.shared, q.shared)
            && forall who :: ThreadOf(q, who) == ThreadOf(s, who)
  {
    hide Decision;
  }

  lemma MainStepKeeps(s: State, a: MainAction)
    requires PhaseInv(s) && SharedInv(s.shared) && StepMain(s, a).Some?
    ensures var q := StepMain(s, a).value;
            && PhaseInv(q) && SharedInv(q.shared) && Extends(s.shared, q.shared)
            && forall who :: ThreadOf(q, who) == ThreadOf(s, who)
  {
    MainKeepsControl(s, a);
  }

  lemma {:induction false} RunKeeps(limits: Limits, s: State, actions: seq<Action>, end: State)
    requires Inv(limits, s) && Run(limits, s, actions) == Some(end)
    ensures Inv(limits, end)
    decreases |actions|
  {
    hide Inv, Step;
    if actions != [] {
      StepKeeps(limits, s, actions[0]);
      RunKeeps(limits, Step(limits, s, actions[0]).value, actions[1..], end);
    }
  }

  ghost predicate Reachable(limits: Limits, s: State) {
    exists actions :: Run(limits, Start(), actions) == Some(s)
  }

  lemma ReachableKeeps(limits: Limits, s: State)
    requires Reachable(limits, s)
    ensures Inv(limits, s)
  {
    hide Run;
    var actions :| Run(limits, Start(), actions) == Some(s);
    RunKeeps(limits, Start(), actions, s);
  }

  // ---------- the theorems ----------

  lemma PrefixOfConcat(a: seq<seq<byte>>, b: seq<seq<byte>>)
    requires a <= b
    ensures Concat(a) <= Concat(b)
  {
    ConcatAppend(a, b[|a|..]);
    assert a + b[|a|..] == b;
  }

  /** In every reachable state, for every thread: the bytes written begin the bytes accepted, which begin the bytes
      read; the bytes shown to a consumer stay within its limit and a counter exceeds its limit by at most one
      read. */
  lemma WrittenIsPrefixOfAccepted(limits: Limits, s: State, who: Who)
    requires Reachable(limits, s)
    ensures var t := ThreadOf(s, who);
            && (who == Pump ==> t.written <= Concat(t.accepted))
            && Concat(t.accepted) <= Concat(t.offered) <= Concat(t.read)
            && |Concat(t.offered)| <= LimitOf(limits, who)
            && t.count <= LimitOf(limits, who) + READ_CHUNK_BYTES
  {
    hide PhaseInv, ThreadReason;
    ReachableKeeps(limits, s);
    assert ThreadOk(limits, s, who);
    PrefixOfConcat(ThreadOf(s, who).accepted, ThreadOf(s, who).offered);
    PrefixOfConcat(ThreadOf(s, who).offered, ThreadOf(s, who).read);
  }

  /** One stream was delivered whole: read to its end, every chunk accepted in order, counted, within its limit. */
  predicate Delivered(limit: nat, t: Thread, bytes: nat) {
    t.eof && t.accepted == t.offered == t.read && bytes == t.count == |Concat(t.read)| <= limit
  }

  lemma ExitedIsDelivered(limits: Limits, s: State, who: Who)
    requires Inv(limits, s) && ThreadOf(s, who).pc == Exited && !s.shared.event
    ensures Delivered(LimitOf(limits, who), ThreadOf(s, who), ThreadOf(s, who).count)
    ensures who == Pump ==> s.pump.finalized && s.pump.written == Concat(s.pump.read)
  {
    hide PhaseInv;
    assert ThreadOk(limits, s, who);
  }

  lemma SuccessLeavesNoEvent(limits: Limits, s: State)
    requires Inv(limits, s) && s.phase.Returned? && s.phase.result.status == P.Succeeded
    ensures AllExited(s) && !s.shared.event && !s.terminationFailed && s.shared.failures == []
    ensures s.producerExit == Some(0) && s.consumerExit == Some(0) && s.status == None
  {
    hide ThreadOk;
  }

  /** SUCCEEDED means all four streams were delivered whole, the inner process was written exactly the producer's whole
      output, the stream consumer accepted its end, and both processes exited with zero; a result is always one its
      constructor takes. */
  lemma SucceededMeansComplete(limits: Limits, s: State)
    requires Reachable(limits, s) && s.phase.Returned?
    ensures s.phase.result.Constructible()
    ensures s.phase.result.status == P.Succeeded ==>
              && Delivered(limits.stream, s.pump, s.phase.result.streamBytes)
              && s.pump.written == Concat(s.pump.accepted) == Concat(s.pump.read) && s.pump.finalized
              && Delivered(limits.producerStderr, s.producerStderr, s.phase.result.producerStderrBytes)
              && Delivered(limits.consumerStdout, s.consumerStdout, s.phase.result.consumerStdoutBytes)
              && Delivered(limits.consumerStderr, s.consumerStderr, s.phase.result.consumerStderrBytes)
              && s.shared.failures == []
  {
    hide ThreadOk, Delivered;
    ReachableKeeps(limits, s);
    if s.phase.result.status == P.Succeeded {
      SuccessLeavesNoEvent(limits, s);
      ExitedIsDelivered(limits, s, Pump);
      ExitedIsDelivered(limits, s, ProducerStderr);
      ExitedIsDelivered(limits, s, ConsumerStdout);
      ExitedIsDelivered(limits, s, ConsumerStderr);
      DeliveredAccepted(limits.stream, s.pump, s.pump.count);
    }
  }

  lemma DeliveredAccepted(limit: nat, t: Thread, bytes: nat)
    requires Delivered(limit, t, bytes)
    ensures t.accepted == t.read
  {
  }

  // ---------- runs step by step ----------

  lemma {:induction false} RunSnoc(limits: Limits, s: State, actions: seq<Action>, a: Action)
    requires Run(limits, s, actions).Some?
    ensures Run(limits, s, actions + [a]) == Step(limits, Run(limits, s, actions).value, a)
    decreases |actions|
  {
    hide Step;
    if actions == [] {
      assert [] + [a] == [a] && [a][1..] == [];
      var r := Step(limits, s, a);
      if r.Some? { assert Run(limits, r.value, []) == r; }
    } else {
      assert (actions + [a])[1..] == actions[1..] + [a];
      RunSnoc(limits, Step(limits, s, actions[0]).value, actions[1..], a);
    }
  }

  lemma ReachNext(limits: Limits, s: State, a: Action) returns (q: State)
    requires Reachable(limits, s) && Step(limits, s, a).Some?
    ensures Step(limits, s, a) == Some(q) && Reachable(limits, q)
  {
    hide Run, Step;
    var actions :| Run(limits, Start(), actions) == Some(s);
    RunSnoc(limits, Start(), actions, a);
    q := Step(limits, s, a).value;
    assert Run(limits, Start(), actions + [a]) == Some(q);
  }

  lemma ReachStart(limits: Limits)
    ensures Reachable(limits, Start())
  {
    assert Run(limits, Start(), []) == Some(Start());
  }

  // ---------- what decides the status ----------

  predicate IsProducerExit(a: Action) { a.Main? && a.m.WaitProducer? && a.m.code.Some? }

  /** The supervising loop saw the producer end. */
  predicate ProducerSeen(actions: seq<Action>) { exists i :: 0 <= i < |actions| && IsProducerExit(actions[i]) }

  predicate LimitRecorded(limits: Limits, actions: seq<Action>) {
    Run(limits, Start(), actions).Some? && P.LimitExceeded in Run(limits, Start(), actions).value.shared.failures
  }

  /** The status the event makes the loop decide on, None when the loop goes on: the caller cancels or the probe raises,
      time is up, a process ends badly, the consumer ends before the producer, or a failure is taken up. */
  function AnswerTo(a: Action, producerSeen: bool, limitRecorded: bool): (d: Option<Status>) {
    if a.ThreadStep? then None
    else match a.m
         case Ask(answer) =>
           if answer == P.IsCancelled then Some(P.Cancelled) else if answer == P.ProbeRaises then Some(P.Failed)
           else None
         case Clock(expired) => if expired then Some(P.TimedOut) else None
         case WaitProducer(code) => if Nonzero(code) then Some(P.Failed) else None
         case WaitConsumer(code) =>
           if Nonzero(code) || (code.Some? && !producerSeen) then Some(P.Failed) else None
         case TakePrecedence => Some(if limitRecorded then P.LimitExceeded else P.ConsumerRejected)
         case _ => None
  }

  function AnswerAt(limits: Limits, actions: seq<Action>, i: nat): (d: Option<Status>)
    requires i < |actions|
  {
    AnswerTo(actions[i], ProducerSeen(actions[..i]), LimitRecorded(limits, actions[..i]))
  }

  /** The event makes the loop answer something other than LIMIT_EXCEEDED. */
  predicate Preempts(a: Action, producerSeen: bool, limitRecorded: bool) {
    var d := AnswerTo(a, producerSeen, limitRecorded);
    d.Some? && d.value != P.LimitExceeded
  }

  /** No event answered if there is no status; otherwise exactly one did, and the status is its answer. */
  predicate Answered(limits: Limits, actions: seq<Action>, status: Option<Status>) {
    && (forall i :: 0 <= i < |actions| && AnswerAt(limits, actions, i).Some? ==> AnswerAt(limits, actions, i) == status)
    && (forall i, j :: 0 <= i < j < |actions| ==>
          AnswerAt(limits, actions, i).None? || AnswerAt(limits, actions, j).None?)
    && (status.Some? ==> exists i :: 0 <= i < |actions| && AnswerAt(limits, actions, i) == status)
  }

  /** How the loop's own variables remember the events so far. */
  predicate Remembers(s: State, producerSeen: bool) {
    && (InLoop(s.phase) ==> s.status == None && (s.producerExit.Some? <==> producerSeen))
    && (s.phase == WaitingProducer ==> s.producerExit == None)
  }

  lemma StepRemembers(s: State, a: MainAction, producerSeen: bool)
    requires Remembers(s, producerSeen) && StepMain(s, a).Some?
    ensures var q := StepMain(s, a).value;
            var d := AnswerTo(Main(a), producerSeen, P.LimitExceeded in s.shared.failures);
            && Remembers(q, producerSeen || IsProducerExit(Main(a)))
            && q.status == (if d.Some? then d else s.status) && (d.Some? ==> s.status == None)
  {
  }

  lemma ThreadsForgetNothing(limits: Limits, s: State, who: Who, t: ThreadAction, producerSeen: bool)
    requires Remembers(s, producerSeen) && Step(limits, s, ThreadStep(who, t)).Some?
    ensures Remembers(Step(limits, s, ThreadStep(who, t)).value, producerSeen)
    ensures Step(limits, s, ThreadStep(who, t)).value.status == s.status
  {
    hide StepThread;
  }

  lemma ProducerSeenSnoc(actions: seq<Action>, a: Action)
    ensures ProducerSeen(actions + [a]) <==> ProducerSeen(actions) || IsProducerExit(a)
  {
    hide IsProducerExit;
    var more := actions + [a];
    assert more[|actions|] == a;
    if ProducerSeen(actions) {
      var i :| 0 <= i < |actions| && IsProducerExit(actions[i]);
      assert more[i] == actions[i];
    }
    if ProducerSeen(more) {
      var i :| 0 <= i < |more| && IsProducerExit(more[i]);
      if i < |actions| { assert more[i] == actions[i]; }
    }
  }

  lemma AnswerAtSnoc(limits: Limits, actions: seq<Action>, a: Action, i: nat)
    requires i <= |actions|
    ensures AnswerAt(limits, actions + [a], i)
         == if i < |actions| then AnswerAt(limits, actions, i)
            else AnswerTo(a, ProducerSeen(actions), LimitRecorded(limits, actions))
  {
    hide AnswerTo, ProducerSeen, LimitRecorded;
    assert (actions + [a])[..i] == actions[..i];
    if i == |actions| { assert actions[..i] == actions; }
  }

  lemma AnsweredSnoc(limits: Limits, actions: seq<Action>, a: Action, before: Option<Status>)
    requires Answered(limits, actions, before)
    requires AnswerTo(a, ProducerSeen(actions), LimitRecorded(limits, actions)).Some? ==> before == None
    ensures var d := AnswerTo(a, ProducerSeen(actions), LimitRecorded(limits, actions));
            Answered(limits, actions + [a], if d.Some? then d else before)
  {
    hide AnswerTo, ProducerSeen, LimitRecorded, AnswerAt;
    var more, d := actions + [a], AnswerTo(a, ProducerSeen(actions), LimitRecorded(limits, actions));
    var after := if d.Some? then d else before;
    forall i | 0 <= i < |more|
      ensures AnswerAt(limits, more, i) == if i < |actions| then AnswerAt(limits, actions, i) else d
    {
      AnswerAtSnoc(limits, actions, a, i);
    }
    if before.Some? {
      var i :| 0 <= i < |actions| && AnswerAt(limits, actions, i) == before;
      assert AnswerAt(limits, more, i) == after;
    } else if after.Some? {
      assert AnswerAt(limits, more, |actions|) == after;
    }
  }

  lemma {:induction false} RunPrefix(limits: Limits, s: State, actions: seq<Action>, a: Action)
    requires Run(limits, s, actions + [a]).Some?
    ensures Run(limits, s, actions).Some?
    decreases |actions|
  {
    hide Step;
    if actions != [] {
      assert (actions + [a])[1..] == actions[1..] + [a];
      RunPrefix(limits, Step(limits, s, actions[0]).value, actions[1..], a);
    }
  }

  lemma {:induction false} RunRemembers(limits: Limits, actions: seq<Action>, s: State)
    requires Run(limits, Start(), actions) == Some(s)
    ensures Remembers(s, ProducerSeen(actions)) && Answered(limits, actions, s.status)
    decreases |actions|
  {
    hide Run, Step, AnswerTo, IsProducerExit, Remembers, ProducerSeen, Answered;
    if actions == [] {
      NothingHappened(limits, s);
    } else {
      var front, a := actions[..|actions| - 1], actions[|actions| - 1];
      assert front + [a] == actions;
      RunPrefix(limits, Start(), front, a);
      RunSnoc(limits, Start(), front, a);
      var before := Run(limits, Start(), front).value;
      RunRemembers(limits, front, before);
      ProducerSeenSnoc(front, a);
      match a {
        case ThreadStep(who, t) =>
          NoEvent(who, t, ProducerSeen(front), LimitRecorded(limits, front));
          ThreadsForgetNothing(limits, before, who, t, ProducerSeen(front));
        case Main(m) =>
          MainStepIs(limits, before, m);
          StepRemembers(before, m, ProducerSeen(front));
      }
      AnsweredSnoc(limits, front, a, before.status);
    }
  }

  lemma NoEvent(who: Who, t: ThreadAction, producerSeen: bool, limitRecorded: bool)
    ensures !IsProducerExit(ThreadStep(who, t)) && AnswerTo(ThreadStep(who, t), producerSeen, limitRecorded) == None
  {
  }

  lemma MainStepIs(limits: Limits, s: State, m: MainAction)
    ensures Step(limits, s, Main(m)) == StepMain(s, m)
  {
  }

  lemma NothingHappened(limits: Limits, s: State)
    requires Run(limits, Start(), []) == Some(s)
    ensures Remembers(s, ProducerSeen([])) && Answered(limits, [], s.status)
  {
    assert s == Start();
    assert !ProducerSeen([]);
  }

  /** When both processes were brought down, the events decide the status: at most one of them made the loop answer, and
      then that answer is the status; if none did, the failures the threads recorded decide by precedence, and if there
      are none, the exit codes. */
  lemma EventsDecide(limits: Limits, actions: seq<Action>, s: State)
    requires Run(limits, Start(), actions) == Some(s) && s.phase.Returned? && !s.terminationFailed
    ensures forall i :: 0 <= i < |actions| && AnswerAt(limits, actions, i).Some? ==>
              s.phase.result.status == AnswerAt(limits, actions, i).value
    ensures forall i, j :: 0 <= i < j < |actions| ==>
              AnswerAt(limits, actions, i).None? || AnswerAt(limits, actions, j).None?
    ensures (forall i :: 0 <= i < |actions| ==> AnswerAt(limits, actions, i).None?) ==>
              s.phase.result.status
              == if P.LimitExceeded in s.shared.failures then P.LimitExceeded
                 else if s.shared.failures != [] then P.ConsumerRejected
                 else if s.phase.result.producerExit == Some(0) && s.phase.result.consumerExit == Some(0)
                 then P.Succeeded else P.Failed
    ensures AllExited(s)
  {
    hide ThreadOk, Run, AnswerAt;
    assert Reachable(limits, s);
    ReachableKeeps(limits, s);
    RunRemembers(limits, actions, s);
  }

  /** When both processes were brought down and LIMIT_EXCEEDED was recorded, it decides the status exactly when
      nothing made the loop answer otherwise before: unlike `run`, this call does not let a late limit failure
      override that. */
  lemma LateLimitLosesToTheLoop(limits: Limits, actions: seq<Action>, s: State)
    requires Run(limits, Start(), actions) == Some(s) && s.phase.Returned? && !s.terminationFailed
    requires P.LimitExceeded in s.shared.failures
    ensures s.phase.result.status == P.LimitExceeded
       <==> forall i :: 0 <= i < |actions| ==>
              !Preempts(actions[i], ProducerSeen(actions[..i]), LimitRecorded(limits, actions[..i]))
  {
    hide Run, ProducerSeen, LimitRecorded, AnswerTo, AllExited;
    EventsDecide(limits, actions, s);
    forall i | 0 <= i < |actions|
      ensures Preempts(actions[i], ProducerSeen(actions[..i]), LimitRecorded(limits, actions[..i]))
         <==> AnswerAt(limits, actions, i).Some? && AnswerAt(limits, actions, i).value != P.LimitExceeded
    {
    }
    if i :| 0 <= i < |actions| && AnswerAt(limits, actions, i).Some? {
      assert s.phase.result.status == AnswerAt(limits, actions, i).value;
    }
  }

  // ---------- a run in which the late limit loses ----------

  /** The pump holds one byte more than the stream may have, the caller cancels, and the pump records the limit. */
  lemma LimitAfterCancel(limits: Limits) returns (s: State)
    requires limits == Limits(0, 0, 0, 0)
    ensures Reachable(limits, s)
    ensures s == Start().(pump := Thread(true, Exited, 1, [[0]], [], [], [], false, false), phase := Breaking,
                          shared := P.Shared([P.LimitExceeded], true), status := Some(P.Cancelled))
  {
    hide Reachable;
    s := Start();
    ReachStart(limits);
    s := ReachNext(limits, s, ThreadStep(Pump, Look));
    s := ReachNext(limits, s, ThreadStep(Pump, ReadChunk([0])));
    s := ReachNext(limits, s, Main(Loop));
    s := ReachNext(limits, s, Main(Ask(P.IsCancelled)));
    s := ReachNext(limits, s, ThreadStep(Pump, Count));
    s := ReachNext(limits, s, ThreadStep(Pump, Record));
    assert s.shared.failures == [P.LimitExceeded];
    s := ReachNext(limits, s, ThreadStep(Pump, CloseInput(true)));
  }

  lemma OthersLeave(limits: Limits) returns (s: State)
    requires limits == Limits(0, 0, 0, 0)
    ensures Reachable(limits, s) && AllExited(s) && s.phase == Draining && !s.terminationFailed
    ensures s.shared == P.Shared([P.LimitExceeded], true) && s.status == Some(P.Cancelled)
  {
    hide Reachable;
    s := LimitAfterCancel(limits);
    s := ReachNext(limits, s, Main(StopAll(true)));
    s := ReachNext(limits, s, ThreadStep(ProducerStderr, Look));
    s := ReachNext(limits, s, ThreadStep(ConsumerStdout, Look));
    s := ReachNext(limits, s, ThreadStep(ConsumerStderr, Look));
  }

  /** The caller cancels while the pump is over its limit: LIMIT_EXCEEDED is recorded, both processes come down, and the
      call still answers CANCELLED. */
  lemma CancelledDespiteLimit() returns (s: State)
    ensures Reachable(Limits(0, 0, 0, 0), s) && s.phase.Returned? && !s.terminationFailed
    ensures P.LimitExceeded in s.shared.failures && s.phase.result.status == P.Cancelled
  {
    hide Reachable, StepThread;
    var limits := Limits(0, 0, 0, 0);
    s := OthersLeave(limits);
    s := ReachNext(limits, s, Main(WaitBoth(Some(0), Some(0))));
    s := ReachNext(limits, s, Main(Join(false)));
    s := ReachNext(limits, s, Main(Decide));
    s := ReachNext(limits, s, Main(Report));
  }
}
