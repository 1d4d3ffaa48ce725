/**
The handoff of a listing: the thread that reads the tool's standard output puts chunks into a queue of one slot, a
parser worker takes them out, and the supervising call closes the queue with a sentinel once the runner has returned.
The runner is either of the two process pumps, taking its own steps in between; a run of the whole is any
interleaving.
*/
module Handoff {
  import opened Prelude
  import opened SltMachine
  import opened SltDriver
  import opened SltResults
  import S = SltFields
  import P = ProcessPump
  import D = Duplex
  import W = WrapperRun
  import G = TarGrammar
  import L = Lifecycle

  // ---------- the runner ----------

  /** The process pump inside the runner: one process, or a producer and an inner process whose output is parsed. */
  datatype Job = Plain(p: P.State) | Wrapped(w: D.State)

  datatype JobAction = PlainStep(p: P.Action) | WrappedStep(w: D.Action)

  datatype Setup = Setup(env: Env, table: CaseTable, shapes: map<FormatCase, seq<Shape>>, supported: bool,
                         plain: P.Limits, wrapped: D.Limits, sha: seq<byte> -> Sha256)

  function JobStep(setup: Setup, job: Job, a: JobAction): (r: Option<Job>) {
    match (job, a)
    case (Plain(p), PlainStep(pa)) =>
      (match P.Step(setup.plain, p, pa)
       case None => None
       case Some(q) => Some(Plain(q)))
    case (Wrapped(w), WrappedStep(wa)) =>
      (match W.Step(setup.wrapped, setup.sha, w, wa)
       case None => None
       case Some(q) => Some(Wrapped(q)))
    case _ => None
  }

  ghost predicate JobReachable(setup: Setup, job: Job) {
    match job
    case Plain(p) => P.Reachable(setup.plain, p)
    case Wrapped(w) => W.Reachable(setup.wrapped, setup.sha, w)
  }

  /** The chunk whose consumer call is in progress. */
  function Calling(job: Job): (c: Option<seq<byte>>) {
    match job
    case Plain(p) => if p.out.pc.Consuming? then Some(p.out.pc.chunk) else None
    case Wrapped(w) => if w.consumerStdout.pc.Consuming? then Some(w.consumerStdout.pc.chunk) else None
  }

  function Accepted(job: Job): (chunks: seq<seq<byte>>) {
    match job
    case Plain(p) => p.out.accepted
    case Wrapped(w) => w.consumerStdout.accepted
  }

  function ReadSoFar(job: Job): (chunks: seq<seq<byte>>) {
    match job
    case Plain(p) => p.out.read
    case Wrapped(w) => w.consumerStdout.read
  }

  predicate AtEnd(job: Job) {
    match job
    case Plain(p) => p.out.eof
    case Wrapped(w) => w.consumerStdout.eof
  }

  predicate Succeeded(job: Job) {
    match job
    case Plain(p) => p.phase.Returned? && p.phase.result.status == P.Succeeded
    case Wrapped(w) => w.phase.Returned? && w.phase.result.status == P.Succeeded
  }

  /** What became of the process, None while it is running or when it was never started. */
  function ProcessEnd(p: P.State): (c: Option<L.Call<P.ProcessResult>>) {
    match p.phase case Returned(r) => Some(L.Answer(r)) case Raised => Some(L.Raises) case _ => None
  }

  function DuplexEnd(w: D.State): (c: Option<L.Call<D.DuplexResult>>) {
    match w.phase case Returned(r) => Some(L.Answer(r)) case Raised => Some(L.Raises) case _ => None
  }

  function FrameOf(w: D.State, sha: seq<byte> -> Sha256): (f: L.FrameEnd) {
    L.FrameEnd(W.FrameResultOf(w, sha), W.TerminalOf(w, sha))
  }

  /** The answers of a runner: busy or refusing before its process starts, otherwise what the lifecycle makes of the
      way the process ended; while the process runs it does not return. */
  predicate CanReturn(setup: Setup, job: Job, run: L.RunStatus) {
    match job
    case Plain(p) => if p == P.Start() then run == L.PolicyRejected || L.RunAnswers(None, run)
                     else ProcessEnd(p).Some? && L.RunAnswers(ProcessEnd(p), run)
    case Wrapped(w) => var frame := FrameOf(w, setup.sha);
                       if w == D.Start() then run == L.PolicyRejected || L.WrapperAnswers(None, frame, run)
                       else DuplexEnd(w).Some? && L.WrapperAnswers(DuplexEnd(w), frame, run)
  }

  lemma CompletedSucceeded(setup: Setup, job: Job)
    requires CanReturn(setup, job, L.Completed)
    ensures Succeeded(job)
  {
    hide FrameOf;
  }

  /** The answer a step returns from the consumer of the parsed output, if it is such a step. */
  function Answered(a: JobAction): (r: Option<bool>) {
    match a
    case PlainStep(OutReader(Consumed(ok))) => Some(ok)
    case WrappedStep(ThreadStep(ConsumerStdout, Consumed(ok))) => Some(ok)
    case _ => None
  }

  /** A step of the runner either leaves the consumer call alone, begins one, or ends it with its answer. */
  lemma JobStepEffect(setup: Setup, job: Job, a: JobAction)
    requires JobStep(setup, job, a).Some?
    ensures var q := JobStep(setup, job, a).value;
            match Answered(a)
            case None => Accepted(q) == Accepted(job) && (Calling(job).Some? ==> Calling(q) == Calling(job))
            case Some(ok) =>
              Calling(job).Some? && Calling(q).None?
              && Accepted(q) == (if ok then Accepted(job) + [Calling(job).value] else Accepted(job))
  {
  }

  lemma JobStepReaches(setup: Setup, job: Job, a: JobAction)
    requires JobReachable(setup, job) && JobStep(setup, job, a).Some?
    ensures JobReachable(setup, JobStep(setup, job, a).value)
  {
    hide P.Step, W.Step, P.Reachable, W.Reachable;
    match (job, a)
    case (Plain(p), PlainStep(pa)) => var _ := P.ReachNext(setup.plain, p, pa);
    case (Wrapped(w), WrappedStep(wa)) => var _ := W.ReachNext(setup.wrapped, setup.sha, w, wa);
    case _ =>
  }

  /** A runner that succeeded has every chunk of the complete output accepted and takes no further step. */
  lemma SucceededIsFinal(setup: Setup, job: Job)
    requires JobReachable(setup, job) && Succeeded(job)
    ensures AtEnd(job) && Accepted(job) == ReadSoFar(job) && Calling(job).None?
    ensures forall a :: JobStep(setup, job, a).None?
  {
    hide P.Reachable, D.Reachable, W.Reachable;
    match job
    case Plain(p) => PlainIsFinal(setup.plain, p);
    case Wrapped(w) =>
      W.ReachableKeeps(setup.wrapped, setup.sha, w);
      WrappedIsFinal(setup.wrapped, w);
  }

  lemma PlainIsFinal(limits: P.Limits, p: P.State)
    requires P.Reachable(limits, p) && p.phase.Returned? && p.phase.result.status == P.Succeeded
    ensures p.out.eof && p.out.accepted == p.out.read && p.out.pc.Exited?
    ensures forall a :: P.Step(limits, p, a).None?
  {
    hide P.Reachable, P.ReaderInv, P.ReaderReason, P.SharedInv;
    P.SucceededMeansComplete(limits, p);
    P.ReachableKeeps(limits, p);
  }

  lemma WrappedIsFinal(limits: D.Limits, w: D.State)
    requires D.Reachable(limits, w) && w.phase.Returned? && w.phase.result.status == P.Succeeded
    ensures w.consumerStdout.eof && w.consumerStdout.accepted == w.consumerStdout.read && w.consumerStdout.pc.Exited?
    ensures forall a :: D.Step(limits, w, a).None?
  {
    hide D.Reachable, D.ThreadInv, D.ThreadReason, D.SharedInv;
    D.SucceededMeansComplete(limits, w);
    D.ReachableKeeps(limits, w);
    D.SuccessLeavesNoEvent(limits, w);
  }

  // ---------- the queue, the worker, the call ----------

  datatype Item = Bytes(chunk: seq<byte>) | Sentinel

  /** Where the consumer call stands: none, before its look at `done`, before its `put`, or about to answer. */
  datatype Put = Idle | Looking(chunk: seq<byte>) | Putting(chunk: seq<byte>) | Answering(ok: bool)

  /** The worker: parsing, or finished and about to look at `runner_active`, about to set `done`, or gone. */
  datatype Worker = Parsing(drive: Drive) | Flagging | Marking | Gone

  datatype Phase = Launching | Running | Closing(run: L.RunStatus) | ClosingPut(run: L.RunStatus)
                 | Joining(run: L.RunStatus)
                 | Ended(run: L.RunStatus) | RaisedOut

  datatype State = State(job: Job, put: Put, slot: Option<Item>, worker: Worker, got: seq<seq<byte>>, sawEnd: bool,
                         parsed: Option<S.Result<LockedResult>>, done: bool, runnerActive: bool, parserTerminal: bool,
                         phase: Phase)

  datatype Action =
    | Activate
    | JobActs(a: JobAction)
    | PutLook
    | PutTry
    | RefuseAtOnce                       // the worker finds the signature unsupported
    | Take
    | Flag
    | Mark
    | RunnerReturns(run: L.RunStatus)
    | CloseLook
    | CloseTry
    | Join(alive: bool)

  /** The result of the worker's parse when the queue held exactly these chunks. */
  function ParseChunks(setup: Setup, chunks: seq<seq<byte>>): (r: S.Result<LockedResult>) {
    EndOf(setup, DriveChunks(setup.env, LockedForm, StartDrive(LockedForm, setup.table), chunks))
  }

  function EndOf(setup: Setup, d: Drive): (r: S.Result<LockedResult>) {
    match DriveEnd(setup.env, LockedForm, d)
    case Refused(s) => S.Refused(s)
    case Ok(core) => LockedEnd(setup.table, setup.shapes, core)
  }

  function Took(setup: Setup, s: State, drive: Drive): (q: State)
    requires s.slot.Some?
  {
    match s.slot.value
    case Bytes(c) =>
      var next := DriveChunk(setup.env, LockedForm, drive, c);
      var after := s.(slot := None, got := s.got + [c]);
      (match next
       case Halted(status) => after.(worker := Flagging, parsed := Some(S.Refused(status)))
       case Driving(_, _, _, _, _) => after.(worker := Parsing(next)))
    case Sentinel => s.(slot := None, sawEnd := true, worker := Flagging, parsed := Some(EndOf(setup, drive)))
  }

  function Step(setup: Setup, s: State, a: Action): (r: Option<State>) {
    match a
    case Activate => if s.phase == Launching then Some(s.(phase := Running, runnerActive := true)) else None
    case JobActs(ja) =>
      if s.phase == Launching || (Answered(ja).Some? && s.put != Answering(Answered(ja).value)) then None
      else (match JobStep(setup, s.job, ja)
            case None => None
            case Some(job) =>
              if Answered(ja).Some? then Some(s.(job := job, put := Idle))
              else if Calling(s.job).None? && Calling(job).Some?
              then Some(s.(job := job, put := Looking(Calling(job).value)))
              else Some(s.(job := job)))
    case PutLook =>
      if !s.put.Looking? then None else Some(s.(put := if s.done then Answering(false) else Putting(s.put.chunk)))
    case PutTry =>
      if !s.put.Putting? then None
      else if s.slot.None? then Some(s.(slot := Some(Bytes(s.put.chunk)), put := Answering(true)))
      else Some(s.(put := Looking(s.put.chunk)))
    case RefuseAtOnce =>
      if setup.supported || !s.worker.Parsing? then None
      else Some(s.(worker := Flagging, parsed := Some(S.Refused(S.GrammarRejected))))
    case Take =>
      if setup.supported && s.worker.Parsing? && s.slot.Some? then Some(Took(setup, s, s.worker.drive)) else None
    case Flag =>
      if s.worker.Flagging? then Some(s.(worker := Marking, parserTerminal := s.parserTerminal || s.runnerActive))
      else None
    case Mark => if s.worker.Marking? then Some(s.(worker := Gone, done := true)) else None
    case RunnerReturns(run) =>
      if s.phase == Running && CanReturn(setup, s.job, run)
      then Some(s.(phase := Closing(run), runnerActive := false)) else None
    case CloseLook =>
      if !s.phase.Closing? then None
      else Some(s.(phase := if s.done then Joining(s.phase.run) else ClosingPut(s.phase.run)))
    case CloseTry =>
      if !s.phase.ClosingPut? then None
      else if s.slot.None? then Some(s.(slot := Some(Sentinel), phase := Joining(s.phase.run)))
      else Some(s.(phase := Closing(s.phase.run)))
    case Join(alive) =>
      if !s.phase.Joining? then None
      else if alive || s.parsed.None? then Some(s.(phase := RaisedOut))
      else if s.worker.Gone? then Some(s.(phase := Ended(s.phase.run)))
      else None
  }

  function Start(setup: Setup, wrapped: bool): (s: State) {
    State(if wrapped then Wrapped(D.Start()) else Plain(P.Start()), Idle, None,
          Parsing(StartDrive(LockedForm, setup.table)),
          [], false, None, false, false, false, Launching)
  }

  function Run(setup: Setup, s: State, actions: seq<Action>): (r: Option<State>)
    decreases |actions|
  {
    if actions == [] then Some(s)
    else match Step(setup, s, actions[0])
         case None => None
         case Some(next) => Run(setup, next, actions[1..])
  }

  // ---------- what every step keeps ----------

  predicate PutMatches(job: Job, put: Put) {
    match Calling(job)
    case None => put == Idle
    case Some(c) => put == Looking(c) || put == Putting(c) || put.Answering?
  }

  /** The chunks that went through the consumer's `put`, the one of a call about to answer included. */
  function Delivered(job: Job, put: Put): (chunks: seq<seq<byte>>) {
    if put == Answering(true) && Calling(job).Some? then Accepted(job) + [Calling(job).value] else Accepted(job)
  }

  function Waiting(slot: Option<Item>): (chunks: seq<seq<byte>>) {
    if slot.Some? && slot.value.Bytes? then [slot.value.chunk] else []
  }

  predicate BeforeSentinel(p: Phase) { p.Launching? || p.Running? || p.Closing? || p.ClosingPut? }

  predicate CompletedRun(p: Phase) {
    (p.Closing? || p.ClosingPut? || p.Joining? || p.Ended?) && p.run == L.Completed
  }

  /** A parsing worker stands where the chunks it took lead; a finished one has a result, a good one only behind the
      sentinel and then the parse of exactly the chunks it took. */
  predicate WorkerInv(setup: Setup, worker: Worker, got: seq<seq<byte>>, sawEnd: bool,
                      parsed: Option<S.Result<LockedResult>>, done: bool)
  {
    && (worker.Parsing? ==>
          && worker.drive == DriveChunks(setup.env, LockedForm, StartDrive(LockedForm, setup.table), got)
          && worker.drive.Driving? && parsed.None? && !sawEnd && !done)
    && (!worker.Parsing? ==> parsed.Some?)
    && (parsed.Some? && parsed.value.Ok? ==> sawEnd && parsed.value == ParseChunks(setup, got))
  }

  predicate WorkerOk(setup: Setup, s: State) { WorkerInv(setup, s.worker, s.got, s.sawEnd, s.parsed, s.done) }

  /** Nothing is lost, repeated or reordered on the way: what was put is what was taken and what waits. */
  predicate NothingLost(s: State) { Delivered(s.job, s.put) == s.got + Waiting(s.slot) }

  /** Behind a completed run the sentinel is the last to come. */
  predicate QueueInv(s: State) {
    && NothingLost(s)
    && (BeforeSentinel(s.phase) ==> s.slot != Some(Sentinel) && !s.sawEnd)
    && (CompletedRun(s.phase) && !BeforeSentinel(s.phase) ==>
          && (s.worker.Parsing? && s.slot.Some? ==> s.slot == Some(Sentinel))
          && (s.sawEnd ==> s.slot == None))
  }

  ghost predicate Inv(setup: Setup, s: State) {
    && JobReachable(setup, s.job)
    && PutMatches(s.job, s.put) && WorkerOk(setup, s) && QueueInv(s)
    && (CompletedRun(s.phase) ==> Succeeded(s.job))
    && (s.phase.Ended? ==> s.parsed.Some?)
  }

  lemma TakeKeeps(setup: Setup, s: State)
    requires WorkerOk(setup, s) && s.worker.Parsing? && s.slot.Some?
    ensures WorkerOk(setup, Took(setup, s, s.worker.drive))
  {
    hide DriveChunk, LockedEnd, DriveEnd, DriveChunks;
    if s.slot.value.Bytes? {
      DriveSnoc(setup.env, LockedForm, StartDrive(LockedForm, setup.table), s.got, s.slot.value.chunk);
    }
  }

  lemma TakeKeepsQueue(setup: Setup, s: State)
    requires WorkerOk(setup, s) && QueueInv(s) && s.worker.Parsing? && s.slot.Some?
    ensures QueueInv(Took(setup, s, s.worker.drive))
  {
    hide DriveChunk, LockedEnd, DriveEnd, DriveChunks;
    var q := Took(setup, s, s.worker.drive);
    assert s.got + Waiting(s.slot) == q.got + Waiting(q.slot);
  }

  lemma JobKeeps(setup: Setup, s: State, ja: JobAction)
    requires Inv(setup, s) && Step(setup, s, JobActs(ja)).Some?
    ensures Inv(setup, Step(setup, s, JobActs(ja)).value)
  {
    hide JobReachable, DriveChunks, JobStep, Took, CanReturn, ParseChunks;
    var q := Step(setup, s, JobActs(ja)).value;
    JobStepEffect(setup, s.job, ja);
    JobStepReaches(setup, s.job, ja);
    if CompletedRun(s.phase) {
      SucceededIsFinal(setup, s.job);
    }
  }

  lemma PutKeeps(setup: Setup, s: State, a: Action)
    requires Inv(setup, s) && (a == PutLook || a == PutTry) && Step(setup, s, a).Some?
    ensures Inv(setup, Step(setup, s, a).value)
  {
    hide JobReachable, DriveChunks, Took, JobStep, Answered, ParseChunks;
    if CompletedRun(s.phase) {
      SucceededIsFinal(setup, s.job);
    }
  }

  lemma WorkerKeeps(setup: Setup, s: State, a: Action)
    requires Inv(setup, s) && (a == RefuseAtOnce || a == Flag || a == Mark) && Step(setup, s, a).Some?
    ensures Inv(setup, Step(setup, s, a).value)
  {
    hide JobReachable, DriveChunks, ParseChunks, EndOf, DriveEnd, LockedEnd, Calling, Accepted, ReadSoFar, AtEnd,
         Succeeded;
  }

  lemma DoneIsNotParsing(setup: Setup, s: State)
    requires WorkerOk(setup, s)
    ensures s.done ==> !s.worker.Parsing?
    ensures s.parsed.None? ==> s.worker.Parsing?
  {
    hide DriveChunks, ParseChunks;
  }

  lemma CallKeeps(setup: Setup, s: State, a: Action)
    requires Inv(setup, s) && (a == Activate || a.RunnerReturns?) && Step(setup, s, a).Some?
    ensures Inv(setup, Step(setup, s, a).value)
  {
    hide JobReachable, WorkerInv, PutMatches, Delivered, Accepted, Succeeded, CanReturn, Took, JobStep, Calling,
         Answered;
    if a == RunnerReturns(L.Completed) && CanReturn(setup, s.job, L.Completed) {
      CompletedSucceeded(setup, s.job);
    }
  }

  lemma JoinKeeps(setup: Setup, s: State, a: Action)
    requires Inv(setup, s) && (a == CloseLook || a.Join?) && Step(setup, s, a).Some?
    ensures Inv(setup, Step(setup, s, a).value)
  {
    hide JobReachable, WorkerInv, PutMatches, Delivered, Accepted, Succeeded, Took, JobStep, Calling, Answered;
    DoneIsNotParsing(setup, s);
  }

  /** The sentinel goes into an empty slot; behind a completed run nothing else is on its way. */
  lemma CloseKeeps(setup: Setup, s: State)
    requires Inv(setup, s) && Step(setup, s, CloseTry).Some?
    ensures Inv(setup, Step(setup, s, CloseTry).value)
  {
    hide JobReachable, WorkerInv, Calling, Accepted, ReadSoFar, AtEnd, Succeeded, Took, JobStep, Answered;
    if CompletedRun(s.phase) {
      SucceededIsFinal(setup, s.job);
    }
  }

  lemma StepKeeps(setup: Setup, s: State, a: Action)
    requires Inv(setup, s) && Step(setup, s, a).Some?
    ensures Inv(setup, Step(setup, s, a).value)
  {
    hide JobReachable, DriveChunks;
    match a
    case JobActs(ja) => JobKeeps(setup, s, ja);
    case PutLook => PutKeeps(setup, s, a);
    case PutTry => PutKeeps(setup, s, a);
    case Take =>
      TakeKeeps(setup, s);
      TakeKeepsQueue(setup, s);
    case RefuseAtOnce => WorkerKeeps(setup, s, a);
    case Flag => WorkerKeeps(setup, s, a);
    case Mark => WorkerKeeps(setup, s, a);
    case CloseTry => CloseKeeps(setup, s);
    case CloseLook => JoinKeeps(setup, s, a);
    case Join(_) => JoinKeeps(setup, s, a);
    case _ => CallKeeps(setup, s, a);
  }

  lemma StartKeeps(setup: Setup, wrapped: bool)
    ensures Inv(setup, Start(setup, wrapped))
  {
    P.ReachStart(setup.plain);
    W.ReachStart(setup.wrapped, setup.sha);
  }

  lemma {:induction false} RunKeeps(setup: Setup, s: State, actions: seq<Action>, end: State)
    requires Inv(setup, s) && Run(setup, s, actions) == Some(end)
    ensures Inv(setup, end)
    decreases |actions|
  {
    hide Inv, Step;
    if actions != [] {
      StepKeeps(setup, s, actions[0]);
      RunKeeps(setup, Step(setup, s, actions[0]).value, actions[1..], end);
    }
  }

  ghost predicate Reachable(setup: Setup, s: State) {
    exists wrapped, actions :: Run(setup, Start(setup, wrapped), actions) == Some(s)
  }

  lemma ReachableKeeps(setup: Setup, s: State)
    requires Reachable(setup, s)
    ensures Inv(setup, s)
  {
    hide Run, Inv;
    var wrapped, actions :| Run(setup, Start(setup, wrapped), actions) == Some(s);
    StartKeeps(setup, wrapped);
    RunKeeps(setup, Start(setup, wrapped), actions, s);
  }

  // ---------- the theorems ----------

  datatype ListingStatus = Listed | ToolFailed | LimitExceeded | TimedOut | ToolUnavailable | PolicyRejected

  function StatusOf(parsed: S.Result<LockedResult>): (s: S.Status) {
    match parsed
    case Ok(_) => S.Parsed
    case Refused(status) => status
  }

  /** `_listing_status`. */
  function ListingStatusOf(run: L.RunStatus, parsed: S.Status, parserTerminal: bool): (r: ListingStatus) {
    match run
    case Cancelled => ToolFailed
    case ToolFailed => ToolFailed
    case LimitExceeded => LimitExceeded
    case TimedOut => TimedOut
    case ToolUnavailable => ToolUnavailable
    case Completed =>
      if parsed == S.LimitExceeded then LimitExceeded else if parsed != S.Parsed then ToolFailed else Listed
    case PolicyRejected =>
      if parserTerminal && parsed == S.LimitExceeded then LimitExceeded
      else if parserTerminal && parsed != S.Parsed then ToolFailed
      else PolicyRejected
  }

  /** In every state of every interleaving the chunks put are exactly the chunks the worker took and the one that
      waits, in order: none lost, none repeated, none overtaken; and they begin what was read. */
  lemma NothingIsLostOnTheWay(setup: Setup, s: State)
    requires Reachable(setup, s)
    ensures Delivered(s.job, s.put) == s.got + Waiting(s.slot)
    ensures Accepted(s.job) <= ReadSoFar(s.job)
  {
    ReachableKeeps(setup, s);
    AcceptedWasRead(setup, s.job);
  }

  lemma AcceptedWasRead(setup: Setup, job: Job)
    requires JobReachable(setup, job)
    ensures Accepted(job) <= ReadSoFar(job)
  {
    hide P.Reachable, D.Reachable, W.Reachable;
    match job
    case Plain(p) => P.DeliveryIsBounded(setup.plain, p);
    case Wrapped(w) =>
      W.ReachableKeeps(setup.wrapped, setup.sha, w);
      D.ReachableKeeps(setup.wrapped, w);
      assert D.ThreadOk(setup.wrapped, w, D.ConsumerStdout);
  }

  /** A parse of chunks that gives a result is the parse of their bytes. */
  lemma ParseChunksIsParseBytes(setup: Setup, chunks: seq<seq<byte>>, result: LockedResult)
    requires ParseChunks(setup, chunks) == S.Ok(result)
    ensures ParseLocked(setup.env, setup.table, setup.shapes, Concat(chunks)) == Some(result)
  {
    hide DriveChunks, Finish, ParseBytes, LockedEnd;
    var start := StartDrive(LockedForm, setup.table);
    var d := DriveChunks(setup.env, LockedForm, start, chunks);
    DrivingIsWithinLimits(setup.env, LockedForm, start, chunks);
    AcceptanceIgnoresChunking(setup.env, LockedForm, setup.table, chunks, DriveEnd(setup.env, LockedForm, d).value);
  }

  /** LISTED, under every interleaving, means the runner's process succeeded and the parsed members are exactly the
      parse of its complete standard output. */
  lemma ListedIsTheWholeParse(setup: Setup, s: State) returns (result: LockedResult)
    requires Reachable(setup, s) && s.phase.Ended? && s.parsed.Some?
    requires ListingStatusOf(s.phase.run, StatusOf(s.parsed.value), s.parserTerminal) == Listed
    ensures s.parsed == Some(S.Ok(result)) && Succeeded(s.job) && AtEnd(s.job)
    ensures s.got == Accepted(s.job) == ReadSoFar(s.job)
    ensures ParseLocked(setup.env, setup.table, setup.shapes, Concat(ReadSoFar(s.job))) == Some(result)
  {
    hide Reachable, JobReachable, DriveChunks, ParseLocked, ParseChunks, EndOf, DriveEnd, LockedEnd, Calling, Accepted,
         ReadSoFar, AtEnd, Succeeded;
    ReachableKeeps(setup, s);
    SucceededIsFinal(setup, s.job);
    result := s.parsed.value.value;
    ParseChunksIsParseBytes(setup, s.got, result);
  }

  /** Behind a LISTED wrapper, moreover, the inner process was written exactly the decoder's whole output, and that
      output is a framed TAR stream. */
  lemma ListedWrapperReadTheWholeStream(setup: Setup, s: State)
    requires Reachable(setup, s) && s.phase.Ended? && s.parsed.Some? && s.job.Wrapped?
    requires ListingStatusOf(s.phase.run, StatusOf(s.parsed.value), s.parserTerminal) == Listed
    ensures var pump := s.job.w.pump;
            && pump.eof && pump.written == Concat(pump.accepted) == Concat(pump.read)
            && exists es, k :: G.Framed(pump.written, es, k)
  {
    hide Reachable, W.Reachable, DriveChunks, ParseChunks, Calling, Accepted, ReadSoFar, AtEnd, G.Framed;
    ReachableKeeps(setup, s);
    W.SucceededIsFramed(setup.wrapped, setup.sha, s.job.w);
  }
}
