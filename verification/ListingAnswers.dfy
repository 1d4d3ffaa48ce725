/**
What a listing answers, from end to end: the answer in terms of the way the process ended and of the parse of its whole
output, whatever the interleaving.
*/
module ListingAnswers {
  import opened Prelude
  import opened Utf8
  import opened SltMachine
  import opened SltDriver
  import opened SltResults
  import opened Handoff
  import opened ListingRun
  import opened ParserReason
  import opened SltLockedMembers
  import S = SltFields
  import P = ProcessPump
  import D = Duplex
  import T = TarFrame
  import L = Lifecycle

  // ---------- the way the process ended ----------

  /** The status the process of a job ended with, None when it raised, still runs or was never started. */
  function EndStatus(job: Job): (st: Option<P.Status>) {
    match job
    case Plain(p) => if p.phase.Returned? then Some(p.phase.result.status) else None
    case Wrapped(w) => if w.phase.Returned? then Some(w.phase.result.status) else None
  }

  /** The verdict on a stream that the frame consumer refused. */
  function StreamVerdict(setup: Setup, job: Job): (v: Option<T.FrameStatus>) {
    match job case Plain(_) => None case Wrapped(w) => FrameOf(w, setup.sha).terminal
  }

  /** The answer the parser's result makes of an output that nothing else objects to. */
  function ParserAnswer(parsed: S.Status): (a: ListingStatus) {
    if parsed == S.Parsed then Listed
    else if parsed == S.LimitExceeded then ListingStatus.LimitExceeded else ListingStatus.ToolFailed
  }

  /** The answer fits the way the process ended: time, cancellation and failure speak for themselves; a limit of the
      process or of the framed stream is a limit; a success is what the parser says; and a rejected output is the
      parser's refusal if it said so in time, else a matter of policy. */
  predicate AnswerFits(st: P.Status, stream: Option<T.FrameStatus>, parsed: S.Status, parserTerminal: bool,
                       answer: ListingStatus) {
    match st
    case TimedOut => answer == ListingStatus.TimedOut
    case Cancelled => answer == ListingStatus.ToolFailed
    case Failed => answer == ListingStatus.ToolFailed
    case LimitExceeded => answer == ListingStatus.LimitExceeded
    case Succeeded => answer == ParserAnswer(parsed)
    case ConsumerRejected =>
      if stream == Some(T.FrameStatus.LimitExceeded) then answer == ListingStatus.LimitExceeded
      else if stream == Some(T.FrameStatus.Invalid) then answer == ListingStatus.ToolFailed
      else if parserTerminal && parsed != S.Parsed then answer == ParserAnswer(parsed)
      else answer == ListingStatus.PolicyRejected
  }

  lemma ReturnedIsAnswered(setup: Setup, job: Job, run: L.RunStatus, parsed: S.Status, parserTerminal: bool)
    requires CanReturn(setup, job, run)
    ensures var answer := ListingStatusOf(run, parsed, parserTerminal);
            && (run == L.ToolFailed ==> answer == ListingStatus.ToolFailed)
            && (EndStatus(job).Some? && run != L.ToolFailed ==>
                  AnswerFits(EndStatus(job).value, StreamVerdict(setup, job), parsed, parserTerminal, answer))
            && (answer == Listed ==> EndStatus(job) == Some(P.Succeeded))
  {
    hide FrameOf;
  }

  /** When a call ends, the runner returned before, with what the way its process ended allows. */
  lemma {:induction false} RunnerReturned(setup: Setup, wrapped: bool, actions: seq<Action>, s: State)
    returns (k: nat, before: State)
    requires Run(setup, Start(setup, wrapped), actions) == Some(s) && PastRunner(s.phase)
    ensures k < |actions| && actions[k] == RunnerReturns(s.phase.run)
    ensures Run(setup, Start(setup, wrapped), actions[..k]) == Some(before)
    ensures before.phase == Running && CanReturn(setup, before.job, s.phase.run)
    decreases |actions|
  {
    hide Run, Step, Start, CanReturn;
    if actions == [] {
      NotPastAtStart(setup, wrapped, s);
    }
    var n := |actions| - 1;
    before := LastStep(setup, wrapped, actions, s);
    PastBefore(setup, before, actions[n], s);
    if before.phase == Running {
      k := n;
    } else {
      k, before := RunnerReturned(setup, wrapped, actions[..n], before);
      assert actions[..n][..k] == actions[..k];
    }
  }

  predicate PastRunner(p: Phase) { p.Closing? || p.ClosingPut? || p.Joining? || p.Ended? }

  lemma NotPastAtStart(setup: Setup, wrapped: bool, s: State)
    requires Run(setup, Start(setup, wrapped), []) == Some(s)
    ensures !PastRunner(s.phase)
  {
  }

  lemma PastBefore(setup: Setup, before: State, a: Action, s: State)
    requires Step(setup, before, a) == Some(s) && PastRunner(s.phase)
    ensures if before.phase == Running then a == RunnerReturns(s.phase.run) && CanReturn(setup, before.job, s.phase.run)
            else PastRunner(before.phase) && before.phase.run == s.phase.run
  {
    hide JobStep, DriveChunk, EndOf, CanReturn, Calling, Answered;
  }

  // ---------- the parse of the whole output ----------

  /** What the worker's result is of: everything it took, to the end or to the chunk that stopped the parse. */
  predicate ResultInv(setup: Setup, s: State) {
    setup.supported && s.parsed.Some? ==>
      if s.sawEnd then s.parsed.value == ParseChunks(setup, s.got)
      else var d := DriveChunks(setup.env, LockedForm, StartDrive(LockedForm, setup.table), s.got);
           d.Halted? && s.parsed.value == S.Refused(d.status)
  }

  lemma StepKeepsResult(setup: Setup, s: State, a: Action)
    requires Inv(setup, s) && ResultInv(setup, s) && Step(setup, s, a).Some?
    ensures ResultInv(setup, Step(setup, s, a).value)
  {
    hide JobReachable, JobStep, Calling, Answered, CanReturn, QueueInv, PutMatches, DriveChunks, EndOf, DriveChunk;
    if a == Take {
      TakeMakesResult(setup, s);
    } else {
      OthersKeepResult(setup, s, a);
    }
  }

  lemma OthersKeepResult(setup: Setup, s: State, a: Action)
    requires Step(setup, s, a).Some? && a != Take
    ensures var q := Step(setup, s, a).value;
            q.got == s.got && q.sawEnd == s.sawEnd && (setup.supported ==> q.parsed == s.parsed)
  {
    hide JobStep, Calling, Answered, CanReturn, Took;
  }

  lemma TakeMakesResult(setup: Setup, s: State)
    requires WorkerOk(setup, s) && s.worker.Parsing? && s.slot.Some?
    ensures ResultInv(setup, Took(setup, s, s.worker.drive))
  {
    hide DriveChunks, DriveEnd, LockedEnd, DriveChunk;
    if s.slot.value.Bytes? {
      DriveSnoc(setup.env, LockedForm, StartDrive(LockedForm, setup.table), s.got, s.slot.value.chunk);
    }
  }

  lemma {:induction false} RunKeepsResult(setup: Setup, s: State, actions: seq<Action>, end: State)
    requires Inv(setup, s) && ResultInv(setup, s) && Run(setup, s, actions) == Some(end)
    ensures ResultInv(setup, end)
    decreases |actions|
  {
    hide Inv, ResultInv, Step;
    if actions != [] {
      StepKeepsResult(setup, s, actions[0]);
      StepKeeps(setup, s, actions[0]);
      RunKeepsResult(setup, Step(setup, s, actions[0]).value, actions[1..], end);
    }
  }

  lemma HaltedEarly(env: Env, start: Drive, got: seq<seq<byte>>, rest: seq<seq<byte>>)
    requires DriveChunks(env, LockedForm, start, got).Halted?
    ensures DriveChunks(env, LockedForm, start, got + rest) == DriveChunks(env, LockedForm, start, got)
    decreases |got|
  {
    hide DriveChunk;
    if got == [] {
      assert [] + rest == rest;
      HaltedStays(env, LockedForm, start.status, rest);
    } else {
      assert (got + rest)[0] == got[0] && (got + rest)[1..] == got[1..] + rest;
      HaltedEarly(env, DriveChunk(env, LockedForm, start, got[0]), got[1..], rest);
    }
  }

  lemma HaltedParse(setup: Setup, got: seq<seq<byte>>, rest: seq<seq<byte>>)
    requires DriveChunks(setup.env, LockedForm, StartDrive(LockedForm, setup.table), got).Halted?
    ensures ParseChunks(setup, got + rest)
         == S.Refused(DriveChunks(setup.env, LockedForm, StartDrive(LockedForm, setup.table), got).status)
  {
    hide DriveChunks, LockedEnd;
    HaltedEarly(setup.env, StartDrive(LockedForm, setup.table), got, rest);
  }

  /** Behind a completed run of a supported signature the worker's result is the parse of the complete output, to the
      end or to the chunk that stopped it, and the answer is what that parse says. */
  lemma CompletedIsTheWholeParse(setup: Setup, s: State)
    requires Reachable(setup, s) && setup.supported && s.phase == Ended(L.Completed)
    ensures AtEnd(s.job) && s.parsed == Some(ParseChunks(setup, ReadSoFar(s.job)))
    ensures var answer := ListingStatusOf(L.Completed, StatusOf(s.parsed.value), s.parserTerminal);
            var parse := ParseChunks(setup, ReadSoFar(s.job));
            if parse.Ok? then answer == Listed
            else if parse.status == S.LimitExceeded then answer == ListingStatus.LimitExceeded
            else answer == ListingStatus.ToolFailed
  {
    hide Reachable, JobReachable, DriveChunks, ParseChunks, EndOf, DriveEnd, LockedEnd, Calling, Accepted, ReadSoFar,
         AtEnd, Succeeded, Run, Start;
    ReachableKeeps(setup, s);
    ReachableHasResult(setup, s);
    SucceededIsFinal(setup, s.job);
    assert Accepted(s.job) == s.got + Waiting(s.slot);
    if s.sawEnd {
      assert s.got + [] == s.got;
    } else {
      HaltedParse(setup, s.got, Waiting(s.slot));
    }
  }

  lemma ReachableHasResult(setup: Setup, s: State)
    requires Reachable(setup, s)
    ensures ResultInv(setup, s)
  {
    hide Run, Inv, ResultInv;
    var wrapped, actions :| Run(setup, Start(setup, wrapped), actions) == Some(s);
    StartKeeps(setup, wrapped);
    NoResultAtStart(setup, wrapped);
    RunKeepsResult(setup, Start(setup, wrapped), actions, s);
  }

  lemma NoResultAtStart(setup: Setup, wrapped: bool)
    ensures ResultInv(setup, Start(setup, wrapped))
  {
    hide DriveChunks, ParseChunks;
  }

  /** A chunk that takes the output over the limits of the parser, behind chunks it was content with, makes the parse a
      limit failure, whatever follows. */
  lemma OverTheParserLimit(setup: Setup, front: seq<seq<byte>>, c: seq<byte>, rest: seq<seq<byte>>)
    requires DriveChunks(setup.env, LockedForm, StartDrive(LockedForm, setup.table), front).Driving?
    requires |front| + 1 > S.MAX_CHUNKS || |c| > S.MAX_CHUNK_BYTES || |Concat(front + [c])| > S.MAX_STDOUT_BYTES
    ensures ParseChunks(setup, front + [c] + rest) == S.Refused(S.LimitExceeded)
  {
    hide DriveChunks, LockedEnd, Decode, DriveText;
    var start := StartDrive(LockedForm, setup.table);
    DriveCounts(setup.env, start, front);
    ConcatSnoc(front, c);
    DriveSnoc(setup.env, LockedForm, start, front, c);
    HaltedParse(setup, front + [c], rest);
  }

  lemma {:induction false} DriveCounts(env: Env, d: Drive, chunks: seq<seq<byte>>)
    requires d.Driving? && DriveChunks(env, LockedForm, d, chunks).Driving?
    ensures var q := DriveChunks(env, LockedForm, d, chunks);
            q.count == d.count + |chunks| && q.total == d.total + |Concat(chunks)|
    decreases |chunks|
  {
    hide DriveChunk;
    if chunks != [] {
      var next := DriveChunk(env, LockedForm, d, chunks[0]);
      if next.Halted? { HaltedStays(env, LockedForm, next.status, chunks[1..]); }
      OneCounts(env, d, chunks[0]);
      DriveCounts(env, next, chunks[1..]);
    }
  }

  lemma OneCounts(env: Env, d: Drive, c: seq<byte>)
    requires d.Driving? && DriveChunk(env, LockedForm, d, c).Driving?
    ensures var q := DriveChunk(env, LockedForm, d, c); q.count == d.count + 1 && q.total == d.total + |c|
  {
    hide Decode, FeedText, DropBom;
  }

  // ---------- the answer ----------

  /** Every call that ends answers what the way its process had ended allows when the runner returned: TOOL_FAILED when
      the runner failed, else what fits the status of the process; LISTED only behind a success. */
  lemma EveryEndIsAnswered(setup: Setup, wrapped: bool, actions: seq<Action>, s: State) returns (k: nat, before: State)
    requires Run(setup, Start(setup, wrapped), actions) == Some(s) && s.phase.Ended?
    ensures k < |actions| && actions[k] == RunnerReturns(s.phase.run)
    ensures Run(setup, Start(setup, wrapped), actions[..k]) == Some(before) && s.parsed.Some?
    ensures var answer := ListingStatusOf(s.phase.run, StatusOf(s.parsed.value), s.parserTerminal);
            && (s.phase.run == L.ToolFailed ==> answer == ListingStatus.ToolFailed)
            && (EndStatus(before.job).Some? && s.phase.run != L.ToolFailed ==>
                  AnswerFits(EndStatus(before.job).value, StreamVerdict(setup, before.job), StatusOf(s.parsed.value),
                             s.parserTerminal, answer))
            && (answer == Listed ==> EndStatus(before.job) == Some(P.Succeeded))
  {
    hide Run, Start, CanReturn, ListingStatusOf, AnswerFits, EndStatus, StreamVerdict, Inv;
    k, before := RunnerReturned(setup, wrapped, actions, s);
    RunHoldsInv(setup, wrapped, actions, s);
    EndedHasResult(setup, s);
    ReturnedIsAnswered(setup, before.job, s.phase.run, StatusOf(s.parsed.value), s.parserTerminal);
  }

  /** LISTED: the members are what the lines of the complete output say, record by record, and of no other output. */
  lemma ListedSaysTheRecords(setup: Setup, s: State) returns (result: LockedResult)
    requires Reachable(setup, s) && s.phase.Ended? && s.parsed.Some?
    requires ListingStatusOf(s.phase.run, StatusOf(s.parsed.value), s.parserTerminal) == Listed
    ensures s.parsed == Some(S.Ok(result)) && AtEnd(s.job)
    ensures exists records ::
              ReadsCase(setup.env, setup.table, Concat(ReadSoFar(s.job)), records, result.kind, result.members)
    ensures result.kind in setup.shapes && ShapesFit(setup.shapes[result.kind], result.members)
  {
    hide Reachable, ListingStatusOf, ParseLocked, ReadsCase, ShapesFit, AtEnd, ReadSoFar;
    result := ListedIsTheWholeParse(setup, s);
    LockedResultIffRead(setup.env, setup.table, setup.shapes, Concat(ReadSoFar(s.job)), result);
  }

  lemma EndedHasResult(setup: Setup, s: State)
    requires Inv(setup, s) && s.phase.Ended?
    ensures s.parsed.Some?
  {
    hide JobReachable, WorkerOk, QueueInv, PutMatches, Succeeded;
  }
}
