/**
The container lifecycle: staging, creation, inspection, a second staging check, the process, and a cleanup that must
prove every attempted container absent before it removes the staging. Every outside call answers anything or raises;
`World` holds those answers, and a ghost trace records what the runner did.
*/
module Lifecycle {
  import opened Prelude
  import P = ProcessPump
  import D = Duplex
  import T = TarFrame

  /** An outside call: an answer, or an exception. */
  datatype Call<+V> = Answer(value: V) | Raises

  datatype RunStatus = Completed | ToolUnavailable | ToolFailed | PolicyRejected | LimitExceeded | TimedOut | Cancelled

  const APPROVED_IMAGE := "ghcr.io/gecompat/foliotone-archive-7zip@sha256:26c9c2fa32f93210a46fcf6b9651006038f9e766a1d791b463ce9875815a8287"

  datatype Availability = Availability(available: bool, image: Option<string>) {
    predicate Approved() { available && image == Some(APPROVED_IMAGE) }
  }

  datatype StageAnswer = Staged | LeftBehind | StageRaises

  datatype TargetAnswers = TargetAnswers(kill: Call<bool>, remove: Call<bool>, exists_: Call<Option<bool>>)

  datatype CreateAnswers = CreateAnswers(argvBuilds: bool, create: Call<Option<string>>, inspect: Call<Option<bool>>)

  /** The answers both kinds of run ask for outside their creations and their process. */
  datatype World = World(
    cancelledFirst: Call<bool>, availability: Call<Availability>, stage: StageAnswer, cancelledStaged: Call<bool>,
    verifyFirst: Call<bool>, verifySecond: Call<bool>, cancelledCreated: Call<bool>,
    targets: nat -> TargetAnswers, afterRun: Call<bool>, cleanup: Call<bool>)

  datatype Creation = Creation(name: string, id: Option<string>) {
    /** What the cleanup addresses: the id when Docker gave one, else the name. */
    function Target(): (t: string) { if id.Some? then id.value else name }
  }

  datatype Event =
    | StagingMade
    | Verified(ok: bool)
    | Created(creation: Creation)
    | Inspected(id: string, matches: bool)
    | Started(ids: seq<string>)
    | Killed(target: string)
    | RemoveAsked(target: string)
    | AbsenceAsked(target: string, proven: bool)
    | AfterRun(ok: bool)
    | StagingRemoved(ok: bool)

  type Trace = seq<Event>

  // ---------- what a trace must satisfy ----------

  /** A start of these containers here: staging was verified before any creation, then every one of them was inspected
      and matched, then staging was verified again. */
  predicate Guarded(before: Trace, ids: seq<string>) {
    exists f, k ::
      && 0 <= f < k < |before| && before[f] == Verified(true) && before[k] == Verified(true)
      && (forall c :: 0 <= c < |before| && before[c].Created? ==> f < c)
      && (forall i :: 0 <= i < |ids| ==> exists j :: f < j < k && before[j] == Inspected(ids[i], true))
  }

  predicate StartsAreGuarded(trace: Trace) {
    forall i :: 0 <= i < |trace| && trace[i].Started? ==> Guarded(trace[..i], trace[i].ids)
  }

  predicate AbsentBetween(trace: Trace, target: string, from: int, to: int) {
    exists j :: 0 <= from < j < to <= |trace| && trace[j] == AbsenceAsked(target, true)
  }

  /** Staging is removed only once every container whose creation was attempted has been proven absent. */
  predicate RemovalFollowsAbsence(trace: Trace) {
    forall c, i :: 0 <= c < i < |trace| && trace[c].Created? && trace[i].StagingRemoved?
      ==> AbsentBetween(trace, trace[c].creation.Target(), c, i)
  }

  /** The staging was verified after the run and removed, and no attempted container is left. */
  predicate EndsClean(trace: Trace) {
    && AfterRun(true) in trace && StagingRemoved(true) in trace
    && forall c :: 0 <= c < |trace| && trace[c].Created? ==> AbsenceAsked(trace[c].creation.Target(), true) in trace
  }

  predicate Quiet(e: Event) { !e.Started? && !e.Created? && !e.StagingRemoved? && !e.Killed? }

  // ---------- the cleanup ----------

  /** `_bounded_cleanup_call`: true only when the call answers true. */
  predicate Succeeds(call: Call<bool>) { call == Answer(true) }

  /** `_container_absence_proven`. */
  predicate ProvesAbsence(call: Call<Option<bool>>) { call == Answer(Some(false)) }

  predicate CleanupTrace(u: Trace, targets: seq<string>, staged: bool, ok: bool) {
    && (forall i :: 0 <= i < |u| ==> !u[i].Started? && !u[i].Created?)
    && (forall i :: 0 <= i < |u| && u[i].StagingRemoved? ==>
          forall k :: 0 <= k < |targets| ==> exists j :: 0 <= j < i && u[j] == AbsenceAsked(targets[k], true))
    && (ok ==> forall k :: 0 <= k < |targets| ==> AbsenceAsked(targets[k], true) in u)
    && (ok && staged ==> AfterRun(true) in u && StagingRemoved(true) in u)
  }

  predicate Kills(trace: Trace) { exists i :: 0 <= i < |trace| && trace[i].Killed? }

  /** Every target is killed, or none is. */
  predicate KillTrace(u: Trace, targets: seq<string>, needsKill: bool) {
    && (needsKill ==> forall k :: 0 <= k < |targets| ==> Killed(targets[k]) in u)
    && (!needsKill || targets == [] ==> forall i :: 0 <= i < |u| ==> !u[i].Killed?)
  }

  /** Every cleanup answer the run depends on was the good one. */
  predicate CleanupIsGood(w: World, targets: nat, needsKill: bool, staged: bool) {
    && (forall k :: 0 <= k < targets ==>
            ProvesAbsence(w.targets(k).exists_) && (needsKill ==> Succeeds(w.targets(k).kill)))
    && (staged ==> Succeeds(w.afterRun) && Succeeds(w.cleanup))
  }

  /** The `finally` block: per target kill if needed, remove, prove absence; then the staging. */
  method CleanUp(w: World, targets: seq<string>, needsKill: bool, staged: bool) returns (ok: bool, ghost u: Trace)
    ensures CleanupTrace(u, targets, staged, ok) && KillTrace(u, targets, needsKill)
    ensures ok <==> CleanupIsGood(w, |targets|, needsKill, staged)
  {
    ok, u := true, [];
    var absent := true;
    var i := 0;
    while i < |targets|
      invariant 0 <= i <= |targets|
      invariant forall j :: 0 <= j < |u| ==> !u[j].Started? && !u[j].Created? && !u[j].StagingRemoved?
      invariant needsKill ==> forall k :: 0 <= k < i ==> Killed(targets[k]) in u
      invariant !needsKill || i == 0 ==> forall j :: 0 <= j < |u| ==> !u[j].Killed?
      invariant absent ==> forall k :: 0 <= k < i ==> AbsenceAsked(targets[k], true) in u
      invariant ok ==> absent
      invariant absent <==> forall k :: 0 <= k < i ==> ProvesAbsence(w.targets(k).exists_)
      invariant ok <==> forall k :: 0 <= k < i ==>
                          ProvesAbsence(w.targets(k).exists_) && (needsKill ==> Succeeds(w.targets(k).kill))
    {
      var target, answers := targets[i], w.targets(i);
      if needsKill {
        u := u + [Killed(target)];
        if !Succeeds(answers.kill) {
          ok := false;
        }
      }
      var proven := ProvesAbsence(answers.exists_);
      u := u + [RemoveAsked(target), AbsenceAsked(target, proven)];
      absent := absent && proven;
      if !proven {
        ok := false;
      }
      i := i + 1;
    }
    if staged {
      u := u + [AfterRun(Succeeds(w.afterRun))];
      if !Succeeds(w.afterRun) {
        ok := false;
      }
      if absent {
        ghost var before := u;
        u := u + [StagingRemoved(Succeeds(w.cleanup))];
        assert forall k :: 0 <= k < |targets| ==> AbsenceAsked(targets[k], true) in before;
        forall k | 0 <= k < |targets|
          ensures exists j :: 0 <= j < |before| && u[j] == AbsenceAsked(targets[k], true)
        {
          var j :| 0 <= j < |before| && before[j] == AbsenceAsked(targets[k], true);
          assert u[j] == before[j];
        }
        assert forall j :: 0 <= j < |u| && u[j].StagingRemoved? ==> j == |before|;
        if !Succeeds(w.cleanup) {
          ok := false;
        }
      } else {
        ok := false;
      }
    }
  }

  // ---------- the part before the process ----------

  /** What the run has done when its `try` body ends. */
  datatype Attempt<+R> = Attempt(status: RunStatus, staged: bool, created: seq<Creation>, started: bool,
                                 process: Option<R>)

  /** Traces of the `try` body: guarded starts, no removal of the staging, and exactly the creations attempted. */
  predicate AttemptTrace(t: Trace, created: seq<Creation>, started: bool) {
    && StartsAreGuarded(t)
    && (forall i :: 0 <= i < |t| ==> !t[i].StagingRemoved? && !t[i].Killed? && (t[i].Started? ==> started))
    && (forall i :: 0 <= i < |t| && t[i].Created? ==> t[i].creation in created)
  }

  lemma QuietTrace(t: Trace, created: seq<Creation>)
    requires forall i :: 0 <= i < |t| ==> !t[i].StagingRemoved? && !t[i].Started? && !t[i].Killed?
    requires forall i :: 0 <= i < |t| && t[i].Created? ==> t[i].creation in created
    ensures AttemptTrace(t, created, false)
  {
  }

  /** The whole trace of a run: its `try` body, then its cleanup of the creations attempted. */
  lemma WholeTrace(t: Trace, u: Trace, created: seq<Creation>, targets: seq<string>, started: bool, needsKill: bool,
                   staged: bool, ok: bool)
    requires AttemptTrace(t, created, started) && CleanupTrace(u, targets, staged, ok)
    requires KillTrace(u, targets, needsKill) && forall c :: c in created ==> c.Target() in targets
    ensures Kills(t + u) <==> needsKill && targets != []
    ensures StartsAreGuarded(t + u) && RemovalFollowsAbsence(t + u)
    ensures ok && staged ==> EndsClean(t + u)
  {
    var all := t + u;
    if needsKill && targets != [] {
      assert Killed(targets[0]) in u;
      var i :| 0 <= i < |u| && u[i] == Killed(targets[0]);
      assert all[|t| + i].Killed?;
    }
    forall i | 0 <= i < |all| && all[i].Started?
      ensures Guarded(all[..i], all[i].ids)
    {
      assert i < |t|;
      assert all[..i] == t[..i] && all[i] == t[i];
    }
    forall c, i | 0 <= c < i < |all| && all[c].Created? && all[i].StagingRemoved?
      ensures AbsentBetween(all, all[c].creation.Target(), c, i)
    {
      assert i >= |t| && c < |t| && all[c] == t[c] && all[i] == u[i - |t|];
      var k :| 0 <= k < |targets| && targets[k] == all[c].creation.Target();
      var j :| 0 <= j < i - |t| && u[j] == AbsenceAsked(targets[k], true);
      assert all[|t| + j] == u[j];
    }
    if ok && staged {
      forall c | 0 <= c < |all| && all[c].Created?
        ensures AbsenceAsked(all[c].creation.Target(), true) in all
      {
        assert c < |t| && all[c] == t[c];
        var k :| 0 <= k < |targets| && targets[k] == all[c].creation.Target();
        assert AbsenceAsked(targets[k], true) in u;
      }
    }
  }

  // ---------- why a run stops ----------

  /** The first refusal of a sequence of checks. */
  function First(stops: seq<Option<RunStatus>>): (stop: Option<RunStatus>) {
    if stops == [] then None else if stops[0].Some? then stops[0] else First(stops[1..])
  }

  /** A probe or check of the run: None to go on. */
  function Check(call: Call<bool>, wanted: bool, refusal: RunStatus): (stop: Option<RunStatus>) {
    match call
    case Raises => Some(ToolFailed)
    case Answer(v) => if v == wanted then None else Some(refusal)
  }

  function PreflightStop(w: World): (stop: Option<RunStatus>) {
    if w.cancelledFirst == Answer(true) then Some(Cancelled)
    else if w.cancelledFirst.Raises? || w.availability.Raises? || !w.availability.value.Approved()
    then Some(ToolUnavailable) else None
  }

  function StageStop(w: World): (stop: Option<RunStatus>) {
    First([if w.stage == Staged then None else Some(ToolFailed), Check(w.cancelledStaged, false, Cancelled),
           Check(w.verifyFirst, true, ToolUnavailable)])
  }

  /** Why creating and inspecting a container stops the run; `taken` is an id the new one must differ from. */
  function CreateStop(answers: CreateAnswers, taken: Option<string>): (stop: Option<RunStatus>) {
    if !answers.argvBuilds || answers.create.Raises? then Some(ToolFailed)
    else if answers.create.value.None? || answers.create.value == taken then Some(ToolUnavailable)
    else if answers.inspect.Raises? then Some(ToolFailed)
    else if answers.inspect.value == Some(true) then None else Some(ToolUnavailable)
  }

  function CheckAgainStop(w: World): (stop: Option<RunStatus>) {
    First([Check(w.verifySecond, true, ToolUnavailable), Check(w.cancelledCreated, false, Cancelled)])
  }

  lemma FirstIs(stops: seq<Option<RunStatus>>)
    requires |stops| <= 4
    ensures First(stops) == if |stops| > 0 && stops[0].Some? then stops[0]
                            else if |stops| > 1 && stops[1].Some? then stops[1]
                            else if |stops| > 2 && stops[2].Some? then stops[2]
                            else if |stops| > 3 then stops[3] else None
  {
    if |stops| > 1 { assert stops[1..][0] == stops[1]; }
    if |stops| > 2 { assert stops[1..][1..][0] == stops[2]; }
    if |stops| > 3 { assert stops[1..][1..][1..][0] == stops[3]; }
  }

  // ---------- one container ----------

  /** `_map_process_status`. */
  function MapStatus(s: P.Status): (r: RunStatus) {
    match s
    case Succeeded => Completed
    case Failed => ToolFailed
    case TimedOut => TimedOut
    case Cancelled => Cancelled
    case LimitExceeded => LimitExceeded
    case ConsumerRejected => PolicyRejected
  }

  datatype RunResult = RunResult(status: RunStatus, exitCode: Option<int>, stdoutBytes: nat, stderrBytes: nat) {
    predicate Constructible() { status == Completed ==> exitCode == Some(0) }
  }

  function Bare(status: RunStatus): (r: RunResult) { RunResult(status, None, 0, 0) }

  function IdOf(answers: CreateAnswers): (id: Option<string>) {
    if answers.create.Answer? then answers.create.value else None
  }

  /** Creating and inspecting one container; `stop` is set when the run must stop. */
  method CreateAndInspect(answers: CreateAnswers, name: string, taken: Option<string>)
    returns (stop: Option<RunStatus>, creation: Option<Creation>, ghost t: Trace)
    ensures stop == CreateStop(answers, taken)
    ensures stop.None? ==> creation.Some? && creation.value.id.Some?
                           && t == [Created(creation.value), Inspected(creation.value.id.value, true)]
    ensures forall i :: 0 <= i < |t| ==> !t[i].StagingRemoved? && !t[i].Started? && !t[i].Killed?
                                         && (t[i].Created? ==> Some(t[i].creation) == creation)
    ensures creation.Some? ==> creation.value.name == name
    ensures creation.Some? ==> creation.value.id == IdOf(answers)
  {
    t, creation := [], None;
    if !answers.argvBuilds {
      stop := Some(ToolFailed);
      return;
    }
    var id := IdOf(answers);
    creation := Some(Creation(name, id));
    t := [Created(Creation(name, id))];
    if answers.create.Raises? {
      stop := Some(ToolFailed);
      return;
    }
    if id.None? || id == taken {
      stop := Some(ToolUnavailable);
      return;
    }
    var matches := answers.inspect == Answer(Some(true));
    t := t + [Inspected(id.value, matches)];
    if answers.inspect.Raises? {
      stop := Some(ToolFailed);
    } else if !matches {
      stop := Some(ToolUnavailable);
    } else {
      stop := None;
    }
  }

  /** Staging, the first cancellation probe behind it and the first staging check. */
  method Stage(w: World) returns (stop: Option<RunStatus>, staged: bool, ghost t: Trace)
    ensures stop == StageStop(w)
    ensures stop.None? ==> staged && t == [StagingMade, Verified(true)]
    ensures forall i :: 0 <= i < |t| ==> Quiet(t[i])
  {
    FirstIs([if w.stage == Staged then None else Some(ToolFailed), Check(w.cancelledStaged, false, Cancelled),
             Check(w.verifyFirst, true, ToolUnavailable)]);
    staged, t := !w.stage.StageRaises?, [];
    if !w.stage.Staged? {
      stop := Some(ToolFailed);
      return;
    }
    t := [StagingMade];
    stop := Check(w.cancelledStaged, false, Cancelled);
    if stop.Some? { return; }
    t := t + [Verified(w.verifyFirst == Answer(true))];
    stop := Check(w.verifyFirst, true, ToolUnavailable);
  }

  /** The second staging check and the last cancellation probe. */
  method CheckAgain(w: World) returns (stop: Option<RunStatus>, ghost t: Trace)
    ensures stop == CheckAgainStop(w)
    ensures stop.None? ==> t == [Verified(true)]
    ensures forall i :: 0 <= i < |t| ==> Quiet(t[i])
  {
    FirstIs([Check(w.verifySecond, true, ToolUnavailable), Check(w.cancelledCreated, false, Cancelled)]);
    t := [Verified(w.verifySecond == Answer(true))];
    stop := Check(w.verifySecond, true, ToolUnavailable);
    if stop.None? {
      stop := Check(w.cancelledCreated, false, Cancelled);
    }
  }

  /** What stops a run of one container before its start, if anything does. */
  function StopBeforeStart(w: World, create: CreateAnswers): (stop: Option<RunStatus>) {
    First([StageStop(w), CreateStop(create, None), CheckAgainStop(w)])
  }

  lemma PlainStartIsGuarded(t: Trace, c: Creation)
    requires c.id.Some?
    requires t
         == [StagingMade, Verified(true), Created(c), Inspected(c.id.value, true), Verified(true),
             Started([c.id.value])]
    ensures AttemptTrace(t, [c], true)
  {
    assert Guarded(t[..5], t[5].ids) by {
      var before := t[..5];
      assert before[1] == Verified(true) && before[4] == Verified(true) && before[3] == Inspected(c.id.value, true);
    }
  }

  method AttemptRun(w: World, create: CreateAnswers, process: Call<P.ProcessResult>, name: string)
    returns (a: Attempt<P.ProcessResult>, ghost t: Trace)
    requires process.Answer? ==> process.value.Constructible()
    ensures AttemptTrace(t, a.created, a.started) && |a.created| <= 1 && (a.started ==> |a.created| == 1)
    ensures a.started <==> StopBeforeStart(w, create).None?
    ensures !a.started ==> Some(a.status) == StopBeforeStart(w, create)
    ensures a.started ==> a.staged && a.process == (if process.Answer? then Some(process.value) else None)
                          && a.status == (if process.Answer? then MapStatus(process.value.status) else ToolFailed)
    ensures !a.started ==> a.process.None?
  {
    FirstIs([StageStop(w), CreateStop(create, None), CheckAgainStop(w)]);
    var stop, staged;
    stop, staged, t := Stage(w);
    if stop.Some? {
      QuietTrace(t, []);
      a := Attempt(stop.value, staged, [], false, None);
      return;
    }
    var creation;
    ghost var more;
    stop, creation, more := CreateAndInspect(create, name, None);
    t := t + more;
    var created := if creation.Some? then [creation.value] else [];
    QuietTrace(t, created);
    if stop.Some? {
      a := Attempt(stop.value, true, created, false, None);
      return;
    }
    stop, more := CheckAgain(w);
    t := t + more;
    QuietTrace(t, created);
    if stop.Some? {
      a := Attempt(stop.value, true, created, false, None);
      return;
    }
    t := t + [Started([creation.value.id.value])];
    PlainStartIsGuarded(t, creation.value);
    a := if process.Answer? then Attempt(MapStatus(process.value.status), true, created, true, Some(process.value))
         else Attempt(ToolFailed, true, created, true, None);
  }

  predicate NeedsKill(started: bool, process: Option<P.ProcessResult>) {
    if process.None? then started
    else process.value.status in {P.TimedOut, P.Cancelled, P.LimitExceeded, P.ConsumerRejected}
  }

  /** The status a run has when its cleanup finds nothing wrong. */
  function Expected(w: World, create: CreateAnswers, process: Call<P.ProcessResult>): (s: RunStatus) {
    if PreflightStop(w).Some? then PreflightStop(w).value
    else if StopBeforeStart(w, create).Some? then StopBeforeStart(w, create).value
    else match process
         case Raises => ToolFailed
         case Answer(p) => MapStatus(p.status)
  }

  predicate Refusal(stop: Option<RunStatus>) { stop.Some? ==> stop.value in {ToolFailed, ToolUnavailable, Cancelled} }

  lemma StopsAreRefusals(w: World, create: CreateAnswers)
    ensures Refusal(PreflightStop(w)) && Refusal(StopBeforeStart(w, create))
  {
    FirstIs([StageStop(w), CreateStop(create, None), CheckAgainStop(w)]);
    FirstIs([if w.stage == Staged then None else Some(ToolFailed), Check(w.cancelledStaged, false, Cancelled),
             Check(w.verifyFirst, true, ToolUnavailable)]);
    FirstIs([Check(w.verifySecond, true, ToolUnavailable), Check(w.cancelledCreated, false, Cancelled)]);
  }

  /** What a run can answer, given what became of its process, None when it never got that far. */
  predicate RunAnswers(process: Option<Call<P.ProcessResult>>, s: RunStatus) {
    || s == ToolFailed
    || (process.None? && (s == Cancelled || s == ToolUnavailable))
    || (process.Some? && process.value.Answer? && s == MapStatus(process.value.value.status))
  }

  /** `_run_locked`, for any answers of the outside world. */
  method RunLocked(w: World, create: CreateAnswers, process: Call<P.ProcessResult>, name: string)
    returns (r: RunResult, ghost trace: Trace)
    requires process.Answer? ==> process.value.Constructible()
    ensures StartsAreGuarded(trace) && RemovalFollowsAbsence(trace)
    ensures r.Constructible()
    ensures r.status == Completed ==> EndsClean(trace)
    ensures Kills(trace)
       <==> (PreflightStop(w).None? && StopBeforeStart(w, create).None?
             && (process.Raises?
                 || process.value.status in {P.TimedOut, P.Cancelled, P.LimitExceeded, P.ConsumerRejected}))
    ensures r.status == Expected(w, create, process) || (r.status == ToolFailed && PreflightStop(w).None?)
    ensures r.status == Completed <==> Expected(w, create, process) == Completed && CleanupIsGood(w, 1, false, true)
    ensures RunAnswers(if PreflightStop(w).None? && StopBeforeStart(w, create).None? then Some(process) else None,
                       r.status)
    ensures r.status == Completed ==> process.Answer? && process.value.status == P.Succeeded
                                      && r == RunResult(Completed, Some(0), process.value.stdoutBytes,
                                                        process.value.stderrBytes)
  {
    StopsAreRefusals(w, create);
    trace := [];
    var stop := PreflightStop(w);
    if stop.Some? {
      return Bare(stop.value), trace;
    }
    var a;
    a, trace := AttemptRun(w, create, process, name);
    var targets := if a.created == [] then [] else [a.created[0].Target()];
    var needsKill := NeedsKill(a.started, a.process);
    var ok;
    ghost var u;
    ok, u := CleanUp(w, targets, needsKill, a.staged);
    WholeTrace(trace, u, a.created, targets, a.started, needsKill, a.staged, ok);
    trace := trace + u;
    var status := if ok then a.status else ToolFailed;
    r := match a.process
      case None => Bare(status)
      case Some(p) => RunResult(status, p.exitCode, p.stdoutBytes, p.stderrBytes);
  }

  // ---------- two containers and the stream between them ----------

  /** What the frame consumer of a wrapper run says once the processes are gone. */
  datatype FrameEnd = FrameEnd(result: T.FrameResult, terminal: Option<T.FrameStatus>)

  datatype WrapperResult = WrapperResult(status: RunStatus, producerExit: Option<int>, consumerExit: Option<int>,
                                         stdoutBytes: nat, stderrBytes: nat, streamSize: nat, streamSha: Option<Sha256>)
  {
    predicate Constructible() {
      if status == Completed
      then producerExit == Some(0) && consumerExit == Some(0) && streamSize >= 1_024 && streamSha.Some?
      else streamSize == 0 && streamSha.None?
    }
  }

  function BareWrapper(status: RunStatus): (r: WrapperResult) { WrapperResult(status, None, None, 0, 0, 0, None) }

  /** A rejected stream blames the frame consumer's verdict when it has one. */
  function MapDuplex(s: P.Status, terminal: Option<T.FrameStatus>): (r: RunStatus) {
    if s == P.ConsumerRejected && terminal == Some(T.FrameStatus.LimitExceeded) then LimitExceeded
    else if s == P.ConsumerRejected && terminal == Some(T.FrameStatus.Invalid) then ToolFailed
    else MapStatus(s)
  }

  function WrapperStop(w: World, outer: CreateAnswers, inner: CreateAnswers): (stop: Option<RunStatus>) {
    First([StageStop(w), CreateStop(outer, None), CreateStop(inner, IdOf(outer)), CheckAgainStop(w)])
  }

  function WrapperExpected(w: World, outer: CreateAnswers, inner: CreateAnswers, process: Call<D.DuplexResult>,
                           frame: FrameEnd): (s: RunStatus)
  {
    if PreflightStop(w).Some? then PreflightStop(w).value
    else if WrapperStop(w, outer, inner).Some? then WrapperStop(w, outer, inner).value
    else match process
         case Raises => ToolFailed
         case Answer(p) => MapDuplex(p.status, frame.terminal)
  }

  lemma WrapperStopsAreRefusals(w: World, outer: CreateAnswers, inner: CreateAnswers)
    ensures Refusal(PreflightStop(w)) && Refusal(WrapperStop(w, outer, inner))
  {
    StopsAreRefusals(w, outer);
    FirstIs([StageStop(w), CreateStop(outer, None), CheckAgainStop(w)]);
    FirstIs([if w.stage == Staged then None else Some(ToolFailed), Check(w.cancelledStaged, false, Cancelled),
             Check(w.verifyFirst, true, ToolUnavailable)]);
    FirstIs([Check(w.verifySecond, true, ToolUnavailable), Check(w.cancelledCreated, false, Cancelled)]);
    FirstIs([StageStop(w), CreateStop(outer, None), CreateStop(inner, IdOf(outer)), CheckAgainStop(w)]);
  }

  lemma WrapperStartIsGuarded(t: Trace, o: Creation, i: Creation)
    requires o.id.Some? && i.id.Some?
    requires t == [StagingMade, Verified(true), Created(o), Inspected(o.id.value, true), Created(i),
                   Inspected(i.id.value, true), Verified(true), Started([o.id.value, i.id.value])]
    ensures AttemptTrace(t, [o, i], true)
  {
    assert Guarded(t[..7], t[7].ids) by {
      var before := t[..7];
      assert before[1] == Verified(true) && before[6] == Verified(true);
      assert before[3] == Inspected(t[7].ids[0], true) && before[5] == Inspected(t[7].ids[1], true);
    }
  }

  method AttemptWrapper(w: World, outer: CreateAnswers, inner: CreateAnswers, process: Call<D.DuplexResult>,
                        terminal: Option<T.FrameStatus>, outerName: string, innerName: string)
    returns (a: Attempt<D.DuplexResult>, ghost t: Trace)
    ensures AttemptTrace(t, a.created, a.started) && |a.created| <= 2 && (a.started ==> |a.created| == 2)
    ensures a.started <==> WrapperStop(w, outer, inner).None?
    ensures !a.started ==> Some(a.status) == WrapperStop(w, outer, inner) && a.process.None?
    ensures a.started ==> a.staged && a.process == (if process.Answer? then Some(process.value) else None)
                          && a.status == (if process.Answer? then MapDuplex(process.value.status, terminal)
                                          else ToolFailed)
  {
    hide AttemptTrace, StageStop, CreateStop, CheckAgainStop, MapDuplex;
    FirstIs([StageStop(w), CreateStop(outer, None), CreateStop(inner, IdOf(outer)), CheckAgainStop(w)]);
    var stop, staged;
    stop, staged, t := Stage(w);
    if stop.Some? {
      QuietTrace(t, []);
      a := Attempt(stop.value, staged, [], false, None);
      return;
    }
    var first, second;
    ghost var more;
    stop, first, more := CreateAndInspect(outer, outerName, None);
    t := t + more;
    var created := if first.Some? then [first.value] else [];
    QuietTrace(t, created);
    if stop.Some? {
      a := Attempt(stop.value, true, created, false, None);
      return;
    }
    stop, second, more := CreateAndInspect(inner, innerName, first.value.id);
    t := t + more;
    created := if second.Some? then [first.value, second.value] else [first.value];
    QuietTrace(t, created);
    if stop.Some? {
      a := Attempt(stop.value, true, created, false, None);
      return;
    }
    stop, more := CheckAgain(w);
    t := t + more;
    QuietTrace(t, created);
    if stop.Some? {
      a := Attempt(stop.value, true, created, false, None);
      return;
    }
    t := t + [Started([first.value.id.value, second.value.id.value])];
    WrapperStartIsGuarded(t, first.value, second.value);
    a := if process.Answer? then Attempt(MapDuplex(process.value.status, terminal), true, created, true,
                                         Some(process.value))
         else Attempt(ToolFailed, true, created, true, None);
  }

  /** What a wrapper run can answer; COMPLETED only behind a valid frame. */
  predicate WrapperAnswers(process: Option<Call<D.DuplexResult>>, frame: FrameEnd, s: RunStatus) {
    || s == ToolFailed
    || (process.None? && (s == Cancelled || s == ToolUnavailable))
    || (process.Some? && process.value.Answer? && s == MapDuplex(process.value.value.status, frame.terminal)
        && (s == Completed ==> frame.result.status == T.FrameStatus.Valid))
  }

  /** `_run_wrapper_locked`, for any answers of the outside world. */
  method RunWrapperLocked(w: World, outer: CreateAnswers, inner: CreateAnswers, process: Call<D.DuplexResult>,
                          frame: FrameEnd, outerName: string, innerName: string)
    returns (r: WrapperResult, ghost trace: Trace)
    requires process.Answer? ==> process.value.Constructible()
    requires frame.result.Constructible()
    ensures StartsAreGuarded(trace) && RemovalFollowsAbsence(trace)
    ensures r.Constructible()
    ensures r.status == Completed ==> EndsClean(trace)
    ensures Kills(trace)
       <==> (PreflightStop(w).None? && WrapperStop(w, outer, inner).None?
             && (process.Raises? || process.value.status != P.Succeeded))
    ensures r.status == WrapperExpected(w, outer, inner, process, frame)
            || (r.status == ToolFailed && PreflightStop(w).None?)
    ensures r.status == Completed <==>
              && WrapperExpected(w, outer, inner, process, frame) == Completed
              && frame.result.status == T.FrameStatus.Valid && CleanupIsGood(w, 2, false, true)
    ensures WrapperAnswers(if PreflightStop(w).None? && WrapperStop(w, outer, inner).None? then Some(process) else None,
                           frame,
                           r.status)
    ensures r.status == Completed ==>
              && process.Answer? && process.value.status == P.Succeeded
              && r.streamSize == frame.result.streamSize && r.streamSha == frame.result.digest
              && r.stdoutBytes == process.value.consumerStdoutBytes
              && r.stderrBytes == process.value.producerStderrBytes + process.value.consumerStderrBytes
  {
    hide Guarded, StartsAreGuarded, RemovalFollowsAbsence, EndsClean, AttemptTrace, CleanupTrace, KillTrace, Kills,
         WrapperStop;
    WrapperStopsAreRefusals(w, outer, inner);
    trace := [];
    var stop := PreflightStop(w);
    if stop.Some? {
      EmptyTrace();
      return BareWrapper(stop.value), trace;
    }
    var a;
    a, trace := AttemptWrapper(w, outer, inner, process, frame.terminal, outerName, innerName);
    var targets := if a.created == [] then [] else if |a.created| == 1 then [a.created[0].Target()]
                   else [a.created[1].Target(), a.created[0].Target()];
    var needsKill := a.started && (a.process.None? || a.process.value.status != P.Succeeded);
    var ok;
    ghost var u;
    ok, u := CleanUp(w, targets, needsKill, a.staged);
    TargetsCoverCreations(a.created, targets);
    WholeTrace(trace, u, a.created, targets, a.started, needsKill, a.staged, ok);
    trace := trace + u;
    var status := if ok then a.status else ToolFailed;
    if a.process.None? {
      return BareWrapper(status), trace;
    }
    var p := a.process.value;
    var completed := status == Completed && frame.result.status == T.FrameStatus.Valid;
    if status == Completed && !completed {
      status := ToolFailed;
    }
    r := WrapperResult(status, p.producerExit, p.consumerExit, p.consumerStdoutBytes,
                       p.producerStderrBytes + p.consumerStderrBytes,
                       if completed then frame.result.streamSize else 0,
                       if completed then frame.result.digest else None);
  }

  lemma EmptyTrace()
    ensures StartsAreGuarded([]) && RemovalFollowsAbsence([]) && !Kills([])
  {
  }

  lemma TargetsCoverCreations(created: seq<Creation>, targets: seq<string>)
    requires |created| <= 2 && |targets| == |created|
    requires |created| == 1 ==> targets[0] == created[0].Target()
    requires |created| == 2 ==> targets[0] == created[1].Target() && targets[1] == created[0].Target()
    ensures forall c :: c in created ==> c.Target() in targets
  {
  }
}
