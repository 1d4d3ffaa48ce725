/**
What a container run answers, said of the outside world's answers alone: when it gets as far as its start, what stops
it before, and what the end of the process makes of it.
*/
module RunOutcomes {
  import opened Prelude
  import opened Lifecycle
  import P = ProcessPump
  import D = Duplex
  import T = TarFrame

  // ---------- before the start ----------

  predicate Approves(call: Call<Availability>) {
    call.Answer? && call.value.available && call.value.image == Some(APPROVED_IMAGE)
  }

  /** Nobody cancelled, the backend is the approved one, and the staging is there and verified twice. */
  predicate StagedAndVerified(w: World) {
    && w.cancelledFirst == Answer(false) && Approves(w.availability)
    && w.stage == Staged && w.cancelledStaged == Answer(false)
    && w.verifyFirst == Answer(true) && w.verifySecond == Answer(true)
    && w.cancelledCreated == Answer(false)
  }

  /** The container got an id of its own and was found as created. */
  predicate CreatedAsAsked(c: CreateAnswers, taken: Option<string>) {
    && c.argvBuilds && c.create.Answer? && c.create.value.Some? && c.create.value != taken
    && c.inspect == Answer(Some(true))
  }

  predicate SomeoneCancelled(w: World) {
    w.cancelledFirst == Answer(true) || w.cancelledStaged == Answer(true) || w.cancelledCreated == Answer(true)
  }

  /** An answer says that something is not there or not as it should be. */
  predicate SomethingMissing(w: World, c: CreateAnswers, taken: Option<string>) {
    || w.cancelledFirst.Raises? || !Approves(w.availability)
    || w.verifyFirst == Answer(false) || w.verifySecond == Answer(false) || Uncreated(c, taken)
  }

  predicate Uncreated(c: CreateAnswers, taken: Option<string>) {
    || (c.create.Answer? && (c.create.value.None? || c.create.value == taken))
    || (c.inspect.Answer? && c.inspect.value != Some(true))
  }

  lemma CreateStopIs(c: CreateAnswers, taken: Option<string>)
    ensures CreateStop(c, taken).None? <==> CreatedAsAsked(c, taken)
    ensures CreateStop(c, taken).Some? ==> CreateStop(c, taken).value in {ToolFailed, ToolUnavailable}
    ensures CreateStop(c, taken) == Some(ToolUnavailable) ==> Uncreated(c, taken)
  {
  }

  lemma StageStopIs(w: World)
    ensures StageStop(w).None?
       <==> w.stage == Staged && w.cancelledStaged == Answer(false) && w.verifyFirst == Answer(true)
    ensures StageStop(w) == Some(Cancelled) ==> w.cancelledStaged == Answer(true)
    ensures StageStop(w) == Some(ToolUnavailable) ==> w.verifyFirst == Answer(false)
  {
    FirstIs([if w.stage == Staged then None else Some(ToolFailed), Check(w.cancelledStaged, false, Cancelled),
             Check(w.verifyFirst, true, ToolUnavailable)]);
    CheckIs(w.cancelledStaged, false, Cancelled);
    CheckIs(w.verifyFirst, true, ToolUnavailable);
  }

  lemma CheckIs(call: Call<bool>, wanted: bool, refusal: RunStatus)
    ensures Check(call, wanted, refusal)
         == if call == Answer(wanted) then None else if call == Answer(!wanted) then Some(refusal) else Some(ToolFailed)
  {
  }

  lemma CheckAgainStopIs(w: World)
    ensures CheckAgainStop(w).None? <==> w.verifySecond == Answer(true) && w.cancelledCreated == Answer(false)
    ensures CheckAgainStop(w) == Some(Cancelled) ==> w.cancelledCreated == Answer(true)
    ensures CheckAgainStop(w) == Some(ToolUnavailable) ==> w.verifySecond == Answer(false)
  {
    FirstIs([Check(w.verifySecond, true, ToolUnavailable), Check(w.cancelledCreated, false, Cancelled)]);
    CheckIs(w.verifySecond, true, ToolUnavailable);
    CheckIs(w.cancelledCreated, false, Cancelled);
  }

  lemma PreflightStopIs(w: World)
    ensures PreflightStop(w).None? <==> w.cancelledFirst == Answer(false) && Approves(w.availability)
    ensures PreflightStop(w) == Some(Cancelled) <==> w.cancelledFirst == Answer(true)
    ensures PreflightStop(w) == Some(ToolUnavailable) ==> w.cancelledFirst.Raises? || !Approves(w.availability)
  {
    if w.cancelledFirst.Answer? && !w.cancelledFirst.value { assert w.cancelledFirst == Answer(false); }
  }

  /** A run reaches its start exactly when everything before went well; otherwise it answers CANCELLED only if somebody
      cancelled, TOOL_UNAVAILABLE only if something was missing, and TOOL_FAILED in any other case. */
  lemma StartIsReached(w: World, create: CreateAnswers, process: Call<P.ProcessResult>)
    ensures PreflightStop(w).None? && StopBeforeStart(w, create).None?
       <==> StagedAndVerified(w) && CreatedAsAsked(create, None)
    ensures !(StagedAndVerified(w) && CreatedAsAsked(create, None)) ==>
              var s := Expected(w, create, process);
              && (s == Cancelled ==> SomeoneCancelled(w))
              && (s == ToolUnavailable ==> SomethingMissing(w, create, None))
              && (s != Cancelled && s != ToolUnavailable ==> s == ToolFailed)
    ensures w.cancelledFirst == Answer(true) ==> Expected(w, create, process) == Cancelled
  {
    hide StageStop, CheckAgainStop, CreateStop, CreatedAsAsked, PreflightStop;
    FirstIs([StageStop(w), CreateStop(create, None), CheckAgainStop(w)]);
    StageStopIs(w);
    CheckAgainStopIs(w);
    PreflightStopIs(w);
    CreateStopIs(create, None);
    StopsAreRefusals(w, create);
  }

  /** The same for a run of two containers, the second with an id of its own. */
  lemma WrapperStartIsReached(w: World, outer: CreateAnswers, inner: CreateAnswers, process: Call<D.DuplexResult>,
                              frame: FrameEnd)
    ensures PreflightStop(w).None? && WrapperStop(w, outer, inner).None?
       <==> StagedAndVerified(w) && CreatedAsAsked(outer, None) && CreatedAsAsked(inner, IdOf(outer))
    ensures !(PreflightStop(w).None? && WrapperStop(w, outer, inner).None?) ==>
              var s := WrapperExpected(w, outer, inner, process, frame);
              && (s == Cancelled ==> SomeoneCancelled(w))
              && (s == ToolUnavailable ==>
                    SomethingMissing(w, outer, None) || SomethingMissing(w, inner, IdOf(outer)))
              && (s != Cancelled && s != ToolUnavailable ==> s == ToolFailed)
  {
    hide StageStop, CheckAgainStop, CreateStop, CreatedAsAsked, PreflightStop, IdOf;
    FirstIs([StageStop(w), CreateStop(outer, None), CreateStop(inner, IdOf(outer)), CheckAgainStop(w)]);
    StageStopIs(w);
    CheckAgainStopIs(w);
    PreflightStopIs(w);
    CreateStopIs(outer, None);
    CreateStopIs(inner, IdOf(outer));
    WrapperStopsAreRefusals(w, outer, inner);
  }

  // ---------- behind the start ----------

  /** The status of a run that names the end of its process. */
  predicate Names(st: P.Status, s: RunStatus) {
    match st
    case Succeeded => s == Completed
    case TimedOut => s == RunStatus.TimedOut
    case Cancelled => s == RunStatus.Cancelled
    case LimitExceeded => s == RunStatus.LimitExceeded
    case ConsumerRejected => s == PolicyRejected
    case Failed => s == ToolFailed
  }

  /** Behind its start a run answers, cleanup permitting, what became of its process. */
  lemma StartedAnswers(w: World, create: CreateAnswers, process: Call<P.ProcessResult>)
    requires StagedAndVerified(w) && CreatedAsAsked(create, None)
    ensures process.Raises? ==> Expected(w, create, process) == ToolFailed
    ensures process.Answer? ==> Names(process.value.status, Expected(w, create, process))
  {
    hide PreflightStop, StopBeforeStart, StagedAndVerified, CreatedAsAsked;
    StartIsReached(w, create, process);
  }

  /** The same for two containers; a refused stream is blamed on the verdict of the frame consumer when it has one. */
  lemma StartedWrapperAnswers(w: World, outer: CreateAnswers, inner: CreateAnswers, process: Call<D.DuplexResult>,
                              frame: FrameEnd)
    requires StagedAndVerified(w) && CreatedAsAsked(outer, None) && CreatedAsAsked(inner, IdOf(outer))
    ensures var s := WrapperExpected(w, outer, inner, process, frame);
            if process.Raises? then s == ToolFailed
            else if process.value.status == P.ConsumerRejected && frame.terminal == Some(T.FrameStatus.LimitExceeded)
            then s == RunStatus.LimitExceeded
            else if process.value.status == P.ConsumerRejected && frame.terminal == Some(T.FrameStatus.Invalid)
            then s == ToolFailed
            else Names(process.value.status, s)
  {
    hide PreflightStop, WrapperStop, StagedAndVerified, CreatedAsAsked, IdOf;
    WrapperStartIsReached(w, outer, inner, process, frame);
  }
}
