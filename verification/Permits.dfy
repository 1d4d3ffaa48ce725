/**
The locks around a container run: one non-blocking lock per runner object and one bounded semaphore for the process,
taken in that order and given back in the opposite one, by any number of concurrent calls on any number of runners.
*/
module Permits {
  import opened Prelude

  const MAX_CONCURRENT_ARCHIVE_JOBS := 2

  /** Where a call stands: before the lock, before the semaphore, inside the run, giving back, or back. */
  datatype Pc = TryingLock | TryingPermit | Running | ReturningPermit | ReturningLock | Back

  datatype CallState = CallState(runner: nat, pc: Pc)

  datatype State = State(calls: map<nat, CallState>, locked: set<nat>, permits: nat)

  datatype Action = Enter(call: nat, runner: nat) | Advance(call: nat)

  function Start(): (s: State) { State(map[], {}, MAX_CONCURRENT_ARCHIVE_JOBS) }

  function Move(s: State, call: nat, pc: Pc): (calls: map<nat, CallState>)
    requires call in s.calls
  {
    s.calls[call := s.calls[call].(pc := pc)]
  }

  /** The next atomic step of one call; the run itself may end in any way, and its `finally` always follows. */
  function Step(s: State, a: Action): (r: Option<State>) {
    match a
    case Enter(call, runner) =>
      if call in s.calls then None else Some(s.(calls := s.calls[call := CallState(runner, TryingLock)]))
    case Advance(call) =>
      if call !in s.calls then None
      else
        var runner := s.calls[call].runner;
        match s.calls[call].pc
        case TryingLock =>
          if runner in s.locked then Some(s.(calls := Move(s, call, Back)))
          else Some(s.(calls := Move(s, call, TryingPermit), locked := s.locked + {runner}))
        case TryingPermit =>
          if s.permits == 0 then Some(s.(calls := Move(s, call, ReturningLock)))
          else Some(s.(calls := Move(s, call, Running), permits := s.permits - 1))
        case Running => Some(s.(calls := Move(s, call, ReturningPermit)))
        case ReturningPermit => Some(s.(calls := Move(s, call, ReturningLock), permits := s.permits + 1))
        case ReturningLock => Some(s.(calls := Move(s, call, Back), locked := s.locked - {runner}))
        case Back => None
  }

  function Run(s: State, actions: seq<Action>): (r: Option<State>)
    decreases |actions|
  {
    if actions == [] then Some(s)
    else match Step(s, actions[0])
         case None => None
         case Some(next) => Run(next, actions[1..])
  }

  predicate HasPermit(c: CallState) { c.pc == Running || c.pc == ReturningPermit }

  predicate HasLock(c: CallState) { c.pc == TryingPermit || HasPermit(c) || c.pc == ReturningLock }

  function InFlight(calls: map<nat, CallState>): (ids: set<nat>) { set c | c in calls && HasPermit(calls[c]) }

  predicate Holds(s: State, call: nat, runner: nat) {
    call in s.calls && HasLock(s.calls[call]) && s.calls[call].runner == runner
  }

  ghost predicate OneHolder(s: State) {
    && (forall c, d, r :: Holds(s, c, r) && Holds(s, d, r) ==> c == d)
    && (forall c, r :: Holds(s, c, r) ==> r in s.locked)
  }

  ghost predicate SomeHolder(s: State) { forall r :: r in s.locked ==> exists c :: Holds(s, c, r) }

  ghost predicate LockInv(s: State) { OneHolder(s) && SomeHolder(s) }

  ghost predicate Inv(s: State) {
    LockInv(s) && s.permits + |InFlight(s.calls)| == MAX_CONCURRENT_ARCHIVE_JOBS
  }

  lemma InFlightAfter(calls: map<nat, CallState>, call: nat, after: CallState)
    ensures InFlight(calls[call := after]) == if HasPermit(after)
                                               then InFlight(calls) + {call} else InFlight(calls) - {call}
  {
  }

  lemma InFlightCount(calls: map<nat, CallState>, call: nat, after: CallState)
    ensures var before := |InFlight(calls)| - (if call in calls && HasPermit(calls[call]) then 1 else 0);
            |InFlight(calls[call := after])| == before + (if HasPermit(after) then 1 else 0)
  {
    InFlightAfter(calls, call, after);
    if call !in InFlight(calls) {
      assert InFlight(calls) - {call} == InFlight(calls);
    } else {
      assert InFlight(calls) + {call} == InFlight(calls);
    }
  }

  lemma SomeHolderAfter(s: State, a: Action, r: nat)
    requires LockInv(s) && Step(s, a).Some? && r in Step(s, a).value.locked
    ensures exists c :: Holds(Step(s, a).value, c, r)
  {
    var q := Step(s, a).value;
    if r in s.locked {
      var c :| Holds(s, c, r);
      assert Holds(q, c, r);
    } else {
      assert Holds(q, a.call, r);
    }
  }

  lemma LocksAfter(s: State, a: Action)
    requires LockInv(s) && Step(s, a).Some?
    ensures LockInv(Step(s, a).value)
  {
    forall r | r in Step(s, a).value.locked ensures exists c :: Holds(Step(s, a).value, c, r) {
      SomeHolderAfter(s, a, r);
    }
    OneHolderAfter(s, a);
  }

  lemma OneHolderAfter(s: State, a: Action)
    requires LockInv(s) && Step(s, a).Some?
    ensures OneHolder(Step(s, a).value)
  {
    var q := Step(s, a).value;
    if a.Advance? && HasLock(s.calls[a.call]) {
      assert Holds(s, a.call, s.calls[a.call].runner);
    }
    forall c, r | Holds(q, c, r) ensures r in q.locked && (c == a.call || Holds(s, c, r)) {
      if c != a.call {
        assert Holds(s, c, r);
      }
    }
  }

  lemma PermitsAfter(s: State, a: Action)
    requires s.permits + |InFlight(s.calls)| == MAX_CONCURRENT_ARCHIVE_JOBS && Step(s, a).Some?
    ensures Step(s, a).value.permits + |InFlight(Step(s, a).value.calls)| == MAX_CONCURRENT_ARCHIVE_JOBS
  {
    hide InFlight;
    var q := Step(s, a).value;
    assert q.calls == s.calls[a.call := q.calls[a.call]];
    InFlightCount(s.calls, a.call, q.calls[a.call]);
  }

  lemma StepKeeps(s: State, a: Action)
    requires Inv(s) && Step(s, a).Some?
    ensures Inv(Step(s, a).value)
  {
    hide LockInv, Step;
    LocksAfter(s, a);
    PermitsAfter(s, a);
  }

  lemma {:induction false} RunKeeps(s: State, actions: seq<Action>, end: State)
    requires Inv(s) && Run(s, actions) == Some(end)
    ensures Inv(end)
    decreases |actions|
  {
    hide Inv, Step;
    if actions != [] {
      StepKeeps(s, actions[0]);
      RunKeeps(Step(s, actions[0]).value, actions[1..], end);
    }
  }

  /** After any steps of any calls: at most two runs are in flight, at most one per runner, and no permit is given back
      that was not taken. */
  lemma AtMostTwoInFlight(actions: seq<Action>, s: State)
    requires Run(Start(), actions) == Some(s)
    ensures |InFlight(s.calls)| <= MAX_CONCURRENT_ARCHIVE_JOBS && s.permits <= MAX_CONCURRENT_ARCHIVE_JOBS
    ensures forall c, d :: c in InFlight(s.calls) && d in InFlight(s.calls) && c != d ==>
              s.calls[c].runner != s.calls[d].runner
    ensures forall c :: c in s.calls && s.calls[c].pc == ReturningPermit ==> s.permits < MAX_CONCURRENT_ARCHIVE_JOBS
  {
    hide Run;
    assert InFlight(map[]) == {};
    RunKeeps(Start(), actions, s);
    forall c, d | c in InFlight(s.calls) && d in InFlight(s.calls)
                  && s.calls[c].runner == s.calls[d].runner ensures c == d {
      assert Holds(s, c, s.calls[c].runner) && Holds(s, d, s.calls[c].runner);
    }
    forall c | c in s.calls && s.calls[c].pc == ReturningPermit
      ensures s.permits < MAX_CONCURRENT_ARCHIVE_JOBS
    {
      assert c in InFlight(s.calls);
    }
  }

  /** Once every call is back, every lock and every permit is too. */
  lemma EverythingIsReturned(actions: seq<Action>, s: State)
    requires Run(Start(), actions) == Some(s)
    requires forall c :: c in s.calls ==> s.calls[c].pc == Back
    ensures s.locked == {} && s.permits == MAX_CONCURRENT_ARCHIVE_JOBS
  {
    hide Run;
    assert InFlight(map[]) == {};
    RunKeeps(Start(), actions, s);
    assert forall c, r :: !Holds(s, c, r);
    assert InFlight(s.calls) == {};
  }

  /** A call is turned away for two reasons only: it goes on past the lock exactly when no other call on its runner
      holds it, and runs exactly when fewer than two runs are in flight; otherwise it goes back without a run. */
  lemma TurnedAwayOnlyWhenBusy(actions: seq<Action>, s: State, call: nat)
    requires Run(Start(), actions) == Some(s) && call in s.calls && Step(s, Advance(call)).Some?
    ensures var before, after := s.calls[call], Step(s, Advance(call)).value.calls[call];
            && after.runner == before.runner
            && (before.pc == TryingLock ==>
                  if exists c :: Holds(s, c, before.runner) then after.pc == Back else after.pc == TryingPermit)
            && (before.pc == TryingPermit ==>
                  if |InFlight(s.calls)| < MAX_CONCURRENT_ARCHIVE_JOBS then after.pc == Running
                  else after.pc == ReturningLock)
  {
    hide Run, InFlight;
    assert InFlight(map[]) == {} by { NothingInFlight(); }
    RunKeeps(Start(), actions, s);
    var runner := s.calls[call].runner;
    if c :| Holds(s, c, runner) {
      assert runner in s.locked;
    }
  }

  lemma NothingInFlight()
    ensures InFlight(map[]) == {}
  {
  }
}
