/**
  exec ends after a completed stop: a measure that every step of the loop thread decreases once
  the state is no longer Running, and from it the statement about fair infinite runs.
 */
module ExecLiveness {
  import opened Wrappers
  import opened Events
  import opened FdRegistry
  import opened Dispatch
  import opened ExecLoop
  import opened ExecSafety
  import opened ExecTheorems

  // The measure ------------------------------------------------------------------------------

  function Phase(pc: LoopPc): nat {
    match pc
    case NotStarted => 10
    case Finding(_, _) => 9
    case Refinding(_) => 9
    case Examining(_, _) => 8
    case Calling(_, _) => 7
    case InCallback(_, _, _) => 6
    case Called(_) => 5
    case Testing(_, _) => 4
    case Draining => 3
    case Waiting => 3
    case Waited(_) => 2
    case Checking => 2
    case Exiting => 1
    case _ => 0
  }

  function StepsLeft(pc: StopPc): nat {
    match pc
    case Entered => 3
    case Won => 2
    case Stored => 1
    case _ => 0
  }

  /** Within a phase: event types still to examine, or commands still to run. */
  function Remaining(s: State): nat {
    match s.loop
    case Examining(at, _) => if at.k <= |EVENT_TYPES| then |EVENT_TYPES| - at.k else 0
    case InCallback(_, fuel, nested) =>
      4 * fuel + (if nested.Some? && nested.value in s.q.stops then StepsLeft(s.q.stops[nested.value].pc) else 0)
    case _ => 0
  }

  predicate Less(s': State, s: State) {
    || Phase(s'.loop) < Phase(s.loop)
    || (Phase(s'.loop) == Phase(s.loop) && Remaining(s') < Remaining(s))
  }

  predicate NotMore(s': State, s: State) {
    Less(s', s) || (Phase(s'.loop) == Phase(s.loop) && Remaining(s') == Remaining(s))
  }

  /** Every step of the loop thread makes progress once the queue no longer runs. */
  lemma LoopStepDecreases(s: State, step: LoopStep)
    requires Lifecycle(s) && Position(s) && LoopEnabled(s, step) && !s.q.state.Running?
    ensures Less(NextLoop(s, step), s)
  {
    match step {
      case NestedStop(written) => NestedDecreases(s, written);
      case _ =>
    }
  }

  lemma NestedDecreases(s: State, written: bool)
    requires LoopEnabled(s, NestedStop(written))
    ensures Less(NestedAdvance(s, written), s)
  {
  }

  /** Steps of other threads neither move the loop thread nor undo its progress. */
  lemma OtherStepsKeepMeasure(s: State, a: Action)
    requires Lifecycle(s) && StopCalls(s) && Enabled(s, a) && !a.Loop? && !s.loop.NotStarted?
    ensures Next(s, a).loop == s.loop
    ensures Remaining(Next(s, a)) == Remaining(s)
  {
  }

  /**
    Unless it sleeps in epoll_wait or exec has ended, the loop thread has a next step, and one
    that does not rest on anything but the wake-up descriptor to end the wait.
   */
  lemma LoopCanMove(s: State) returns (step: LoopStep)
    requires Reachable(s) && !s.loop.NotStarted? && !Finished(s.loop) && !Blocked(s)
    ensures LoopEnabled(s, step) && !step.WaitInterrupted? && !step.WaitFails?
    ensures step.WaitReturns? ==> CanReport(s, step.batch)
  {
    ReachableInv(s);
    match s.loop {
      case Draining => step := Drain(true);
      case Checking => step := Check;
      case Waiting => step := WaitReturns([Event({In}, s.evtfd)]);
      case Waited(_) => step := TryStopped;
      case Testing(_, _) => step := Test;
      case Finding(_, _) => step := LoopStep.Find;
      case Examining(_, _) => step := Examine;
      case Calling(_, _) => step := Begin(0);
      case InCallback(_, _, nested) => step := if nested.Some? then NestedStop(false) else Finish;
      case Called(_) => step := Retest;
      case Refinding(_) => step := Refind;
      case Exiting => step := LoadCode;
    }
  }

  // Missing the exit code --------------------------------------------------------------------

  /** Another thread's stop has won and has yet to store its value; exec is under way. */
  predicate CodeStillInitial(s: State) {
    && HasWinner(s) && Winner(s).pc.Won? && !NestedIn(s.loop, s.hist.wins[0]) && !Finished(s.loop)
  }

  /** A step by which the loop thread heads for the end of exec without waiting for anyone. */
  lemma StepTowardsEnd(s: State) returns (step: LoopStep)
    requires Inv(s) && CodeStillInitial(s)
    ensures LoopEnabled(s, step) && Less(NextLoop(s, step), s)
    ensures var s' := NextLoop(s, step);
            && HasWinner(s') && Winner(s') == Winner(s) && (CodeStillInitial(s') || s'.loop == Returned(1, false))
  {
    match s.loop {
      case Draining => step := Drain(true);
      case Checking => step := Check;
      case Waiting => step := WaitInterrupted;
      case Waited(_) => step := TryStopped;
      case Testing(_, _) => step := Test;
      case Finding(_, _) => step := LoopStep.Find;
      case Examining(_, _) => step := Examine;
      case Calling(_, _) => step := Begin(0);
      case InCallback(_, _, nested) => step := if nested.Some? then NestedStop(false) else Finish;
      case Called(_) => step := Retest;
      case Refinding(_) => step := Refind;
      case Exiting => step := LoadCode;
    }
    LoopStepDecreases(s, step);
  }

  /**
    As long as another thread's stop has won but not stored its value, and exec has not ended,
    exec can still return 1.
   */
  lemma {:induction false} ExecCanStillReturnOne(s0: State, s: State) returns (s': State)
    requires Inv(s0) && Leads(s0, s) && CodeStillInitial(s)
    ensures Leads(s0, s') && s'.loop == Returned(1, false) && HasWinner(s') && Winner(s') == Winner(s)
    decreases Phase(s.loop), Remaining(s)
  {
    LeadsKeepsInv(s0, s);
    var step := StepTowardsEnd(s);
    s' := Take(s0, s, Loop(step));
    if s'.loop != Returned(1, false) {
      s' := ExecCanStillReturnOne(s0, s');
    }
  }

  // Fair runs --------------------------------------------------------------------------------

  type States = nat -> State
  type Actions = nat -> Action

  ghost predicate InfiniteRun(f: States, a: Actions) {
    && (exists evtfd, wakeUp :: f(0) == Init(evtfd, wakeUp))
    && (forall n: nat :: StepAt(f, a, n))
  }

  ghost predicate StepAt(f: States, a: Actions, n: nat) {
    Enabled(f(n), a(n)) && f(n + 1) == Next(f(n), a(n))
  }

  /** The scheduler always gets back to the loop thread, unless that sleeps or is done. */
  ghost predicate Fair(f: States, a: Actions) {
    forall n: nat :: ComesUp(f, a, n)
  }

  ghost predicate ComesUp(f: States, a: Actions, n: nat) {
    exists m: nat :: n <= m && (a(m).Loop? || Finished(f(m).loop) || Blocked(f(m)))
  }

  lemma {:induction false} InvAlways(f: States, a: Actions, n: nat)
    requires InfiniteRun(f, a)
    ensures Inv(f(n))
  {
    if n == 0 {
      var evtfd, wakeUp :| f(0) == Init(evtfd, wakeUp);
      InitInv(evtfd, wakeUp);
    } else {
      InvAlways(f, a, n - 1);
      assert StepAt(f, a, n - 1);
      StepInv(f(n - 1), a(n - 1));
    }
  }

  /** A stop has won with `value` and returned. */
  predicate StopReturned(s: State, value: int) {
    HasWinner(s) && Winner(s).pc.Written? && Winner(s).value == value
  }

  /** ... and exec has not loaded its code without seeing that value. */
  predicate StopCompleted(s: State, value: int) {
    StopReturned(s, value) && (s.loop.Returned? ==> s.loop.code == value)
  }

  lemma StepKeepsCompleted(s: State, a: Action, value: int)
    requires Protocol(s) && StopCompleted(s, value) && Enabled(s, a)
    ensures StopCompleted(Next(s, a), value)
  {
  }

  lemma CompletedNeverBlocks(s: State, value: int)
    requires Protocol(s) && Registration(s) && StopCompleted(s, value)
    ensures !Blocked(s) && !s.q.state.Running? && !s.loop.NotStarted?
  {
  }

  lemma CompletedStep(s: State, a: Action, value: int)
    requires Inv(s) && StopCompleted(s, value) && Enabled(s, a)
    ensures StopCompleted(Next(s, a), value) && NotMore(Next(s, a), s)
    ensures a.Loop? ==> Less(Next(s, a), s)
  {
    StepKeepsCompleted(s, a, value);
    CompletedNeverBlocks(s, value);
    match a {
      case Loop(step) => LoopStepDecreases(s, step);
      case _ => OtherStepsKeepMeasure(s, a);
    }
  }

  lemma NotMoreTransitive(s: State, s': State, s'': State)
    requires NotMore(s'', s') && NotMore(s', s)
    ensures NotMore(s'', s)
    ensures Less(s'', s') ==> Less(s'', s)
  {
  }

  lemma {:induction false} ProgressIsKept(f: States, a: Actions, n: nat, m: nat, value: int)
    requires InfiniteRun(f, a) && n <= m && StopCompleted(f(n), value)
    ensures StopCompleted(f(m), value) && NotMore(f(m), f(n))
    decreases m - n
  {
    if n == m {
    } else {
      var k := m - 1;
      ProgressIsKept(f, a, n, k, value);
      InvAlways(f, a, k);
      assert StepAt(f, a, k);
      CompletedStep(f(k), a(k), value);
      NotMoreTransitive(f(n), f(k), f(m));
    }
  }

  lemma {:induction false} CompletedStopEnds(f: States, a: Actions, n: nat, value: int) returns (m: nat)
    requires InfiniteRun(f, a) && Fair(f, a) && StopCompleted(f(n), value)
    ensures n <= m && Finished(f(m).loop)
    ensures f(m).loop.Returned? ==> f(m).loop.code == value
    decreases Phase(f(n).loop), Remaining(f(n))
  {
    assert ComesUp(f, a, n);
    m :| n <= m && (a(m).Loop? || Finished(f(m).loop) || Blocked(f(m)));
    InvAlways(f, a, m);
    ProgressIsKept(f, a, n, m, value);
    CompletedNeverBlocks(f(m), value);
    if !Finished(f(m).loop) {
      assert StepAt(f, a, m);
      CompletedStep(f(m), a(m), value);
      NotMoreTransitive(f(n), f(m), f(m + 1));
      m := CompletedStopEnds(f, a, m + 1, value);
    }
  }

  /**
    In every fair infinite run in which a stop wins and returns while exec is under way, exec
    ends: it returns the value of that stop, or it throws.
   */
  lemma CompletedStopEndsExec(f: States, a: Actions, n: nat, value: int) returns (m: nat)
    requires InfiniteRun(f, a) && Fair(f, a) && StopReturned(f(n), value) && !Finished(f(n).loop)
    ensures n <= m && Finished(f(m).loop)
    ensures f(m).loop.Returned? ==> f(m).loop.code == value
  {
    m := CompletedStopEnds(f, a, n, value);
  }

  /** Every stop call that has not ended yet makes another step some time. */
  ghost predicate StopsProceed(f: States) {
    forall n: nat, id :: Proceeds(f, n, id)
  }

  ghost predicate Proceeds(f: States, n: nat, id: StopId) {
    id in f(n).q.stops && Pending(f(n).q.stops[id].pc) ==>
      exists m: nat :: n <= m && CallAt(f, m, id) != CallAt(f, m + 1, id)
  }

  function CallAt(f: States, m: nat, id: StopId): Option<StopCall> {
    if id in f(m).q.stops then Some(f(m).q.stops[id]) else None
  }

  /** The winner stays the winner and its call only moves forward. */
  predicate WinnerAdvanced(s: State, s': State) {
    && HasWinner(s) && HasWinner(s') && s'.hist.wins == s.hist.wins
    && (Winner(s') == Winner(s) || StepsLeft(Winner(s').pc) < StepsLeft(Winner(s).pc))
  }

  lemma StepAdvancesWinner(s: State, a: Action)
    requires Lifecycle(s) && StopCalls(s) && HasWinner(s) && Enabled(s, a)
    ensures WinnerAdvanced(s, Next(s, a))
  {
  }

  lemma {:induction false} WinnerAlong(f: States, a: Actions, n: nat, m: nat)
    requires InfiniteRun(f, a) && n <= m && HasWinner(f(n))
    ensures WinnerAdvanced(f(n), f(m))
    decreases m - n
  {
    if n == m {
    } else {
      var k := m - 1;
      WinnerAlong(f, a, n, k);
      InvAlways(f, a, k);
      assert StepAt(f, a, k);
      StepAdvancesWinner(f(k), a(k));
    }
  }

  lemma WinnerTransitive(s: State, s': State, s'': State)
    requires WinnerAdvanced(s, s') && WinnerAdvanced(s', s'')
    ensures WinnerAdvanced(s, s'')
  {
  }

  /** The call of a winner that is not done gets one step further. */
  lemma WinnerGetsOn(f: States, a: Actions, n: nat) returns (m: nat)
    requires InfiniteRun(f, a) && StopsProceed(f) && HasWinner(f(n)) && Pending(Winner(f(n)).pc)
    ensures n < m && WinnerAdvanced(f(n), f(m)) && StepsLeft(Winner(f(m)).pc) < StepsLeft(Winner(f(n)).pc)
  {
    var id := f(n).hist.wins[0];
    assert Proceeds(f, n, id);
    var k: nat :| n <= k && CallAt(f, k, id) != CallAt(f, k + 1, id);
    WinnerChanges(f, a, n, k);
    m := k + 1;
  }

  lemma WinnerChanges(f: States, a: Actions, n: nat, k: nat)
    requires InfiniteRun(f, a) && HasWinner(f(n)) && n <= k
    requires CallAt(f, k, f(n).hist.wins[0]) != CallAt(f, k + 1, f(n).hist.wins[0])
    ensures WinnerAdvanced(f(n), f(k + 1)) && StepsLeft(Winner(f(k + 1)).pc) < StepsLeft(Winner(f(n)).pc)
  {
    WinnerAlong(f, a, n, k);
    WinnerAlong(f, a, k, k + 1);
    WinnerTransitive(f(n), f(k), f(k + 1));
  }

  lemma {:induction false} WinnerEnds(f: States, a: Actions, n: nat) returns (m: nat)
    requires InfiniteRun(f, a) && StopsProceed(f) && HasWinner(f(n))
    ensures n <= m && WinnerAdvanced(f(n), f(m)) && !Pending(Winner(f(m)).pc)
    decreases StepsLeft(Winner(f(n)).pc)
  {
    if !Pending(Winner(f(n)).pc) {
      m := n;
    } else {
      var k := WinnerGetsOn(f, a, n);
      m := WinnerEnds(f, a, k);
      WinnerTransitive(f(n), f(k), f(m));
    }
  }

  /**
    In every fair infinite run in which a stop wins, exec ends, unless the write of that stop
    fails.
   */
  lemma WinningStopEndsExec(f: States, a: Actions, n: nat) returns (m: nat)
    requires InfiniteRun(f, a) && Fair(f, a) && StopsProceed(f) && HasWinner(f(n))
    ensures n <= m && HasWinner(f(m))
    ensures Finished(f(m).loop) || Winner(f(m)).pc.Failed?
  {
    m := WinnerEnds(f, a, n);
    InvAlways(f, a, m);
    if !Finished(f(m).loop) && Winner(f(m)).pc.Written? {
      var k := CompletedStopEndsExec(f, a, m, Winner(f(m)).value);
      WinnerAlong(f, a, m, k);
      m := k;
    }
  }
}
