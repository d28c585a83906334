/**
  What every step of exec, stop and the callbacks keeps, and what follows for every run.
 */
module ExecSafety {
  import opened Wrappers
  import opened Events
  import opened FdRegistry
  import opened Dispatch
  import opened ExecLoop

  // Invariants -------------------------------------------------------------------------------

  /** The stop call that won, once there is one. */
  predicate HasWinner(s: State) {
    s.hist.wins != [] && s.hist.wins[0] in s.q.stops
  }

  function Winner(s: State): StopCall
    requires HasWinner(s)
  {
    s.q.stops[s.hist.wins[0]]
  }

  ghost predicate Lifecycle(s: State) {
    && s.hist.entered == (if s.q.state.Idle? then 0 else 1)
    && (s.q.state.Idle? <==> s.loop.NotStarted?)
    && |s.hist.wins| <= 1
    && (s.q.state.Idle? || s.q.state.Running? ==> s.hist.wins == [])
    && (s.q.state.Stopping? || s.q.state.Stopped? ==> s.hist.wins != [])
    && (s.q.state.Stopped? ==> s.loop.Exiting? || s.loop.Returned?)
    && (s.q.state.Error? ==> s.loop.Threw?)
    && (s.loop.Exiting? || s.loop.Returned? ==> s.q.state.Stopping? || s.q.state.Stopped?)
  }

  ghost predicate StopCalls(s: State) {
    && (s.hist.wins != [] ==> HasWinner(s))
    && (forall id :: id in s.q.stops ==> (Winning(s.q.stops[id].pc) <==> s.hist.wins == [id]))
    && (s.loop.InCallback? && s.loop.nested.Some? ==>
          s.loop.nested.value in s.q.stops && Pending(s.q.stops[s.loop.nested.value].pc))
  }

  ghost predicate ExitCode(s: State) {
    if HasWinner(s) && PastStore(Winner(s).pc)
    then s.q.exitCode == Winner(s).value && s.hist.stores == 1
    else s.q.exitCode == 1 && s.hist.stores == 0
  }

  ghost predicate FinalCode(s: State) {
    s.loop.Returned? ==>
      && (s.loop.afterStore ==> HasWinner(s) && PastStore(Winner(s).pc) && s.loop.code == Winner(s).value)
      && (!s.loop.afterStore ==> s.loop.code == 1)
  }

  ghost predicate WakeUp(s: State) {
    && s.q.counter <= 1
    && (s.q.counter == 1 ==> HasWinner(s) && Winner(s).pc.Written?)
    && (HasWinner(s) && Winner(s).pc.Written? ==>
          s.q.counter == 1 || s.loop.Checking? || s.loop.Exiting? || Finished(s.loop))
  }

  ghost predicate LateStarts(s: State) {
    s.q.state.Idle? || s.q.state.Running? ==> s.hist.lateStarts == 0
  }

  predicate AtWait(pc: LoopPc) { pc.Waiting? || pc.Waited? }

  /**
    A stop that wins while the loop thread is neither in epoll_wait nor about to test for
    Stopping leaves the state at Stopping for good; one that wins just before that test ends at
    Stopped.
   */
  ghost predicate StopMoment(s: State) {
    s.hist.wins != [] ==>
      && (!AtWait(s.hist.winAt) ==> !AtWait(s.loop) && s.q.state.Stopping?)
      && (s.hist.winAt.Waited? ==> s.loop.Waited? || s.q.state.Stopped?)
  }

  predicate WonInCallback(s: State) {
    HasWinner(s) && NestedIn(s.hist.winAt, s.hist.wins[0])
  }

  /** A stop that wins inside a callback stores its value before the callback goes on. */
  ghost predicate CallbackStop(s: State) {
    WonInCallback(s) ==>
      && (PastStore(Winner(s).pc) || NestedIn(s.loop, s.hist.wins[0]))
      && (s.loop.Returned? ==> s.loop.afterStore)
  }

  ghost predicate WakeUpRegistered(s: State) {
    && s.evtfd in s.reg.fds && s.evtfd in s.reg.interest
    && s.reg.fds[s.evtfd].cbs == WakeUpCallbacks(s.wakeUp)
    && In in s.reg.interest[s.evtfd]
  }

  /** Every position in a batch is in range and the iterator held is the current node's. */
  ghost predicate Position(s: State) {
    match s.loop
    case Finding(batch, i) => i < |batch|
    case Examining(at, it) =>
      at.i < |at.batch| && at.k <= |EVENT_TYPES| && it.fd == at.batch[at.i].fd && Live(s.reg, it)
    case Calling(at, func) =>
      && at.Valid() && at.Reported() && at.Fd() in s.reg.fds
      && CbFunc(s.reg.fds[at.Fd()].cbs, at.Type()) == Some(func)
    case InCallback(at, _, _) => at.Valid()
    case Called(at) => at.Valid()
    case Refinding(at) => at.Valid()
    case _ => true
  }

  /** The race over the state, the exit code and the wake-up counter. */
  ghost predicate Protocol(s: State) {
    && Lifecycle(s) && StopCalls(s) && ExitCode(s) && FinalCode(s)
    && WakeUp(s) && LateStarts(s) && StopMoment(s) && CallbackStop(s)
  }

  /** The registry, the kernel's view of it and the dispatcher's position in it. */
  ghost predicate Registration(s: State) {
    WellFormed(s.reg) && WakeUpRegistered(s) && Position(s) && LogMatches(s)
  }

  // The log ----------------------------------------------------------------------------------

  function After(registered: map<Fd, Callbacks>, entry: LogEntry): map<Fd, Callbacks> {
    match entry
    case Registered(fd, cbs) => registered[fd := cbs]
    case Unregistered(fd) => registered - {fd}
    case Began(_) => registered
  }

  /** The registrations in force after a log, from the log alone. */
  function Replay(log: seq<LogEntry>): map<Fd, Callbacks>
    decreases |log|
  {
    if log == [] then map[] else After(Replay(log[..|log| - 1]), log[|log| - 1])
  }

  predicate CurrentIn(registered: map<Fd, Callbacks>, start: Start) {
    start.fd in registered && CbFunc(registered[start.fd], start.event) == Some(start.callback)
  }

  /** Every callback begun was the registered one at that moment. */
  ghost predicate OnlyCurrent(log: seq<LogEntry>) {
    forall p :: 0 <= p < |log| && log[p].Began? ==> CurrentIn(Replay(log[..p]), log[p].start)
  }

  ghost predicate Mirrors(registered: map<Fd, Callbacks>, r: Registry) {
    && (forall fd :: fd in registered <==> fd in r.fds)
    && (forall fd :: fd in registered && fd in r.fds ==> registered[fd] == r.fds[fd].cbs)
  }

  ghost predicate LogMatches(s: State) {
    OnlyCurrent(s.hist.log) && Mirrors(Replay(s.hist.log), s.reg)
  }

  lemma AppendLog(log: seq<LogEntry>, entry: LogEntry)
    requires OnlyCurrent(log)
    requires entry.Began? ==> CurrentIn(Replay(log), entry.start)
    ensures OnlyCurrent(log + [entry])
    ensures Replay(log + [entry]) == After(Replay(log), entry)
  {
    var log' := log + [entry];
    assert log'[..|log'| - 1] == log;
    forall p | 0 <= p < |log'| && log'[p].Began? ensures CurrentIn(Replay(log'[..p]), log'[p].start) {
      assert log'[..p] == log[..p];
    }
  }

  // One step ---------------------------------------------------------------------------------

  lemma AdvanceKeepsStopCalls(s: State, id: StopId, written: bool)
    requires Lifecycle(s) && StopCalls(s) && StopEnabled(s.q, id, written) && !NestedIn(s.loop, id)
    ensures StopCalls(AdvanceStop(s, id, written))
  {
  }

  lemma NestedKeepsStopCalls(s: State, written: bool)
    requires Lifecycle(s) && StopCalls(s) && LoopEnabled(s, NestedStop(written))
    ensures StopCalls(NestedAdvance(s, written))
  {
    var outside := s.(loop := InCallback(s.loop.at, s.loop.fuel, None));
    AdvanceKeepsStopCalls(outside, s.loop.nested.value, written);
  }

  /** Steps of the loop thread outside stop leave the stop calls and the exit code alone. */
  lemma QuietLoopStep(s: State, step: LoopStep)
    requires LoopEnabled(s, step) && !step.NestedStop? && !step.EnterStop?
    ensures var s' := NextLoop(s, step);
            && s'.q.stops == s.q.stops && s'.q.exitCode == s.q.exitCode
            && s'.hist.wins == s.hist.wins && s'.hist.stores == s.hist.stores
            && (s'.loop.InCallback? ==> s'.loop.nested.None?)
            && (s'.loop.Returned? ==> s'.loop == Returned(s.q.exitCode, s.hist.stores > 0))
  {
  }

  lemma LoopKeepsStopCalls(s: State, step: LoopStep)
    requires Lifecycle(s) && StopCalls(s) && LoopEnabled(s, step)
    ensures StopCalls(NextLoop(s, step))
  {
    match step {
      case NestedStop(written) => NestedKeepsStopCalls(s, written);
      case EnterStop(_, _) =>
      case _ => QuietLoopStep(s, step);
    }
  }

  lemma StepStopCalls(s: State, a: Action)
    requires Lifecycle(s) && StopCalls(s) && Enabled(s, a)
    ensures StopCalls(Next(s, a))
  {
    match a {
      case Stopper(id, written) => AdvanceKeepsStopCalls(s, id, written);
      case Loop(step) => LoopKeepsStopCalls(s, step);
      case _ =>
    }
  }

  lemma LoopKeepsLifecycle(s: State, step: LoopStep)
    requires Lifecycle(s) && LoopEnabled(s, step)
    ensures Lifecycle(NextLoop(s, step))
  {
  }

  lemma StepLifecycle(s: State, a: Action)
    requires Lifecycle(s) && Enabled(s, a)
    ensures Lifecycle(Next(s, a))
  {
    match a {
      case Loop(step) => LoopKeepsLifecycle(s, step);
      case _ =>
    }
  }

  lemma AdvanceKeepsExitCode(s: State, id: StopId, written: bool)
    requires Lifecycle(s) && StopCalls(s) && ExitCode(s) && FinalCode(s) && StopEnabled(s.q, id, written)
    ensures ExitCode(AdvanceStop(s, id, written)) && FinalCode(AdvanceStop(s, id, written))
  {
  }

  lemma LoopKeepsExitCode(s: State, step: LoopStep)
    requires Lifecycle(s) && StopCalls(s) && ExitCode(s) && FinalCode(s) && LoopEnabled(s, step)
    ensures ExitCode(NextLoop(s, step)) && FinalCode(NextLoop(s, step))
  {
    match step {
      case NestedStop(written) => AdvanceKeepsExitCode(s, s.loop.nested.value, written);
      case EnterStop(_, _) =>
      case _ => QuietLoopStep(s, step);
    }
  }

  lemma StepExitCode(s: State, a: Action)
    requires Lifecycle(s) && StopCalls(s) && ExitCode(s) && FinalCode(s) && Enabled(s, a)
    ensures ExitCode(Next(s, a)) && FinalCode(Next(s, a))
  {
    match a {
      case Stopper(id, written) => AdvanceKeepsExitCode(s, id, written);
      case Loop(step) => LoopKeepsExitCode(s, step);
      case _ =>
    }
  }

  lemma AdvanceKeepsWakeUp(s: State, id: StopId, written: bool)
    requires Lifecycle(s) && StopCalls(s) && WakeUp(s) && StopEnabled(s.q, id, written)
    ensures WakeUp(AdvanceStop(s, id, written))
    ensures s.loop.InCallback? ==>
              WakeUp(AdvanceStop(s, id, written).(loop := InCallback(s.loop.at, s.loop.fuel, None)))
  {
  }

  lemma LoopKeepsWakeUp(s: State, step: LoopStep)
    requires Lifecycle(s) && StopCalls(s) && WakeUp(s) && LoopEnabled(s, step)
    ensures WakeUp(NextLoop(s, step))
  {
    match step {
      case NestedStop(written) => AdvanceKeepsWakeUp(s, s.loop.nested.value, written);
      case EnterStop(_, _) =>
      case _ => QuietLoopStep(s, step);
    }
  }

  lemma StepWakeUp(s: State, a: Action)
    requires Lifecycle(s) && StopCalls(s) && WakeUp(s) && Enabled(s, a)
    ensures WakeUp(Next(s, a))
  {
    match a {
      case Loop(step) => LoopKeepsWakeUp(s, step);
      case _ =>
    }
  }

  lemma StepLateStarts(s: State, a: Action)
    requires Lifecycle(s) && LateStarts(s) && Enabled(s, a)
    ensures LateStarts(Next(s, a))
  {
  }

  lemma LoopKeepsStopMoment(s: State, step: LoopStep)
    requires Lifecycle(s) && StopMoment(s) && LoopEnabled(s, step)
    ensures StopMoment(NextLoop(s, step))
  {
  }

  lemma StepStopMoment(s: State, a: Action)
    requires Lifecycle(s) && StopMoment(s) && Enabled(s, a)
    ensures StopMoment(Next(s, a))
  {
    match a {
      case Loop(step) => LoopKeepsStopMoment(s, step);
      case _ =>
    }
  }

  lemma LoopKeepsCallbackStop(s: State, step: LoopStep)
    requires Lifecycle(s) && StopCalls(s) && ExitCode(s) && CallbackStop(s) && LoopEnabled(s, step)
    ensures CallbackStop(NextLoop(s, step))
  {
  }

  lemma StepCallbackStop(s: State, a: Action)
    requires Lifecycle(s) && StopCalls(s) && ExitCode(s) && CallbackStop(s) && Enabled(s, a)
    ensures CallbackStop(Next(s, a))
  {
    match a {
      case Loop(step) => LoopKeepsCallbackStop(s, step);
      case _ =>
    }
  }

  lemma StepProtocol(s: State, a: Action)
    requires Protocol(s) && Enabled(s, a)
    ensures Protocol(Next(s, a))
  {
    StepLifecycle(s, a);
    StepStopCalls(s, a);
    StepExitCode(s, a);
    StepWakeUp(s, a);
    StepLateStarts(s, a);
    StepStopMoment(s, a);
    StepCallbackStop(s, a);
  }

  // Registration

  lemma ChangeKeepsRegistration(s: State, op: Op, ctl: bool)
    requires Registration(s) && op.fd != s.evtfd
    requires !s.loop.Examining? && !s.loop.Calling?
    ensures Registration(ChangeRegistry(s, op, ctl))
  {
    var r' := Apply(s.reg, op, ctl).reg;
    ApplyKeepsWellFormed(s.reg, op, ctl);
    OthersUntouched(s.reg, op, ctl, s.evtfd);
    AppendLog(s.hist.log, LogOf(r', op.fd));
    var registered := Replay(s.hist.log + [LogOf(r', op.fd)]);
    forall fd
      ensures fd in registered <==> fd in r'.fds
      ensures fd in registered && fd in r'.fds ==> registered[fd] == r'.fds[fd].cbs
    {
      if fd != op.fd {
        OthersUntouched(s.reg, op, ctl, fd);
      }
    }
  }

  lemma BeginKeepsRegistration(s: State, fuel: nat)
    requires Registration(s) && LoopEnabled(s, Begin(fuel))
    ensures Registration(BeginCallback(s, fuel))
  {
    AppendLog(s.hist.log, Began(Start(s.loop.at.Fd(), s.loop.at.Type(), s.loop.func)));
  }

  lemma LoopKeepsPosition(s: State, step: LoopStep)
    requires Registration(s) && LoopEnabled(s, step)
    requires !step.Begin? && !step.Change?
    ensures var s' := NextLoop(s, step);
            Position(s') && s'.reg == s.reg && s'.hist.log == s.hist.log && s'.evtfd == s.evtfd && s'.wakeUp == s.wakeUp
  {
  }

  lemma LoopKeepsRegistration(s: State, step: LoopStep)
    requires Registration(s) && LoopEnabled(s, step)
    ensures Registration(NextLoop(s, step))
  {
    match step {
      case Change(op, ctl) => ChangeKeepsRegistration(s.(loop := UseFuel(s.loop, None)), op, ctl);
      case Begin(fuel) => BeginKeepsRegistration(s, fuel);
      case _ => LoopKeepsPosition(s, step);
    }
  }

  lemma AdvanceKeepsRegistration(s: State, id: StopId, written: bool)
    requires Registration(s) && StopEnabled(s.q, id, written)
    ensures Registration(AdvanceStop(s, id, written))
  {
    var s' := AdvanceStop(s, id, written);
    assert s'.reg == s.reg && s'.loop == s.loop && s'.hist.log == s.hist.log;
  }

  lemma StepRegistration(s: State, a: Action)
    requires Registration(s) && Enabled(s, a)
    ensures Registration(Next(s, a))
  {
    match a {
      case Client(op, ctl) => ChangeKeepsRegistration(s, op, ctl);
      case Loop(step) => LoopKeepsRegistration(s, step);
      case Stopper(id, written) => AdvanceKeepsRegistration(s, id, written);
      case Close(fd) => CloseKeepsWellFormed(s.reg, fd);
      case _ =>
    }
  }
}
