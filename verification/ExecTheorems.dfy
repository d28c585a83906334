/**
  Statements about every run of exec and stop, from the constructed queue on.
 */
module ExecTheorems {
  import opened Wrappers
  import opened Events
  import opened FdRegistry
  import opened Dispatch
  import opened ExecLoop
  import opened ExecSafety

  ghost predicate Inv(s: State) {
    Protocol(s) && Registration(s)
  }

  lemma InitInv(evtfd: Fd, wakeUp: CallbackId)
    ensures Inv(Init(evtfd, wakeUp))
  {
    var log := Init(evtfd, wakeUp).hist.log;
    AppendLog([], log[0]);
    assert [] + [log[0]] == log;
    assert EventMask(InitialRegistry(evtfd, wakeUp).fds[evtfd].cbs) == {In};
  }

  lemma StepInv(s: State, a: Action)
    requires Inv(s) && Enabled(s, a)
    ensures Inv(Next(s, a))
  {
    StepProtocol(s, a);
    StepRegistration(s, a);
  }

  lemma {:induction false} RunKeepsInv(s: State, actions: seq<Action>)
    requires Inv(s) && IsRun(s, actions)
    ensures Inv(RunFrom(s, actions))
    decreases |actions|
  {
    if actions == [] {
    } else {
      StepInv(s, actions[0]);
      RunKeepsInv(Next(s, actions[0]), actions[1..]);
    }
  }

  /** In a callback, but not in a stop it called. */
  predicate Inside(pc: LoopPc) {
    pc.InCallback? && pc.nested.None?
  }

  ghost predicate Leads(s: State, s': State) {
    exists actions :: IsRun(s, actions) && RunFrom(s, actions) == s'
  }

  ghost predicate Reachable(s: State) {
    exists evtfd, wakeUp :: Leads(Init(evtfd, wakeUp), s)
  }

  lemma ReachableInv(s: State)
    requires Reachable(s)
    ensures Inv(s)
  {
    var evtfd, wakeUp :| Leads(Init(evtfd, wakeUp), s);
    InitInv(evtfd, wakeUp);
    LeadsKeepsInv(Init(evtfd, wakeUp), s);
  }

  lemma LeadsKeepsInv(s: State, s': State)
    requires Inv(s) && Leads(s, s')
    ensures Inv(s')
  {
    var actions :| IsRun(s, actions) && RunFrom(s, actions) == s';
    RunKeepsInv(s, actions);
  }

  lemma {:induction false} JoinRuns(s: State, a: seq<Action>, b: seq<Action>)
    requires IsRun(s, a) && IsRun(RunFrom(s, a), b)
    ensures IsRun(s, a + b) && RunFrom(s, a + b) == RunFrom(RunFrom(s, a), b)
    decreases |a|
  {
    if a == [] {
      assert a + b == b;
    } else {
      JoinRuns(Next(s, a[0]), a[1..], b);
      assert (a + b)[1..] == a[1..] + b;
    }
  }

  lemma LeadsOn(s: State, s': State, s'': State)
    requires Leads(s, s') && Leads(s', s'')
    ensures Leads(s, s'')
  {
    var a :| IsRun(s, a) && RunFrom(s, a) == s';
    var b :| IsRun(s', b) && RunFrom(s', b) == s'';
    JoinRuns(s, a, b);
  }

  lemma Take(s0: State, s: State, a: Action) returns (s': State)
    requires Leads(s0, s) && Enabled(s, a)
    ensures s' == Next(s, a) && Leads(s0, s')
  {
    var actions :| IsRun(s0, actions) && RunFrom(s0, actions) == s;
    assert [a][1..] == [];
    assert IsRun(s, [a]);
    JoinRuns(s0, actions, [a]);
    s' := Next(s, a);
  }

  lemma LeadsNowhere(s: State)
    ensures Leads(s, s)
  {
    assert IsRun(s, []) && RunFrom(s, []) == s;
  }

  // Waking up --------------------------------------------------------------------------------

  /** epoll_wait may sleep: the wake-up descriptor does not make it return. */
  predicate Blocked(s: State) {
    s.loop.Waiting? && !(s.evtfd in s.reg.interest && In in s.reg.interest[s.evtfd] && s.q.counter > 0)
  }

  /**
    No stop is lost: with a stop under way, a loop thread at epoll_wait can sleep exactly as
    long as the winning call has not written its wake-up. A call that returned has.
   */
  lemma NoLostStop(s: State)
    requires Reachable(s)
    requires s.loop.Waiting? && !s.q.state.Running?
    ensures s.q.state.Stopping? && HasWinner(s)
    ensures Blocked(s) <==> !Winner(s).pc.Written?
    ensures s.q.counter > 0 || Pending(Winner(s).pc) || Winner(s).pc.Failed?
  {
    ReachableInv(s);
  }

  /** The write of a winning stop never meets a full counter. */
  lemma WakeUpNeverOverflows(s: State, id: StopId)
    requires Reachable(s) && id in s.q.stops && s.q.stops[id].pc.Stored?
    ensures s.q.counter == 0 && StopEnabled(s.q, id, true)
    ensures AdvanceStop(s, id, true).q.counter == 1
  {
    ReachableInv(s);
  }

  /** A stop whose write fails is lost if the loop thread is already asleep. */
  lemma FailedWriteLosesStop(evtfd: Fd, wakeUp: CallbackId, value: int) returns (s: State)
    ensures Leads(Init(evtfd, wakeUp), s)
    ensures s.q.state.Stopping? && Blocked(s) && s.q.stops == map[0 := StopCall(value, Failed)]
  {
    s := AsleepAtWait(evtfd, wakeUp);
    s := Take(Init(evtfd, wakeUp), s, NewStop(0, value));
    s := Take(Init(evtfd, wakeUp), s, Stopper(0, true));
    s := Take(Init(evtfd, wakeUp), s, Stopper(0, true));
    s := Take(Init(evtfd, wakeUp), s, Stopper(0, false));
  }

  lemma AsleepAtWait(evtfd: Fd, wakeUp: CallbackId) returns (s: State)
    ensures Leads(Init(evtfd, wakeUp), s)
    ensures s == Init(evtfd, wakeUp).(q := Shared(Running, 1, 0, map[]), loop := Waiting,
                                      hist := Init(evtfd, wakeUp).hist.(entered := 1))
  {
    s := Init(evtfd, wakeUp);
    LeadsNowhere(s);
    s := Take(Init(evtfd, wakeUp), s, Exec);
    s := Take(Init(evtfd, wakeUp), s, Loop(Drain(true)));
    s := Take(Init(evtfd, wakeUp), s, Loop(Check));
  }

  // Lifecycle --------------------------------------------------------------------------------

  /** One step of the run state, or none. */
  predicate Edge(before: RunState, after: RunState) {
    || before == after
    || (before.Idle? && after.Running?)
    || (before.Running? && (after.Stopping? || after.Error?))
    || (before.Stopping? && (after.Stopped? || after.Error?))
  }

  /** The order in which states can follow each other over any number of steps. */
  predicate Precedes(before: RunState, after: RunState) {
    match before
    case Idle => true
    case Running => !after.Idle?
    case Stopping => !after.Idle? && !after.Running?
    case Stopped => after.Stopped?
    case Error => after.Error?
  }

  lemma StepFollowsEdge(s: State, a: Action)
    requires Protocol(s) && Enabled(s, a)
    ensures Edge(s.q.state, Next(s, a).q.state)
    ensures s.hist.wins <= Next(s, a).hist.wins && s.hist.entered <= Next(s, a).hist.entered
  {
  }

  /**
    The run state only moves forward, exec enters at most once, at most one stop wins and the
    wake-up counter never exceeds 1.
   */
  lemma {:induction false} LifecycleOverRuns(s: State, actions: seq<Action>)
    requires Inv(s) && IsRun(s, actions)
    ensures Precedes(s.q.state, RunFrom(s, actions).q.state)
    ensures s.hist.wins <= RunFrom(s, actions).hist.wins && |RunFrom(s, actions).hist.wins| <= 1
    ensures s.hist.entered <= RunFrom(s, actions).hist.entered <= 1
    ensures RunFrom(s, actions).q.counter <= 1
    decreases |actions|
  {
    if actions == [] {
    } else {
      StepFollowsEdge(s, actions[0]);
      StepInv(s, actions[0]);
      LifecycleOverRuns(Next(s, actions[0]), actions[1..]);
    }
  }

  /** A nested or later exec throws and changes nothing; a stop before exec has no effect. */
  lemma OneExecOneWinner(s: State, id: StopId, id': StopId)
    requires Reachable(s)
    ensures Next(s, Exec) == s <==> !s.loop.NotStarted?
    ensures id in s.q.stops && id' in s.q.stops && Winning(s.q.stops[id].pc) && Winning(s.q.stops[id'].pc)
            ==> id == id'
    ensures s.loop.NotStarted? && id in s.q.stops ==> !Winning(s.q.stops[id].pc)
  {
    ReachableInv(s);
  }

  /** `running` answers true although no exec is under way, and none can be again. */
  predicate Abandoned(s: State) {
    s.q.state.Running? && Finished(s.loop)
  }

  /**
    That comes about exactly when exec ends with the state at Running, by a drain that fails or
    an exception that is not a std::exception, and it ends exactly when a stop wins.
   */
  lemma AbandonedExactly(s: State, a: Action)
    requires Reachable(s) && Enabled(s, a)
    ensures !Abandoned(s) ==>
              (Abandoned(Next(s, a)) <==> s.q.state.Running? && (a == Loop(Drain(false)) || a == Loop(Escape)))
    ensures Abandoned(s) ==>
              && (Abandoned(Next(s, a)) <==> !(a.Stopper? && s.q.stops[a.id].pc.Entered?))
              && Next(s, Exec) == s
  {
    ReachableInv(s);
    match a {
      case Loop(step) => LoopAbandons(s, step);
      case _ =>
    }
  }

  lemma LoopAbandons(s: State, step: LoopStep)
    requires Lifecycle(s) && Position(s) && LoopEnabled(s, step)
    ensures !Abandoned(s)
    ensures Abandoned(NextLoop(s, step)) <==> s.q.state.Running? && (step.Escape? || step == Drain(false))
  {
  }

  // Callbacks --------------------------------------------------------------------------------

  /** The event being handled, while the loop thread is between two callbacks of it. */
  predicate AtEvent(pc: LoopPc, batch: Batch, i: nat) {
    match pc
    case Finding(b, n) => b == batch && n == i
    case Examining(at, _) => at.batch == batch && at.i == i
    case Calling(at, _) => at.batch == batch && at.i == i
    case Refinding(at) => at.batch == batch && at.i == i
    case _ => false
  }

  /** From event type `k` on, a callback is registered for a type that event `i` reports. */
  predicate DueFrom(s: State, batch: Batch, i: nat, k: nat) {
    && i < |batch| && batch[i].fd in s.reg.fds
    && Due(s.reg.fds[batch[i].fd].cbs, batch[i].mask, k)
  }

  /** The loop thread will begin another callback before it next looks at the run state. */
  predicate WillCall(s: State) {
    match s.loop
    case Finding(batch, i) => DueFrom(s, batch, i, 0)
    case Examining(at, _) => DueFrom(s, at.batch, at.i, at.k)
    case Calling(_, _) => true
    case Refinding(at) => DueFrom(s, at.batch, at.i, at.k + 1)
    case _ => false
  }

  lemma StepKeepsWillCall(s: State, a: Action)
    requires Lifecycle(s) && Position(s) && Enabled(s, a)
    ensures var s' := Next(s, a);
            if a.Loop? && a.step.Begin? then WillCall(s) && s'.loop.InCallback? && !WillCall(s')
            else if InWindow(s.loop) then WillCall(s') == WillCall(s)
            else WillCall(s') ==> s.q.state.Running?
  {
    match a {
      case Loop(step) =>
        match step {
          case Examine => ExamineKeepsWillCall(s);
          case _ =>
        }
      case _ =>
    }
  }

  lemma ExamineKeepsWillCall(s: State)
    requires Position(s) && LoopEnabled(s, Examine)
    ensures WillCall(NextLoop(s, Examine)) == WillCall(s)
  {
    var at := s.loop.at;
    assert at.Valid() ==> s.loop.it.fd == at.Fd();
    assert at.k == |EVENT_TYPES| ==> !Due(s.reg.fds[at.batch[at.i].fd].cbs, at.batch[at.i].mask, at.k);
  }

  function Late(s: State): nat {
    s.hist.lateStarts + if WillCall(s) then 1 else 0
  }

  lemma {:induction false} LateIsSettled(s: State, actions: seq<Action>)
    requires Inv(s) && IsRun(s, actions) && !s.q.state.Idle? && !s.q.state.Running?
    ensures Late(RunFrom(s, actions)) == Late(s)
    decreases |actions|
  {
    if actions == [] {
    } else {
      StepKeepsWillCall(s, actions[0]);
      StepLate(s, actions[0]);
      StepInv(s, actions[0]);
      StepFollowsEdge(s, actions[0]);
      LateIsSettled(Next(s, actions[0]), actions[1..]);
    }
  }

  lemma StepLate(s: State, a: Action)
    requires Position(s) && Enabled(s, a)
    ensures Next(s, a).hist.lateStarts ==
            s.hist.lateStarts + (if a.Loop? && a.step.Begin? && s.q.state != Running then 1 else 0)
  {
  }

  lemma LeavingRunning(s: State, a: Action)
    requires Inv(s) && s.q.state.Running? && Enabled(s, a) && !Next(s, a).q.state.Running?
    ensures Inv(Next(s, a)) && !Next(s, a).q.state.Idle? && Late(Next(s, a)) == if WillCall(s) then 1 else 0
  {
    StepInv(s, a);
    StepFollowsEdge(s, a);
    StepKeepsWillCall(s, a);
    StepLate(s, a);
  }

  /**
    A callback begins after the state has left Running exactly when, at the step that moved it,
    a callback was due that the loop thread had already checked the state for. There is at most
    one, and none if a callback was in progress.
   */
  lemma LateCallbackExactly(s: State, a: Action, actions: seq<Action>)
    requires Reachable(s) && s.q.state.Running?
    requires Enabled(s, a) && !Next(s, a).q.state.Running? && IsRun(Next(s, a), actions)
    ensures var s' := RunFrom(Next(s, a), actions);
            && s'.hist.lateStarts == (if WillCall(s) && !WillCall(s') then 1 else 0)
            && (!InWindow(s'.loop) ==> (s'.hist.lateStarts == 1 <==> WillCall(s)))
    ensures WillCall(s) ==> InWindow(s.loop)
  {
    ReachableInv(s);
    LeavingRunning(s, a);
    LateIsSettled(Next(s, a), actions);
  }

  /**
    What epoll_wait can report: watched descriptors, each once, each with events it asked for or
    with an error or hang-up; the wake-up descriptor only while its counter is positive.
   */
  predicate CanReport(s: State, batch: Batch) {
    && 0 < |batch| <= MAX_EVENTS
    && (forall i, j :: 0 <= i < j < |batch| ==> batch[i].fd != batch[j].fd)
    && (forall i :: 0 <= i < |batch| ==> IsReport(s, batch[i]))
  }

  predicate IsReport(s: State, event: Event) {
    && event.mask != {} && event.fd in s.reg.interest && event.mask <= s.reg.interest[event.fd] + {Err, Hup}
    && (event.fd == s.evtfd && In in event.mask ==> s.q.counter > 0)
  }

  /** In `s1` exec is at its first wait, on a queue whose clients are registered as in `s`. */
  ghost predicate FirstWait(s: State, s1: State) {
    && s1.q == Shared(Running, 1, 0, map[]) && s1.loop.Waiting? && s1.reg == s.reg && s1.evtfd == s.evtfd
    && s1.hist.log == s.hist.log && s1.hist.lateStarts == 0
  }

  lemma UpToFirstWait(s0: State, s: State) returns (s1: State)
    requires Leads(s0, s) && s.q == Shared(Idle, 1, 0, map[]) && s.hist.lateStarts == 0
    ensures Leads(s0, s1) && FirstWait(s, s1)
  {
    s1 := Take(s0, s, Exec);
    s1 := Take(s0, s1, Loop(Drain(true)));
    s1 := Take(s0, s1, Loop(Check));
  }

  function InputOnly(callback: CallbackId): Callbacks {
    NO_CALLBACKS.(inputAvailable := Some(callback))
  }

  /** A registration function that sets the input callback. */
  function OnInput(callback: CallbackId): RegFn {
    (cbs: Callbacks) => RegOutcome(cbs.(inputAvailable := Some(callback)), false)
  }

  /** From the lookup of event `i`, which reports input, to the call of the input callback. */
  lemma UpToInputCall(s0: State, s: State, callback: CallbackId) returns (s1: State)
    requires Leads(s0, s) && s.loop.Finding? && s.loop.i < |s.loop.batch|
    requires var event := s.loop.batch[s.loop.i];
             event.mask == {In} && event.fd in s.reg.fds && s.reg.fds[event.fd].cbs.inputAvailable == Some(callback)
    ensures Leads(s0, s1) && s1 == s.(loop := Calling(Frame(s.loop.batch, s.loop.i, 2), callback))
  {
    s1 := Take(s0, s, Loop(LoopStep.Find));
    s1 := Take(s0, s1, Loop(Examine));
    s1 := Take(s0, s1, Loop(Examine));
    s1 := Take(s0, s1, Loop(Examine));
  }

  lemma NoMoreTypes(s0: State, s: State) returns (s1: State)
    requires Leads(s0, s) && s.loop.Examining? && s.loop.at.i < |s.loop.at.batch| && s.loop.at.k == 3
    requires s.loop.at.batch[s.loop.at.i].mask == {In}
    ensures Leads(s0, s1) && s1 == s.(loop := Testing(s.loop.at.batch, s.loop.at.i + 1))
  {
    s1 := Take(s0, s, Loop(Examine));
    s1 := Take(s0, s1, Loop(Examine));
    s1 := Take(s0, s1, Loop(Examine));
    s1 := Take(s0, s1, Loop(Examine));
  }

  /** From the end of the input callback of an event that reports only input to the next event. */
  lemma UpToNextEvent(s0: State, s: State) returns (s1: State)
    requires Leads(s0, s) && Inside(s.loop) && s.loop.at.Valid() && s.loop.at.Type().In?
    requires s.q.state.Running? && s.loop.at.Fd() in s.reg.fds
    requires s.loop.at.batch[s.loop.at.i].mask == {In} && s.loop.at.i + 1 < |s.loop.at.batch|
    ensures Leads(s0, s1) && s1 == s.(loop := Finding(s.loop.at.batch, s.loop.at.i + 1))
  {
    s1 := Take(s0, s, Loop(ExecLoop.Finish));
    s1 := Take(s0, s1, Loop(Retest));
    s1 := Take(s0, s1, Loop(Refind));
    s1 := NoMoreTypes(s0, s1);
    s1 := Take(s0, s1, Loop(Test));
  }

  /** From epoll_wait to the lookup of the first event of a batch the kernel can report. */
  lemma UpToFirstEvent(s0: State, s: State, batch: Batch) returns (s1: State)
    requires Leads(s0, s) && s.loop.Waiting? && s.q.state.Running? && CanReport(s, batch)
    ensures Leads(s0, s1) && s1 == s.(loop := Finding(batch, 0))
  {
    s1 := Take(s0, s, Loop(WaitReturns(batch)));
    s1 := Take(s0, s1, Loop(TryStopped));
    s1 := Take(s0, s1, Loop(Test));
  }

  /** The bound is met: a stop can slip in between the check and the call. */
  lemma LateCallbackHappens(evtfd: Fd, wakeUp: CallbackId, fd: Fd, callback: CallbackId) returns (s: State)
    requires fd != evtfd
    ensures Leads(Init(evtfd, wakeUp), s) && s.hist.lateStarts == 1
  {
    var s0 := Init(evtfd, wakeUp);
    LeadsNowhere(s0);
    s := Take(s0, s0, Client(Add(fd, Some(OnInput(callback))), true));
    s := UpToFirstWait(s0, s);
    s := UpToFirstEvent(s0, s, [Event({In}, fd)]);
    s := UpToInputCall(s0, s, callback);
    s := Take(s0, s, NewStop(0, 0));
    s := Take(s0, s, Stopper(0, true));
    s := Take(s0, s, Loop(Begin(0)));
  }

  // Batches ----------------------------------------------------------------------------------

  /** Event `i` of a batch is next or being handled. */
  predicate InBatch(pc: LoopPc, batch: Batch, i: nat) {
    match pc
    case Testing(b, n) => b == batch && n == i
    case InCallback(at, _, _) => at.batch == batch && at.i == i
    case Called(at) => at.batch == batch && at.i == i
    case _ => AtEvent(pc, batch, i)
  }

  lemma StepInBatch(s: State, a: Action, batch: Batch, i: nat)
    requires Inv(s) && Enabled(s, a) && InBatch(s.loop, batch, i)
    requires s.q.state.Running? && Next(s, a).q.state.Running? && !Finished(Next(s, a).loop)
    ensures var pc := Next(s, a).loop;
            || InBatch(pc, batch, i) || (!s.loop.Testing? && pc == Testing(batch, i + 1))
            || (s.loop.Testing? && pc.Checking? && i >= |batch|)
    ensures s.loop.Testing? && Next(s, a).loop != s.loop && i < |batch| ==> Next(s, a).loop == Finding(batch, i)
  {
  }

  /** A run that ends when the loop thread is back at the outer loop, with exec still under way. */
  predicate UntilChecking(s: State, actions: seq<Action>)
    requires IsRun(s, actions)
    decreases |actions|
  {
    if s.loop.Checking? then actions == []
    else actions != [] && !Finished(s.loop) && UntilChecking(Next(s, actions[0]), actions[1..])
  }

  /** Somewhere in the run event `j` of the batch is about to be handled. */
  predicate Reaches(s: State, actions: seq<Action>, batch: Batch, j: nat)
    requires IsRun(s, actions)
    decreases |actions|
  {
    s.loop == Finding(batch, j) || (actions != [] && Reaches(Next(s, actions[0]), actions[1..], batch, j))
  }

  /** If the queue is still running when a batch is done with, every event of it was handled. */
  lemma {:induction false} EveryEventIsReached(s: State, actions: seq<Action>, batch: Batch, i: nat, j: nat)
    requires Inv(s) && InBatch(s.loop, batch, i) && IsRun(s, actions) && UntilChecking(s, actions)
    requires RunFrom(s, actions).q.state.Running?
    requires j < |batch| && (i < j || (i == j && s.loop.Testing?))
    ensures Reaches(s, actions, batch, j)
    decreases |actions|
  {
    var s1 := Next(s, actions[0]);
    StepInv(s, actions[0]);
    LifecycleOverRuns(s, actions);
    LifecycleOverRuns(s1, actions[1..]);
    assert !Finished(s1.loop);
    StepInBatch(s, actions[0], batch, i);
    if s1.loop == Finding(batch, j) {
    } else if InBatch(s1.loop, batch, i) {
      EveryEventIsReached(s1, actions[1..], batch, i, j);
    } else {
      EveryEventIsReached(s1, actions[1..], batch, i + 1, j);
    }
  }

  /**
    The iterator held while an event type is examined is the descriptor's current node, and the
    function about to be called is the one registered for the reported event type now.
   */
  lemma NoStaleIterator(s: State)
    requires Reachable(s)
    ensures s.loop.Examining? ==> Live(s.reg, s.loop.it) && Some(s.loop.it) == FdRegistry.Find(s.reg, s.loop.it.fd)
    ensures s.loop.Calling? ==>
              && s.loop.at.Valid() && s.loop.at.Reported() && s.loop.at.Fd() in s.reg.fds
              && CbFunc(s.reg.fds[s.loop.at.Fd()].cbs, s.loop.at.Type()) == Some(s.loop.func)
  {
    ReachableInv(s);
  }

  /** Every callback of a run was, when it began, the one its descriptor was registered with. */
  lemma OnlyCurrentCallbacksBegin(s: State, p: nat)
    requires Reachable(s) && p < |s.hist.log| && s.hist.log[p].Began?
    ensures CurrentIn(Replay(s.hist.log[..p]), s.hist.log[p].start)
  {
    ReachableInv(s);
  }

  /** Between a del of a descriptor and its next registration none of its callbacks begins. */
  lemma DelSilences(s: State, fd: Fd, p: nat, q: nat)
    requires Reachable(s) && p < q < |s.hist.log|
    requires s.hist.log[p] == Unregistered(fd)
    requires forall j :: p < j < q ==> !(s.hist.log[j].Registered? && s.hist.log[j].fd == fd)
    ensures s.hist.log[q].Began? ==> s.hist.log[q].start.fd != fd
  {
    ReachableInv(s);
    StaysUnregistered(s.hist.log, fd, p, q);
  }

  lemma {:induction false} StaysUnregistered(log: seq<LogEntry>, fd: Fd, p: nat, q: nat)
    requires p < q <= |log| && log[p] == Unregistered(fd)
    requires forall j :: p < j < q ==> !(log[j].Registered? && log[j].fd == fd)
    ensures fd !in Replay(log[..q])
    decreases q
  {
    assert log[..q][..q - 1] == log[..q - 1];
    if p == q - 1 {
    } else {
      StaysUnregistered(log, fd, p, q - 1);
    }
  }

  /** The loop thread stays with an event until a callback begins or the event is done with. */
  predicate UntilSettled(s: State, actions: seq<Action>)
    requires IsRun(s, actions)
    decreases |actions|
  {
    if !InWindow(s.loop) then actions == []
    else actions != [] && UntilSettled(Next(s, actions[0]), actions[1..])
  }

  /** The callback that begins, if one does, is the one registered for its event type. */
  predicate SettledAs(s: State, s': State, batch: Batch, i: nat) {
    if WillCall(s) then
      && s'.loop.InCallback? && i < |batch| && batch[i].fd in s.reg.fds
      && s'.hist.log != [] && s'.hist.log[..|s'.hist.log| - 1] == s.hist.log
      && var last := s'.hist.log[|s'.hist.log| - 1];
      && last.Began? && last.start.fd == batch[i].fd && last.start.event in batch[i].mask
      && CbFunc(s.reg.fds[batch[i].fd].cbs, last.start.event) == Some(last.start.callback)
    else s'.loop == Testing(batch, i + 1) && s'.hist.log == s.hist.log
  }

  lemma StepAtEvent(s: State, a: Action, batch: Batch, i: nat)
    requires Lifecycle(s) && Position(s) && Enabled(s, a) && AtEvent(s.loop, batch, i)
    ensures var s' := Next(s, a);
            || SettledAs(s, s', batch, i)
            || (AtEvent(s'.loop, batch, i) && WillCall(s') == WillCall(s)
                && s'.hist.log == s.hist.log && s'.reg.fds == s.reg.fds)
  {
    StepKeepsWillCall(s, a);
    var s' := Next(s, a);
    if a.Loop? && a.step.Begin? {
      assert s'.hist.log[..|s'.hist.log| - 1] == s.hist.log;
    }
  }

  /**
    A fetched event begins a callback exactly when its descriptor is registered, at the moment
    the loop thread reaches the event, with a callback for a reported type. So an event fetched
    before a del is processed after all if and only if the descriptor has been registered again.
   */
  lemma {:induction false} FetchedEventExactly(s: State, actions: seq<Action>, batch: Batch, i: nat)
    requires Inv(s) && AtEvent(s.loop, batch, i) && IsRun(s, actions) && UntilSettled(s, actions)
    ensures SettledAs(s, RunFrom(s, actions), batch, i)
    ensures s.loop.Finding? ==>
              (WillCall(s) <==> i < |batch| && batch[i].fd in s.reg.fds
                                && exists e :: e in batch[i].mask && CbFunc(s.reg.fds[batch[i].fd].cbs, e).Some?)
    decreases |actions|
  {
    StepAtEvent(s, actions[0], batch, i);
    StepInv(s, actions[0]);
    var s1 := Next(s, actions[0]);
    if InWindow(s1.loop) {
      FetchedEventExactly(s1, actions[1..], batch, i);
    }
    if s.loop.Finding? && i < |batch| && batch[i].fd in s.reg.fds {
      DueExactly(s.reg.fds[batch[i].fd].cbs, batch[i].mask, 0);
    }
  }

  /** What a callback does that deletes a descriptor and adds it again with a new callback. */
  lemma AddedAgain(s0: State, s: State, fd: Fd, callback: CallbackId) returns (s1: State)
    requires Leads(s0, s) && Inside(s.loop) && s.loop.fuel == 2
    requires fd != s.evtfd && fd in s.reg.fds && fd in s.reg.interest
    ensures Leads(s0, s1) && s1.loop == InCallback(s.loop.at, 0, None) && s1.q == s.q && s1.evtfd == s.evtfd
    ensures s1.hist.log == s.hist.log +
              [Unregistered(fd), Registered(fd, InputOnly(callback))]
    ensures fd in s1.reg.fds && s1.reg.fds[fd].cbs == InputOnly(callback)
    ensures forall other :: other in s.reg.fds ==> other in s1.reg.fds
  {
    s1 := Take(s0, s, Loop(Change(Del(fd), true)));
    s1 := Take(s0, s1, Loop(Change(Add(fd, Some(OnInput(callback))), true)));
  }

  /** exec is at its first wait on a queue with two clients. */
  lemma TwoClientsWaiting(evtfd: Fd, wakeUp: CallbackId, f: Fd, g: Fd, ofF: CallbackId, ofG: CallbackId)
    returns (s: State)
    requires f != evtfd && g != evtfd && f != g
    ensures Leads(Init(evtfd, wakeUp), s) && s.q.state.Running? && s.loop.Waiting? && s.evtfd == evtfd
    ensures s.hist.log == [Registered(evtfd, InputOnly(wakeUp)), Registered(f, InputOnly(ofF)),
                           Registered(g, InputOnly(ofG))]
    ensures f in s.reg.fds && s.reg.fds[f].cbs == InputOnly(ofF) && g in s.reg.fds && g in s.reg.interest
    ensures CanReport(s, [Event({In}, f), Event({In}, g)])
  {
    var s0 := Init(evtfd, wakeUp);
    LeadsNowhere(s0);
    s := Take(s0, s0, Client(Add(f, Some(OnInput(ofF))), true));
    s := Take(s0, s, Client(Add(g, Some(OnInput(ofG))), true));
    s := UpToFirstWait(s0, s);
  }

  /**
    The documentation of del promises that pending events are not processed any more. This run
    fetches an event of `g`, then deletes `g` and adds it again, and then the event begins the
    new callback.
   */
  lemma PendingEventSurvivesDel(
    evtfd: Fd, wakeUp: CallbackId, f: Fd, g: Fd, ofF: CallbackId, oldG: CallbackId, newG: CallbackId)
    returns (s: State)
    requires f != evtfd && g != evtfd && f != g
    ensures Leads(Init(evtfd, wakeUp), s) && s.q.state.Running?
    ensures s.loop == InCallback(Frame([Event({In}, f), Event({In}, g)], 1, 2), 0, None)
    ensures s.hist.log == [Registered(evtfd, InputOnly(wakeUp)), Registered(f, InputOnly(ofF)),
                           Registered(g, InputOnly(oldG)), Began(Start(f, In, ofF)),
                           Unregistered(g), Registered(g, InputOnly(newG)), Began(Start(g, In, newG))]
  {
    var s0 := Init(evtfd, wakeUp);
    s := TwoClientsWaiting(evtfd, wakeUp, f, g, ofF, oldG);
    s := UpToFirstEvent(s0, s, [Event({In}, f), Event({In}, g)]);
    s := UpToInputCall(s0, s, ofF);
    s := Take(s0, s, Loop(Begin(2)));
    s := AddedAgain(s0, s, g, newG);
    s := UpToNextEvent(s0, s);
    s := UpToInputCall(s0, s, newG);
    s := Take(s0, s, Loop(Begin(0)));
  }

  /** The registry the loop works on is the one its log describes, and the kernel agrees. */
  lemma RegistryMatchesKernel(s: State, fd: Fd)
    requires Reachable(s)
    ensures fd in s.reg.fds <==> fd in Replay(s.hist.log)
    ensures fd !in s.reg.suspect ==> Agrees(s.reg, fd)
    ensures s.evtfd in s.reg.interest && In in s.reg.interest[s.evtfd]
  {
    ReachableInv(s);
  }

  // Exit code --------------------------------------------------------------------------------

  /**
    exec returns only after a stop has won, with the winner's value if it was stored by then
    and with the initial 1 otherwise. A stop called from a callback is always stored by then.
   */
  lemma ExitCodeIsTheWinners(s: State)
    requires Reachable(s) && s.loop.Returned?
    ensures HasWinner(s) && (s.q.state.Stopping? || s.q.state.Stopped?)
    ensures s.loop.code == if s.loop.afterStore then Winner(s).value else 1
    ensures WonInCallback(s) ==> s.loop.code == Winner(s).value && s.q.state.Stopping?
    ensures s.hist.winAt.Waited? ==> s.q.state.Stopped?
    ensures s.q.state.Stopped? ==> AtWait(s.hist.winAt)
    ensures s.hist.stores <= 1
  {
    ReachableInv(s);
  }

  /** The stop's value can be missed: exec may load the code before it is stored. */
  lemma ExitCodeCanBeMissed(evtfd: Fd, wakeUp: CallbackId, value: int) returns (s: State)
    ensures Leads(Init(evtfd, wakeUp), s) && HasWinner(s) && Winner(s).value == value
    ensures s.loop == Returned(1, false)
  {
    s := Init(evtfd, wakeUp);
    LeadsNowhere(s);
    s := Take(Init(evtfd, wakeUp), s, Exec);
    s := Take(Init(evtfd, wakeUp), s, Loop(Drain(true)));
    s := Take(Init(evtfd, wakeUp), s, NewStop(0, value));
    s := Take(Init(evtfd, wakeUp), s, Stopper(0, true));
    s := Take(Init(evtfd, wakeUp), s, Loop(Check));
    s := Take(Init(evtfd, wakeUp), s, Loop(LoadCode));
  }
}
