/**
  exec and the dispatcher, as the event queue's methods implement them, describe runs of the
  interleaved machine: whatever holds in every run holds for them. The runs are those that the
  environment settles: they take the observed waits, perform the callbacks' commands and get the
  answers of the system calls, one by one.
 */
module DispatchRefinement {
  import opened Wrappers
  import opened Events
  import opened FdRegistry
  import opened Dispatch
  import opened ExecLoop
  import opened ExecSafety
  import opened ExecTheorems
  import opened Observation

  /** The callbacks begun, from a log. */
  function Starts(log: seq<LogEntry>): seq<Start>
    decreases |log|
  {
    if log == [] then []
    else
      var last := log[|log| - 1];
      Starts(log[..|log| - 1]) + (if last.Began? then [last.start] else [])
  }

  lemma StartsAppend(log: seq<LogEntry>, entry: LogEntry)
    ensures Starts(log + [entry]) == Starts(log) + (if entry.Began? then [entry.start] else [])
  {
    assert (log + [entry])[..|log|] == log;
  }

  /** Another thread's stop has won and has yet to store its code. */
  predicate OutsideWinner(s: State, value: int) {
    HasWinner(s) && Winner(s) == StopCall(value, Won) && !NestedIn(s.loop, s.hist.wins[0])
  }

  /** The machine's registry, state, exit code, counter and callbacks are those of `core`. */
  predicate Shows(s: State, core: Core) {
    && s.reg == core.reg && s.q.state == core.state && s.q.exitCode == core.exitCode
    && s.q.counter == core.counter && Starts(s.hist.log) == core.started
  }

  /** Only another thread's stop can be between its exchange and its store. */
  predicate Matches(s: State, core: Core, env: Env) {
    && Shows(s, core)
    && if core.outside then OutsideWinner(s, env.stopValue) else HasWinner(s) ==> !Winner(s).pc.Won?
  }

  /** Clients never pass the queue's own descriptor, and its callback does nothing. */
  ghost predicate SparesWakeUp(env: Env, s: State) {
    && (forall callback, t :: Spares(env.script(callback, t), s.evtfd))
    && (forall t :: env.script(s.wakeUp, t) == [])
  }

  predicate Spares(cmds: seq<Command>, evtfd: Fd) {
    forall j :: 0 <= j < |cmds| && cmds[j].Call? ==> cmds[j].op.fd != evtfd
  }

  /** A run that the environment settles has come from `o` to `p`, where the queue shows `core`. */
  ghost predicate Along(o: Point, p: Point, core: Core, env: Env) {
    && Reachable(o.s) && Driven(env, o, p) && Matches(p.s, core, env) && p.d.clock == core.clock
    && p.s.evtfd == o.s.evtfd && p.s.wakeUp == o.s.wakeUp && SparesWakeUp(env, o.s)
  }

  /** Nothing that is still to come has come, but for commands of the callback in progress. */
  ghost predicate SameAhead(d: Drive, d': Drive) {
    d'.waits == d.waits && d'.before == d.before && d'.after == d.after && d'.readOk == d.readOk
  }

  /** The parts of the invariant that the simulation rests on. */
  lemma KnownAlong(env: Env, o: Point, p: Point)
    requires Reachable(o.s) && Driven(env, o, p)
    ensures if p.s.q.state.Running? then p.s.hist.wins == [] else p.s.hist.wins != [] ==> HasWinner(p.s)
    ensures p.s.loop.Examining? ==>
              && p.s.loop.at.i < |p.s.loop.at.batch|
              && p.s.loop.it.fd == p.s.loop.at.batch[p.s.loop.at.i].fd && Live(p.s.reg, p.s.loop.it)
    ensures p.s.loop.Calling? && p.s.loop.at.Valid() && p.s.loop.at.Fd() == p.s.evtfd ==> p.s.loop.func == p.s.wakeUp
  {
    DrivenLeads(env, o, p);
    ReachableInv(o.s);
    LeadsKeepsInv(o.s, p.s);
  }

  // Inside a callback ------------------------------------------------------------------------

  /** The stop command that comes first is entered and tries to win. */
  lemma SimulateExchange(o: Point, p: Point, core: Core, value: int, env: Env) returns (p': Point)
    requires Along(o, p, core, env) && Inside(p.s.loop) && p.s.loop.fuel > 0 && NextIsStop(p.d.cmds, value)
    ensures Driven(env, o, p') && SameAhead(p.d, p'.d) && p'.d.clock == core.clock + 1
    ensures p'.s.evtfd == p.s.evtfd && p'.s.wakeUp == p.s.wakeUp
    ensures p'.s.reg == p.s.reg && p'.s.hist.log == p.s.hist.log
    ensures p'.s.q.exitCode == p.s.q.exitCode && p'.s.q.counter == p.s.q.counter
    ensures if p.s.q.state != Running then
              && p'.s.q.state == p.s.q.state && p'.d.cmds == p.d.cmds[1..]
              && p'.s.loop == InCallback(p.s.loop.at, p.s.loop.fuel - 1, None)
              && p'.s.hist.wins == p.s.hist.wins && p'.s.hist.winAt == p.s.hist.winAt
              && (forall id :: id in p.s.q.stops ==> id in p'.s.q.stops && p'.s.q.stops[id] == p.s.q.stops[id])
            else
              && p'.s.q.state == Stopping && p'.d.cmds == p.d.cmds
              && p'.s.loop.InCallback? && p'.s.loop.nested.Some? && p'.s.loop.nested.value in p'.s.q.stops
              && p'.s.loop == InCallback(p.s.loop.at, p.s.loop.fuel - 1, p'.s.loop.nested)
              && p'.s.q.stops[p'.s.loop.nested.value] == StopCall(value, Won)
              && p'.s.hist.wins == [p'.s.loop.nested.value]
  {
    KnownAlong(env, o, p);
    var id := FreshId(p.s.q.stops.Keys);
    p' := Do(env, o, p, Loop(EnterStop(id, value)));
    p' := Do(env, o, p', Loop(NestedStop(true)));
  }

  /** A stop called from a callback that has won stores its value and writes. */
  lemma SimulateStore(o: Point, p: Point, env: Env) returns (p': Point)
    requires Driven(env, o, p) && p.s.loop.InCallback? && p.s.loop.nested.Some? && p.s.loop.nested.value in p.s.q.stops
    requires p.s.q.stops[p.s.loop.nested.value].pc.Won? && p.d.clock > 0 && p.d.cmds != [] && p.d.cmds[0].Stop?
    ensures var written := env.write(p.d.clock - 1) && p.s.q.counter < COUNTER_MAX;
            && Driven(env, o, p') && SameAhead(p.d, p'.d) && p'.d.clock == p.d.clock
            && p'.s.evtfd == p.s.evtfd && p'.s.wakeUp == p.s.wakeUp
            && p'.s.reg == p.s.reg && p'.s.hist.log == p.s.hist.log && p'.s.q.state == p.s.q.state
            && p'.s.q.exitCode == p.s.q.stops[p.s.loop.nested.value].value
            && p'.s.q.counter == p.s.q.counter + (if written then 1 else 0)
            && p'.s.loop == InCallback(p.s.loop.at, p.s.loop.fuel, None)
            && p'.d.cmds == Remaining(p.d.cmds, if written then Done else Thrown)
            && p'.s.hist.wins == p.s.hist.wins && p.s.loop.nested.value in p'.s.q.stops
            && !p'.s.q.stops[p.s.loop.nested.value].pc.Won?
  {
    p' := Do(env, o, p, Loop(NestedStop(true)));
    p' := Do(env, o, p', Loop(NestedStop(env.write(p.d.clock - 1) && p.s.q.counter < COUNTER_MAX)));
  }

  /** A stop called from a callback, step by step. */
  lemma SimulateStop(o: Point, p: Point, core: Core, value: int, env: Env) returns (p': Point)
    requires Along(o, p, core, env) && Inside(p.s.loop) && p.s.loop.fuel > 0 && NextIsStop(p.d.cmds, value)
    ensures var step := StopNow(core, value, env);
            && Along(o, p', step.core, env) && SameAhead(p.d, p'.d)
            && p'.d.cmds == Remaining(p.d.cmds, step.outcome)
    ensures p'.s.loop == InCallback(p.s.loop.at, p.s.loop.fuel - 1, None)
  {
    KnownAlong(env, o, p);
    p' := SimulateExchange(o, p, core, value, env);
    if p.s.q.state == Running {
      p' := SimulateStore(o, p', env);
    }
  }

  /** A registry change leaves the race of the stop calls alone. */
  predicate SameRace(s: State, s': State) {
    s'.q == s.q && s'.hist.wins == s.hist.wins && s'.evtfd == s.evtfd && s'.wakeUp == s.wakeUp
  }

  lemma DoCall(o: Point, p: Point, op: Op, env: Env) returns (p': Point)
    requires Driven(env, o, p) && Inside(p.s.loop) && p.s.loop.fuel > 0
    requires op.fd != p.s.evtfd && NextIs(p.d.cmds, op)
    ensures var result := Apply(p.s.reg, op, env.ctl(p.d.clock));
            && Driven(env, o, p') && SameRace(p.s, p'.s)
            && p'.s.reg == result.reg && p'.s.hist.log == p.s.hist.log + [LogOf(result.reg, op.fd)]
            && p'.d == p.d.(cmds := Remaining(p.d.cmds, result.outcome), clock := p.d.clock + 1)
    ensures p'.s.loop == InCallback(p.s.loop.at, p.s.loop.fuel - 1, None)
  {
    p' := Do(env, o, p, Loop(Change(op, env.ctl(p.d.clock))));
  }

  lemma SimulateCall(o: Point, p: Point, core: Core, op: Op, env: Env) returns (p': Point)
    requires Along(o, p, core, env) && Inside(p.s.loop) && p.s.loop.fuel > 0
    requires op.fd != p.s.evtfd && NextIs(p.d.cmds, op)
    ensures var result := Apply(core.reg, op, env.ctl(core.clock));
            && Along(o, p', core.(reg := result.reg, clock := core.clock + 1), env) && SameAhead(p.d, p'.d)
            && p'.d.cmds == Remaining(p.d.cmds, result.outcome)
    ensures p'.s.loop == InCallback(p.s.loop.at, p.s.loop.fuel - 1, None)
  {
    p' := DoCall(o, p, op, env);
    StartsAppend(p.s.hist.log, LogOf(p'.s.reg, op.fd));
  }

  lemma SimulateCommand(o: Point, p: Point, core: Core, cmd: Command, env: Env) returns (p': Point)
    requires Along(o, p, core, env) && Inside(p.s.loop) && p.s.loop.fuel > 0
    requires p.d.cmds != [] && p.d.cmds[0] == cmd && (cmd.Call? ==> cmd.op.fd != p.s.evtfd)
    ensures var step := Perform(core, cmd, env);
            && Along(o, p', step.core, env) && SameAhead(p.d, p'.d)
            && p'.d.cmds == if cmd.Throw? then p.d.cmds else Remaining(p.d.cmds, step.outcome)
    ensures Inside(p'.s.loop) && p'.s.loop.at == p.s.loop.at && p'.s.loop.fuel >= p.s.loop.fuel - 1
  {
    match cmd {
      case Stop(value, _) => p' := SimulateStop(o, p, core, value, env);
      case Throw => p' := p;
      case Call(op, _) => p' := SimulateCall(o, p, core, op, env);
    }
  }

  /** All commands of a callback, up to its end or the first exception that leaves it. */
  lemma {:induction false} SimulateScript(o: Point, p: Point, core: Core, env: Env) returns (p': Point)
    requires Along(o, p, core, env) && Inside(p.s.loop)
    requires p.s.loop.fuel >= |p.d.cmds| && Spares(p.d.cmds, p.s.evtfd)
    ensures Along(o, p', RunScript(core, p.d.cmds, env), env) && SameAhead(p.d, p'.d) && ScriptOver(p'.d.cmds)
    ensures Inside(p'.s.loop) && p'.s.loop.at == p.s.loop.at
    decreases |p.d.cmds|
  {
    if p.d.cmds == [] {
      p' := p;
    } else {
      var step := Perform(core, p.d.cmds[0], env);
      p' := SimulateCommand(o, p, core, p.d.cmds[0], env);
      if !Unwinds(p.d.cmds[0], step.outcome) {
        p' := SimulateScript(o, p', step.core, env);
      }
    }
  }

  /** The script of the callback about to be called spares the wake-up descriptor. */
  lemma ScriptSpares(o: Point, p: Point, env: Env, t: nat)
    requires Reachable(o.s) && Driven(env, o, p) && SparesWakeUp(env, p.s)
    requires p.s.loop.Calling? && p.s.loop.at.Valid()
    ensures Spares(env.script(p.s.loop.func, t), p.s.evtfd)
    ensures p.s.loop.at.Fd() == p.s.evtfd ==> env.script(p.s.loop.func, t) == []
  {
    KnownAlong(env, o, p);
  }

  lemma SimulateBegin(o: Point, p: Point, core: Core, env: Env, fuel: nat) returns (p': Point)
    requires Along(o, p, core, env) && LoopEnabled(p.s, Begin(fuel))
    ensures var start := Start(p.s.loop.at.Fd(), p.s.loop.at.Type(), p.s.loop.func);
            Along(o, p', core.(started := core.started + [start], clock := core.clock + 1), env)
    ensures SameAhead(p.d, p'.d) && p'.d.cmds == env.script(p.s.loop.func, core.clock)
    ensures p'.s.loop == InCallback(p.s.loop.at, fuel, None) && p'.s.evtfd == p.s.evtfd
  {
    p' := Do(env, o, p, Loop(Begin(fuel)));
    StartsAppend(p.s.hist.log, Began(Start(p.s.loop.at.Fd(), p.s.loop.at.Type(), p.s.loop.func)));
  }

  lemma SimulateFinish(o: Point, p: Point, core: Core, env: Env) returns (p': Point)
    requires Along(o, p, core, env) && Inside(p.s.loop) && ScriptOver(p.d.cmds)
    ensures Along(o, p', core, env) && SameAhead(p.d, p'.d) && p'.s.loop == Called(p.s.loop.at)
  {
    p' := Do(env, o, p, Loop(ExecLoop.Finish));
  }

  lemma SimulateInvoke(o: Point, p: Point, core: Core, start: Start, env: Env) returns (p': Point)
    requires Along(o, p, core, env) && p.s.loop.Calling? && p.s.loop.at.Valid()
    requires start == Start(p.s.loop.at.Fd(), p.s.loop.at.Type(), p.s.loop.func)
    ensures Along(o, p', Invoke(core, start, env), env) && SameAhead(p.d, p'.d) && p'.s.loop == Called(p.s.loop.at)
  {
    var cmds := env.script(start.callback, core.clock);
    ScriptSpares(o, p, env, core.clock);
    var begun := core.(started := core.started + [start], clock := core.clock + 1);
    p' := SimulateBegin(o, p, core, env, |cmds|);
    p' := SimulateScript(o, p', begun, env);
    p' := SimulateFinish(o, p', RunScript(begun, cmds, env), env);
  }

  /** Another thread's stop wins before a load if the environment says so, and only then. */
  lemma SimulateOthers(o: Point, p: Point, core: Core, env: Env) returns (p': Point)
    requires Along(o, p, core, env) && AtLoad(p.s.loop)
    ensures Along(o, p', Load(core, env).(clock := core.clock), env) && SameAhead(p.d, p'.d)
    ensures p'.s.loop == p.s.loop && !(p'.s.q.state.Running? && env.stopped(p'.d.clock))
  {
    p' := p;
    if core.state == Running && env.stopped(core.clock) {
      KnownAlong(env, o, p);
      var id := FreshId(p.s.q.stops.Keys);
      p' := Do(env, o, p', NewStop(id, env.stopValue));
      p' := Do(env, o, p', Stopper(id, true));
    }
  }

  predicate IsLoad(step: LoopStep) {
    step.Check? || step.TryStopped? || step.Test? || step.Retest?
  }

  /** The first load after a wait turns Stopping into Stopped. */
  function AfterLoad(core: Core, step: LoopStep): Core {
    if step.TryStopped? && core.state == Stopping then core.(state := Stopped) else core
  }

  /** A load of the run state by the loop thread, other threads' stops included. */
  lemma SimulateLoad(o: Point, p: Point, core: Core, step: LoopStep, env: Env) returns (p': Point)
    requires Along(o, p, core, env) && LoopEnabled(p.s, step) && IsLoad(step)
    ensures var core' := Load(core, env);
            && SameAhead(p.d, p'.d)
            && p'.s.loop == NextLoop(p.s.(q := p.s.q.(state := core'.state)), step).loop
            && Along(o, p', AfterLoad(core', step), env)
  {
    p' := SimulateOthers(o, p, core, env);
    p' := Do(env, o, p', Loop(step));
  }

  // The dispatcher ---------------------------------------------------------------------------

  /**
    From event type `k` on, the machine's dispatcher, which holds an iterator, does exactly what
    the specification says, which looks the descriptor up afresh every time.
   */
  lemma {:induction false} SimulateFrom(o: Point, p: Point, core: Core, batch: Batch, i: nat, k: nat, env: Env)
    returns (p': Point)
    requires Along(o, p, core, env) && i < |batch| && k <= |EVENT_TYPES|
    requires p.s.loop.Examining? && p.s.loop.at == Frame(batch, i, k)
    ensures Along(o, p', DispatchFrom(core, batch[i].mask, batch[i].fd, k, env), env) && SameAhead(p.d, p'.d)
    ensures p'.s.loop == Testing(batch, i + 1)
    decreases |EVENT_TYPES| - k
  {
    p' := SimulateExamine(o, p, core, batch, i, k, env);
    if k == |EVENT_TYPES| {
    } else {
      var target := Target(core.reg, batch[i].mask, batch[i].fd, EVENT_TYPES[k]);
      if target.None? {
        p' := SimulateFrom(o, p', core, batch, i, k + 1, env);
      } else {
        var invoked := Invoke(core, Start(batch[i].fd, EVENT_TYPES[k], target.value), env);
        p' := SimulateInvoke(o, p', core, Start(batch[i].fd, EVENT_TYPES[k], target.value), env);
        p' := SimulateRest(o, p', invoked, batch, i, k, env);
      }
    }
  }

  lemma SimulateExamine(o: Point, p: Point, core: Core, batch: Batch, i: nat, k: nat, env: Env) returns (p': Point)
    requires Along(o, p, core, env) && i < |batch| && k <= |EVENT_TYPES|
    requires p.s.loop.Examining? && p.s.loop.at == Frame(batch, i, k)
    ensures Along(o, p', core, env) && SameAhead(p.d, p'.d)
    ensures if k == |EVENT_TYPES| then p'.s.loop == Testing(batch, i + 1)
            else
              var target := Target(core.reg, batch[i].mask, batch[i].fd, EVENT_TYPES[k]);
              if target.None? then p'.s.loop.Examining? && p'.s.loop.at == Frame(batch, i, k + 1)
              else p'.s.loop == Calling(Frame(batch, i, k), target.value)
  {
    KnownAlong(env, o, p);
    p' := Do(env, o, p, Loop(Examine));
  }

  /** The outcome of a callback at type `k`: go on only while the queue is running. */
  function AfterCallback(after: Core, event: Event, k: nat, env: Env): Core
    requires k < |EVENT_TYPES|
  {
    if after.state != Running then after else DispatchFrom(after, event.mask, event.fd, k + 1, env)
  }

  /** After a callback: the check of the run state, the new lookup and the remaining types. */
  lemma {:induction false} SimulateRest(o: Point, p: Point, invoked: Core, batch: Batch, i: nat, k: nat, env: Env)
    returns (p': Point)
    requires Along(o, p, invoked, env) && i < |batch| && k < |EVENT_TYPES|
    requires p.s.loop == Called(Frame(batch, i, k))
    ensures Along(o, p', AfterCallback(Load(invoked, env), batch[i], k, env), env) && SameAhead(p.d, p'.d)
    ensures p'.s.loop == Testing(batch, i + 1)
    decreases |EVENT_TYPES| - k, 0
  {
    var after := Load(invoked, env);
    p' := SimulateLoad(o, p, invoked, Retest, env);
    if after.state == Running {
      p' := SimulateLookUp(o, p', after, batch, i, k + 1, env);
      if batch[i].fd in after.reg.fds {
        p' := SimulateFrom(o, p', after, batch, i, k + 1, env);
      } else {
        GoneDoesNothing(after, batch[i].mask, batch[i].fd, k + 1, env);
      }
    }
  }

  lemma SimulateLookUp(o: Point, p: Point, core: Core, batch: Batch, i: nat, k: nat, env: Env) returns (p': Point)
    requires Along(o, p, core, env) && i < |batch| && k <= |EVENT_TYPES|
    requires if k == 0 then p.s.loop == Finding(batch, i) else p.s.loop == Refinding(Frame(batch, i, k - 1))
    ensures Along(o, p', core, env) && SameAhead(p.d, p'.d)
    ensures if batch[i].fd in core.reg.fds then p'.s.loop.Examining? && p'.s.loop.at == Frame(batch, i, k)
            else p'.s.loop == Testing(batch, i + 1)
  {
    p' := Do(env, o, p, Loop(if k == 0 then LoopStep.Find else Refind));
  }

  /** One reported event, from the lookup of its descriptor to the test for the next event. */
  lemma SimulateEvent(o: Point, p: Point, core: Core, batch: Batch, i: nat, env: Env) returns (p': Point)
    requires Along(o, p, core, env) && i < |batch| && p.s.loop == Finding(batch, i)
    ensures Along(o, p', DispatchFrom(core, batch[i].mask, batch[i].fd, 0, env), env) && SameAhead(p.d, p'.d)
    ensures p'.s.loop == Testing(batch, i + 1)
  {
    p' := SimulateLookUp(o, p, core, batch, i, 0, env);
    if batch[i].fd in core.reg.fds {
      p' := SimulateFrom(o, p', core, batch, i, 0, env);
    } else {
      GoneDoesNothing(core, batch[i].mask, batch[i].fd, 0, env);
    }
  }

  // exec -------------------------------------------------------------------------------------

  lemma {:induction false} SimulateBatch(o: Point, p: Point, core: Core, batch: Batch, i: nat, env: Env)
    returns (p': Point)
    requires Along(o, p, core, env) && i <= |batch| && p.s.loop == Testing(batch, i)
    ensures Along(o, p', BatchFrom(core, batch, i, env), env) && SameAhead(p.d, p'.d) && p'.s.loop.Checking?
    decreases |batch| - i
  {
    var c := Load(core, env);
    p' := SimulateLoad(o, p, core, Test, env);
    if c.state == Running && i < |batch| {
      var handled := DispatchFrom(c, batch[i].mask, batch[i].fd, 0, env);
      assert BatchFrom(core, batch, i, env) == BatchFrom(handled, batch, i + 1, env);
      p' := SimulateEvent(o, p', c, batch, i, env);
      p' := SimulateBatch(o, p', handled, batch, i + 1, env);
    } else {
      assert BatchFrom(core, batch, i, env) == c;
    }
  }

  /** Where the machine is for each way in which an observation of exec can end. */
  predicate EndsAs(p: Point, result: ExecResult) {
    match result
    case Code(code) => p.s.loop.Returned? && p.s.loop.code == code
    case Asleep => p.s.loop.Waiting? && p.d.waits == []
    case ReadFailed => p.s.loop.Threw? && p.s.q.state.Running? && !p.d.readOk
    case WaitThrew => p.s.loop.Threw? && p.s.q.state.Error?
    case NotIdle => false
  }

  /** The observation of exec ended at `p`; all clients are to call afterwards is still ahead. */
  ghost predicate Ended(o: Point, p: Point, ended: (Core, ExecResult), env: Env) {
    && Driven(env, o, p) && p.s.evtfd == o.s.evtfd && p.s.wakeUp == o.s.wakeUp
    && Shows(p.s, ended.0) && p.d.clock == ended.0.clock && EndsAs(p, ended.1)
    && p.d.before == o.d.before && p.d.after == o.d.after
  }

  lemma SimulateLeave(o: Point, p: Point, core: Core, env: Env) returns (p': Point)
    requires Along(o, p, core, env) && p.s.loop.Exiting? && p.d.before == o.d.before && p.d.after == o.d.after
    ensures Ended(o, p', Leave(core, env), env)
  {
    p' := p;
    if core.outside && env.stored(core.clock) {
      p' := Do(env, o, p', Stopper(p.s.hist.wins[0], true));
    }
    p' := Do(env, o, p', Loop(ExecLoop.LoadCode));
  }

  lemma {:induction false} SimulateLoop(o: Point, p: Point, core: Core, env: Env) returns (p': Point)
    requires Along(o, p, core, env) && KernelWaits(p.d.waits) && p.s.loop.Checking?
    requires p.d.before == o.d.before && p.d.after == o.d.after
    ensures Ended(o, p', LoopFrom(core, p.d.waits, env), env)
    decreases |p.d.waits|, 1
  {
    var c := Load(core, env);
    p' := SimulateLoad(o, p, core, Check, env);
    if c.state != Running {
      p' := SimulateLeave(o, p', c, env);
    } else if p.d.waits != [] {
      p' := SimulateWait(o, p', c, env);
    }
  }

  lemma {:induction false} SimulateWait(o: Point, p: Point, c: Core, env: Env) returns (p': Point)
    requires Along(o, p, c, env) && KernelWaits(p.d.waits) && p.d.waits != []
    requires p.d.before == o.d.before && p.d.after == o.d.after
    requires p.s.loop.Waiting? && c.state == Running
    ensures Ended(o, p', WaitFrom(c, p.d.waits, env), env)
    decreases |p.d.waits|, 0
  {
    match p.d.waits[0] {
      case Interrupted =>
        p' := Do(env, o, p, Loop(WaitInterrupted));
        p' := SimulateLoop(o, p', c, env);
      case WaitFailed =>
        p' := Do(env, o, p, Loop(WaitFails));
      case Events(batch) =>
        var woken := Load(c, env);
        p' := Do(env, o, p, Loop(WaitReturns(batch)));
        p' := SimulateLoad(o, p', c, TryStopped, env);
        if woken.state == Stopping {
          p' := SimulateLeave(o, p', woken.(state := Stopped), env);
        } else {
          p' := SimulateBatch(o, p', woken, batch, 0, env);
          p' := SimulateLoop(o, p', BatchFrom(woken, batch, 0, env), env);
        }
    }
  }

  /**
    Every call of the event queue's exec is the run of the machine that the environment settles:
    it takes the observed waits one by one, performs what the callbacks command, and ends in
    the same state with the same result.
   */
  lemma ExecIsARun(o: Point, core: Core, env: Env) returns (p: Point)
    requires Reachable(o.s) && Matches(o.s, core, env) && o.d.clock == core.clock
    requires SparesWakeUp(env, o.s) && KernelWaits(o.d.waits) && o.d.before == [] && core.state == Idle
    ensures Ended(o, p, ExecFrom(core, o.d.readOk, o.d.waits, env), env)
  {
    DrivenNowhere(env, o);
    ReachableInv(o.s);
    p := Do(env, o, o, Exec);
    p := Do(env, o, p, Loop(Drain(o.d.readOk)));
    if o.d.readOk {
      p := SimulateLoop(o, p, core.(state := Running, counter := 0), env);
    }
  }

  /** A newly constructed queue is the machine's initial state. */
  lemma FreshQueueMatches(evtfd: Fd, wakeUp: CallbackId, env: Env)
    ensures Reachable(Init(evtfd, wakeUp)) && Matches(Init(evtfd, wakeUp), InitialCore(evtfd, wakeUp), env)
  {
    LeadsNowhere(Init(evtfd, wakeUp));
    StartsAppend([], Registered(evtfd, WakeUpCallbacks(wakeUp)));
    assert [] + Init(evtfd, wakeUp).hist.log == Init(evtfd, wakeUp).hist.log;
  }

  // Whole uses of a queue --------------------------------------------------------------------

  predicate SparedBy(requests: seq<Request>, evtfd: Fd) {
    forall j :: 0 <= j < |requests| ==> requests[j].op.fd != evtfd
  }

  /** The client calls still to come at this time, before exec or after it. */
  function Todo(p: Point): seq<Request> {
    if p.s.loop.NotStarted? then p.d.before else p.d.after
  }

  /** The next of them has been made, and nothing else. */
  ghost predicate OneCallLess(p: Point, p': Point) {
    && Todo(p) != [] && p'.s.loop == p.s.loop && p'.s.evtfd == p.s.evtfd && p'.s.wakeUp == p.s.wakeUp
    && p'.d == (if p.s.loop.NotStarted? then p.d.(before := p.d.before[1..]) else p.d.(after := p.d.after[1..]))
  }

  /** add, mod or del while no exec is under way. */
  lemma SimulateClient(o: Point, p: Point, core: Core, env: Env) returns (p': Point)
    requires Driven(env, o, p) && Shows(p.s, core) && (p.s.loop.NotStarted? || Finished(p.s.loop))
    requires Todo(p) != [] && Todo(p)[0].op.fd != p.s.evtfd
    ensures var core' := core.(reg := Apply(core.reg, Todo(p)[0].op, Todo(p)[0].ctl).reg);
            && Driven(env, o, p') && OneCallLess(p, p')
            && Shows(p'.s, core') && (Matches(p.s, core, env) ==> Matches(p'.s, core', env))
  {
    p' := Do(env, o, p, Client(Todo(p)[0].op, Todo(p)[0].ctl));
    StartsAppend(p.s.hist.log, LogOf(p'.s.reg, Todo(p)[0].op.fd));
  }

  lemma {:induction false} SimulateClients(o: Point, p: Point, core: Core, env: Env) returns (p': Point)
    requires Driven(env, o, p) && Shows(p.s, core) && (p.s.loop.NotStarted? || Finished(p.s.loop))
    requires SparedBy(Todo(p), p.s.evtfd)
    ensures var core' := core.(reg := RunAll(core.reg, Todo(p)));
            && Driven(env, o, p') && Todo(p') == []
            && Shows(p'.s, core') && (Matches(p.s, core, env) ==> Matches(p'.s, core', env))
    ensures p'.s.loop == p.s.loop && p'.s.evtfd == p.s.evtfd && p'.s.wakeUp == p.s.wakeUp
    ensures p'.d == if p.s.loop.NotStarted? then p.d.(before := []) else p.d.(after := [])
    decreases |Todo(p)|
  {
    if Todo(p) == [] {
      p' := p;
    } else {
      var call := Todo(p)[0];
      p' := SimulateClient(o, p, core, env);
      p' := SimulateClients(o, p', core.(reg := Apply(core.reg, call.op, call.ctl).reg), env);
    }
  }

  /** Clients prepare a new queue, exec runs on it, and clients use it afterwards. */
  function UseOf(
    evtfd: Fd, wakeUp: CallbackId, before: seq<Request>, readOk: bool, waits: seq<WaitResult>, env: Env,
    after: seq<Request>): (Core, ExecResult)
  {
    var start := InitialCore(evtfd, wakeUp);
    var (core, result) := ExecFrom(start.(reg := RunAll(start.reg, before)), readOk, waits, env);
    (if result.Asleep? then core else core.(reg := RunAll(core.reg, after)), result)
  }

  /**
    Every use of a queue is a run of the machine from the start, namely the one that the
    environment settles: the client calls, the waits and the callbacks' commands are those
    given, in order, and all of them are made, but for those that come after exec has ended or
    fallen asleep.
   */
  lemma UseIsARun(
    evtfd: Fd, wakeUp: CallbackId, before: seq<Request>, readOk: bool, waits: seq<WaitResult>, env: Env,
    after: seq<Request>) returns (p: Point)
    requires SparedBy(before, evtfd) && SparedBy(after, evtfd) && SparesWakeUp(env, Init(evtfd, wakeUp))
    requires KernelWaits(waits)
    ensures var (core, result) := UseOf(evtfd, wakeUp, before, readOk, waits, env, after);
            && Driven(env, AtStart(evtfd, wakeUp, before, readOk, waits, after), p)
            && Shows(p.s, core) && p.d.clock == core.clock && EndsAs(p, result)
            && p.d.before == [] && (!result.Asleep? ==> p.d.after == [])
  {
    var o, start := AtStart(evtfd, wakeUp, before, readOk, waits, after), InitialCore(evtfd, wakeUp);
    FreshQueueMatches(evtfd, wakeUp, env);
    DrivenNowhere(env, o);
    var p1 := SimulateClients(o, o, start, env);
    var prepared := start.(reg := RunAll(start.reg, before));
    DrivenReachable(env, o, p1);
    p := ExecIsARun(p1, prepared, env);
    DrivenOn(env, o, p1, p);
    var (core, result) := ExecFrom(prepared, readOk, waits, env);
    if !result.Asleep? {
      p := SimulateClients(o, p, core, env);
    }
  }

  lemma DrivenReachable(env: Env, o: Point, p: Point)
    requires Driven(env, o, p) && o.s == Init(o.s.evtfd, o.s.wakeUp)
    ensures Reachable(p.s)
  {
    DrivenLeads(env, o, p);
  }

  /**
    Hence the code that exec returns: the value of the stop that found the queue running, if a
    callback called it or the other thread had stored it by the final load, and else 1.
   */
  lemma ExecReturnsTheCode(
    evtfd: Fd, wakeUp: CallbackId, before: seq<Request>, readOk: bool, waits: seq<WaitResult>, env: Env,
    after: seq<Request>) returns (p: Point)
    requires SparedBy(before, evtfd) && SparedBy(after, evtfd) && SparesWakeUp(env, Init(evtfd, wakeUp))
    requires KernelWaits(waits)
    ensures Driven(env, AtStart(evtfd, wakeUp, before, readOk, waits, after), p)
    ensures var (core, result) := UseOf(evtfd, wakeUp, before, readOk, waits, env, after);
            result.Code? ==>
              && p.s.loop.Returned? && p.d.won.Some?
              && result.code == if p.d.won.value.own || env.stored(core.clock) then p.d.won.value.value else 1
  {
    p := UseIsARun(evtfd, wakeUp, before, readOk, waits, env, after);
    if p.s.loop.Returned? {
      CodeReturned(env, AtStart(evtfd, wakeUp, before, readOk, waits, after), p);
    }
  }

  /**
    exec returns only once a stop has won, throws at once exactly on a queue that is not idle,
    and leaves registry and kernel in agreement but for suspect descriptors, with the wake-up
    descriptor still watched.
   */
  lemma ExecOutcome(o: Point, core: Core, env: Env)
    requires Reachable(o.s) && Matches(o.s, core, env) && o.d.clock == core.clock
    requires SparesWakeUp(env, o.s) && KernelWaits(o.d.waits) && o.d.before == []
    ensures var (core', result) := ExecFrom(core, o.d.readOk, o.d.waits, env);
            && (result.Code? ==> core'.state.Stopping? || core'.state.Stopped?)
            && (core.state.Idle? <==> !result.NotIdle?) && (result.NotIdle? ==> core' == core)
            && WellFormed(core'.reg) && o.s.evtfd in core'.reg.interest && In in core'.reg.interest[o.s.evtfd]
  {
    ReachableInv(o.s);
    if core.state == Idle {
      var p := ExecIsARun(o, core, env);
      DrivenLeads(env, o, p);
      LeadsKeepsInv(o.s, p.s);
    }
  }
}
