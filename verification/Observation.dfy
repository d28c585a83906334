/**
  Which runs of the interleaved machine are what an environment makes of one use of a queue.

  The machine leaves open what callbacks do, what the kernel answers and when other threads
  stop the queue. An environment settles all that. The rules here say, step by step, which
  actions it allows; they know nothing of how exec and the dispatcher are specified.
 */
module Observation {
  import opened Wrappers
  import opened Events
  import opened FdRegistry
  import opened Dispatch
  import opened ExecLoop
  import opened ExecSafety
  import opened ExecTheorems

  /** The stop that has won: its value, and whether a callback called it. */
  datatype Win = Win(value: int, own: bool)

  /**
    What is still to come: client calls before exec, the drain, the waits, client calls after
    exec, and the commands of the callback in progress. `clock` counts the loads of the run
    state, callbacks and calls made so far; `won` is history.
   */
  datatype Drive = Drive(
    clock: nat,
    before: seq<Request>,
    readOk: bool,
    waits: seq<WaitResult>,
    after: seq<Request>,
    cmds: seq<Command>,
    won: Option<Win>)

  /** About to look at the run state. */
  predicate AtLoad(pc: LoopPc) {
    pc.Checking? || pc.Waited? || pc.Testing? || pc.Called?
  }

  /** The commands left when the first has had its outcome: none after an uncaught exception. */
  function Remaining(cmds: seq<Command>, outcome: Outcome): seq<Command>
    requires cmds != [] && !cmds[0].Throw?
  {
    if outcome.Thrown? && !cmds[0].caught then [] else cmds[1..]
  }

  ghost predicate NextIs(cmds: seq<Command>, op: Op) {
    cmds != [] && cmds[0].Call? && cmds[0].op == op
  }

  predicate NextIsStop(cmds: seq<Command>, value: int) {
    cmds != [] && cmds[0].Stop? && cmds[0].value == value
  }

  predicate ScriptOver(cmds: seq<Command>) {
    cmds == [] || cmds[0].Throw?
  }

  /** One step of a stop that the callback in progress called. */
  function FollowNested(env: Env, s: State, d: Drive, written: bool): Option<Drive>
    requires LoopEnabled(s, NestedStop(written))
  {
    if d.cmds == [] || !d.cmds[0].Stop? then None
    else
      match s.q.stops[s.loop.nested.value].pc
      case Entered =>
        if s.q.state.Running? then Some(d.(won := Some(Win(d.cmds[0].value, true))))
        else Some(d.(cmds := d.cmds[1..]))
      case Won => Some(d)
      case _ =>
        if d.clock > 0 && written == (env.write(d.clock - 1) && s.q.counter < COUNTER_MAX)
        then Some(d.(cmds := Remaining(d.cmds, if written then Done else Thrown)))
        else None
  }

  ghost function FollowLoop(env: Env, s: State, d: Drive, step: LoopStep): Option<Drive>
    requires LoopEnabled(s, step)
  {
    match step
    case Drain(ok) => if ok == d.readOk then Some(d) else None
    case WaitReturns(batch) =>
      if d.waits != [] && d.waits[0] == WaitResult.Events(batch) then Some(d.(waits := d.waits[1..])) else None
    case WaitInterrupted =>
      if d.waits != [] && d.waits[0].Interrupted? then Some(d.(waits := d.waits[1..])) else None
    case WaitFails =>
      if d.waits != [] && d.waits[0].WaitFailed? then Some(d.(waits := d.waits[1..])) else None
    case Begin(_) => Some(d.(cmds := env.script(s.loop.func, d.clock), clock := d.clock + 1))
    case Change(op, ctl) =>
      if NextIs(d.cmds, op) && ctl == env.ctl(d.clock)
      then Some(d.(cmds := Remaining(d.cmds, Apply(s.reg, op, ctl).outcome), clock := d.clock + 1))
      else None
    case EnterStop(_, value) => if NextIsStop(d.cmds, value) then Some(d.(clock := d.clock + 1)) else None
    case NestedStop(written) => FollowNested(env, s, d, written)
    case Finish => if ScriptOver(d.cmds) then Some(d) else None
    case Escape => None
    case LoadCode => if HasWinner(s) && Winner(s).pc.Won? && env.stored(d.clock) then None else Some(d)
    case Find => Some(d)
    case Examine => Some(d)
    case Refind => Some(d)
    case _ => if s.q.state.Running? && env.stopped(d.clock) then None else Some(d.(clock := d.clock + 1))
  }

  /** Another thread's stop wins just before a load of the state, and stores before the last load. */
  function FollowStopper(env: Env, s: State, d: Drive, id: StopId): Option<Drive>
    requires id in s.q.stops
  {
    match s.q.stops[id].pc
    case Entered =>
      if s.q.state.Running? && AtLoad(s.loop) && env.stopped(d.clock)
      then Some(d.(won := Some(Win(env.stopValue, false)))) else None
    case Won => if s.loop.Exiting? && env.stored(d.clock) then Some(d) else None
    case _ => None
  }

  /** What is left after `a`, if the environment allows `a`. */
  ghost function Follow(env: Env, s: State, d: Drive, a: Action): Option<Drive>
    requires Enabled(s, a)
  {
    match a
    case Loop(step) => FollowLoop(env, s, d, step)
    case Exec => if s.loop.NotStarted? && d.before != [] then None else Some(d)
    case NewStop(_, value) => if value == env.stopValue then Some(d) else None
    case Stopper(id, _) => FollowStopper(env, s, d, id)
    case Client(op, ctl) =>
      if s.loop.NotStarted? then
        if d.before != [] && d.before[0] == Request(op, ctl) then Some(d.(before := d.before[1..])) else None
      else
        if d.after != [] && d.after[0] == Request(op, ctl) then Some(d.(after := d.after[1..])) else None
    case Close(_) => None
  }

  // Runs -------------------------------------------------------------------------------------

  datatype Point = Point(s: State, d: Drive)

  ghost predicate Obeys(env: Env, p: Point, actions: seq<Action>, p': Point)
    decreases |actions|
  {
    if actions == [] then p' == p
    else
      && Enabled(p.s, actions[0]) && Follow(env, p.s, p.d, actions[0]).Some?
      && Obeys(env, Point(Next(p.s, actions[0]), Follow(env, p.s, p.d, actions[0]).value), actions[1..], p')
  }

  ghost predicate Driven(env: Env, o: Point, p: Point) {
    exists actions :: Obeys(env, o, actions, p)
  }

  lemma DrivenNowhere(env: Env, o: Point)
    ensures Driven(env, o, o)
  {
    assert Obeys(env, o, [], o);
  }

  lemma {:induction false} ObeysOn(
    env: Env, o: Point, a: seq<Action>, p: Point, b: seq<Action>, p': Point)
    requires Obeys(env, o, a, p) && Obeys(env, p, b, p')
    ensures Obeys(env, o, a + b, p')
    decreases |a|
  {
    if a == [] {
      assert a + b == b;
    } else {
      ObeysOn(env, Point(Next(o.s, a[0]), Follow(env, o.s, o.d, a[0]).value), a[1..], p, b, p');
      assert (a + b)[1..] == a[1..] + b;
    }
  }

  lemma Do(env: Env, o: Point, p: Point, a: Action) returns (p': Point)
    requires Driven(env, o, p) && Enabled(p.s, a) && Follow(env, p.s, p.d, a).Some?
    ensures p' == Point(Next(p.s, a), Follow(env, p.s, p.d, a).value) && Driven(env, o, p')
  {
    var actions :| Obeys(env, o, actions, p);
    p' := Point(Next(p.s, a), Follow(env, p.s, p.d, a).value);
    assert [a][1..] == [] && Obeys(env, p', [], p');
    assert Obeys(env, p, [a], p');
    ObeysOn(env, o, actions, p, [a], p');
  }

  lemma DrivenOn(env: Env, o: Point, p: Point, p': Point)
    requires Driven(env, o, p) && Driven(env, p, p')
    ensures Driven(env, o, p')
  {
    var a :| Obeys(env, o, a, p);
    var b :| Obeys(env, p, b, p');
    ObeysOn(env, o, a, p, b, p');
  }

  lemma {:induction false} ObeysIsRun(env: Env, o: Point, actions: seq<Action>, p: Point)
    requires Obeys(env, o, actions, p)
    ensures IsRun(o.s, actions) && RunFrom(o.s, actions) == p.s
    decreases |actions|
  {
    if actions == [] {
    } else {
      ObeysIsRun(env, Point(Next(o.s, actions[0]), Follow(env, o.s, o.d, actions[0]).value), actions[1..], p);
    }
  }

  lemma DrivenLeads(env: Env, o: Point, p: Point)
    requires Driven(env, o, p)
    ensures Leads(o.s, p.s)
  {
    var actions :| Obeys(env, o, actions, p);
    ObeysIsRun(env, o, actions, p);
  }

  // The winning stop -------------------------------------------------------------------------

  /** Calls of stop carry the value of the command, or of the other thread, that they stand for. */
  ghost predicate CallsAreCommands(env: Env, p: Point) {
    && (p.s.loop.InCallback? && p.s.loop.nested.Some? && p.s.loop.nested.value in p.s.q.stops ==>
          NextIsStop(p.d.cmds, p.s.q.stops[p.s.loop.nested.value].value))
    && (forall id :: id in p.s.q.stops && p.s.q.stops[id].pc.Entered? && !NestedIn(p.s.loop, id) ==>
          p.s.q.stops[id].value == env.stopValue)
  }

  ghost predicate WonIsWinner(p: Point) {
    && (p.d.won.Some? <==> HasWinner(p.s))
    && (HasWinner(p.s) && p.d.won.Some? ==>
          && Winner(p.s).value == p.d.won.value.value && (p.d.won.value.own <==> WonInCallback(p.s))
          && (NestedIn(p.s.loop, p.s.hist.wins[0]) ==> p.d.won.value.own))
  }

  /** The value of another thread's stop is stored exactly if the environment says so. */
  ghost predicate StoredAsSaid(env: Env, p: Point) {
    HasWinner(p.s) && p.d.won.Some? && !p.d.won.value.own ==>
      && (Winner(p.s).pc.Won?
          || (PastStore(Winner(p.s).pc) && env.stored(p.d.clock) && (p.s.loop.Exiting? || p.s.loop.Returned?)))
      && (p.s.loop.Returned? ==> (p.s.loop.afterStore <==> env.stored(p.d.clock)))
  }

  ghost predicate Accounts(env: Env, p: Point) {
    CallsAreCommands(env, p) && WonIsWinner(p) && StoredAsSaid(env, p)
  }

  /** The point after an action that the environment allows. */
  ghost predicate Moves(env: Env, p: Point, a: Action, p': Point) {
    && Enabled(p.s, a) && Follow(env, p.s, p.d, a) == Some(p'.d) && p'.s == Next(p.s, a)
  }

  /** Steps of the loop thread outside stop neither call stop nor win. */
  lemma QuietStep(env: Env, p: Point, step: LoopStep, p': Point)
    requires Protocol(p.s) && Moves(env, p, Loop(step), p') && !step.NestedStop? && !step.EnterStop?
    ensures p'.s.q.stops == p.s.q.stops && p'.s.hist.wins == p.s.hist.wins && p'.s.hist.winAt == p.s.hist.winAt
    ensures p'.d.won == p.d.won
    ensures forall id :: !NestedIn(p.s.loop, id) && !NestedIn(p'.s.loop, id)
  {
    QuietLoopStep(p.s, step);
  }

  lemma NestedKeepsCalls(env: Env, p: Point, step: LoopStep, p': Point)
    requires Protocol(p.s) && CallsAreCommands(env, p) && Moves(env, p, Loop(step), p')
    requires step.NestedStop? || step.EnterStop?
    ensures CallsAreCommands(env, p')
  {
  }

  lemma LoopKeepsCalls(env: Env, p: Point, step: LoopStep, p': Point)
    requires Protocol(p.s) && CallsAreCommands(env, p) && Moves(env, p, Loop(step), p')
    ensures CallsAreCommands(env, p')
  {
    if step.NestedStop? || step.EnterStop? {
      NestedKeepsCalls(env, p, step, p');
    } else {
      QuietStep(env, p, step, p');
    }
  }

  lemma StepKeepsCalls(env: Env, p: Point, a: Action, p': Point)
    requires Protocol(p.s) && CallsAreCommands(env, p) && Moves(env, p, a, p')
    ensures CallsAreCommands(env, p')
  {
    match a {
      case Loop(step) => LoopKeepsCalls(env, p, step, p');
      case _ =>
    }
  }

  lemma NestedKeepsWon(env: Env, p: Point, step: LoopStep, p': Point)
    requires Protocol(p.s) && CallsAreCommands(env, p) && WonIsWinner(p) && Moves(env, p, Loop(step), p')
    requires step.NestedStop? || step.EnterStop?
    ensures WonIsWinner(p')
  {
  }

  lemma LoopKeepsWon(env: Env, p: Point, step: LoopStep, p': Point)
    requires Protocol(p.s) && CallsAreCommands(env, p) && WonIsWinner(p) && Moves(env, p, Loop(step), p')
    ensures WonIsWinner(p')
  {
    if step.NestedStop? || step.EnterStop? {
      NestedKeepsWon(env, p, step, p');
    } else {
      QuietStep(env, p, step, p');
    }
  }

  lemma StepKeepsWon(env: Env, p: Point, a: Action, p': Point)
    requires Protocol(p.s) && CallsAreCommands(env, p) && WonIsWinner(p) && Moves(env, p, a, p')
    ensures WonIsWinner(p')
  {
    match a {
      case Loop(step) => LoopKeepsWon(env, p, step, p');
      case _ =>
    }
  }

  lemma LoopKeepsStored(env: Env, p: Point, step: LoopStep, p': Point)
    requires Protocol(p.s) && Accounts(env, p) && Moves(env, p, Loop(step), p')
    ensures StoredAsSaid(env, p')
  {
  }

  lemma StepKeepsStored(env: Env, p: Point, a: Action, p': Point)
    requires Protocol(p.s) && Accounts(env, p) && Moves(env, p, a, p')
    ensures StoredAsSaid(env, p')
  {
    match a {
      case Loop(step) => LoopKeepsStored(env, p, step, p');
      case _ =>
    }
  }

  lemma {:induction false} ObeysAccounts(env: Env, p: Point, actions: seq<Action>, p': Point)
    requires Inv(p.s) && Accounts(env, p) && Obeys(env, p, actions, p')
    ensures Accounts(env, p')
    decreases |actions|
  {
    if actions == [] {
    } else {
      var a := actions[0];
      var p1 := Point(Next(p.s, a), Follow(env, p.s, p.d, a).value);
      StepInv(p.s, a);
      StepKeepsCalls(env, p, a, p1);
      StepKeepsWon(env, p, a, p1);
      StepKeepsStored(env, p, a, p1);
      ObeysAccounts(env, p1, actions[1..], p');
    }
  }

  /** A new queue, and everything still to come. */
  function AtStart(
    evtfd: Fd, wakeUp: CallbackId, before: seq<Request>, readOk: bool, waits: seq<WaitResult>, after: seq<Request>)
    : Point
  {
    Point(Init(evtfd, wakeUp), Drive(0, before, readOk, waits, after, [], None))
  }

  /**
    exec returns the value of the first stop that found the queue running: for a stop called by
    a callback always, for another thread's if it was stored by the final load, and else 1.
   */
  lemma CodeReturned(env: Env, o: Point, p: Point)
    requires o == AtStart(o.s.evtfd, o.s.wakeUp, o.d.before, o.d.readOk, o.d.waits, o.d.after)
    requires Driven(env, o, p) && p.s.loop.Returned?
    ensures p.d.won.Some?
    ensures p.s.loop.code == if p.d.won.value.own || env.stored(p.d.clock) then p.d.won.value.value else 1
  {
    var actions :| Obeys(env, o, actions, p);
    InitInv(o.s.evtfd, o.s.wakeUp);
    ObeysAccounts(env, o, actions, p);
    DrivenLeads(env, o, p);
    ExitCodeIsTheWinners(p.s);
  }
}
