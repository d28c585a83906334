/**
  What the dispatcher and exec do, on values.

  The world outside the loop thread is an oracle: which commands the callback begun at a given
  moment runs, what each epoll_ctl and eventfd write answers, what each epoll_wait returns, and
  by when another thread's stop has taken effect. Quantifying over oracles covers every callback,
  stateful ones included.
 */
module Dispatch {
  import opened Wrappers
  import opened Events
  import opened FdRegistry

  datatype RunState = Idle | Running | Stopping | Stopped | Error

  /** One command of a callback, and whether the callback catches what it throws. */
  datatype Command =
    | Call(op: Op, caught: bool)
    | Stop(value: int, caught: bool)
    | Throw

  /**
    `stopped` and `stored` say by when a stop of another thread, called with `stopValue`, has
    left Running and stored its exit code.
   */
  datatype Env = Env(
    script: (CallbackId, nat) -> seq<Command>,
    ctl: nat -> bool,
    write: nat -> bool,
    stopValue: int,
    stopped: nat -> bool,
    stored: nat -> bool)

  /** A callback that has begun. */
  datatype Start = Start(fd: Fd, event: EventType, callback: CallbackId)

  /**
    `clock` counts the consultations of the oracle, `outside` tells that another thread's stop
    has won, and `started` is the trace of callbacks.
   */
  datatype Core = Core(
    reg: Registry,
    state: RunState,
    exitCode: int,
    counter: nat,
    outside: bool,
    clock: nat,
    started: seq<Start>)

  /** A newly constructed queue. */
  function InitialCore(evtfd: Fd, wakeUp: CallbackId): Core {
    Core(InitialRegistry(evtfd, wakeUp), Idle, 1, 0, false, 0, [])
  }

  datatype Step = Step(core: Core, outcome: Outcome)

  /** Loads the state; another thread's stop may have moved it from Running before. */
  function Load(core: Core, env: Env): (core': Core)
    ensures core'.state == Running ==> core' == core.(clock := core.clock + 1)
  {
    var hit := core.state == Running && env.stopped(core.clock);
    core.(state := if hit then Stopping else core.state,
          outside := core.outside || hit,
          clock := core.clock + 1)
  }

  /** The state leaves Running before the exit code is stored and the wake-up written. */
  function StopNow(core: Core, value: int, env: Env): Step {
    if core.state != Running then Step(core.(clock := core.clock + 1), Done)
    else
      var stopping := core.(state := Stopping, exitCode := value, clock := core.clock + 1);
      if env.write(core.clock) && core.counter < COUNTER_MAX
      then Step(stopping.(counter := core.counter + 1), Done)
      else Step(stopping, Thrown)
  }

  function Perform(core: Core, cmd: Command, env: Env): Step {
    match cmd
    case Call(op, _) =>
      var result := Apply(core.reg, op, env.ctl(core.clock));
      Step(core.(reg := result.reg, clock := core.clock + 1), result.outcome)
    case Stop(value, _) => StopNow(core, value, env)
    case Throw => Step(core, Thrown)
  }

  predicate Unwinds(cmd: Command, outcome: Outcome) {
    outcome.Thrown? && (cmd.Throw? || !cmd.caught)
  }

  /** Runs a callback's commands up to the end or to the first exception that leaves it. */
  function RunScript(core: Core, cmds: seq<Command>, env: Env): Core
    decreases |cmds|
  {
    if cmds == [] then core
    else
      var step := Perform(core, cmds[0], env);
      if Unwinds(cmds[0], step.outcome) then step.core else RunScript(step.core, cmds[1..], env)
  }

  /** One command after the other, whatever becomes of each. */
  function PerformAll(core: Core, cmds: seq<Command>, env: Env): Core
    decreases |cmds|
  {
    if cmds == [] then core else PerformAll(Perform(core, cmds[0], env).core, cmds[1..], env)
  }

  /** The exception of command `n`, when those before it have run, leaves the callback. */
  predicate LeavesAt(core: Core, cmds: seq<Command>, n: nat, env: Env)
    requires n < |cmds|
  {
    var outcome := Perform(PerformAll(core, cmds[..n], env), cmds[n], env).outcome;
    outcome.Thrown? && (cmds[n].Throw? || !cmds[n].caught)
  }

  /** A callback performs its commands in order, all of them or up to the first that leaves it. */
  lemma {:induction false} ScriptRunsToItsEnd(core: Core, cmds: seq<Command>, env: Env) returns (n: nat)
    ensures n <= |cmds| && RunScript(core, cmds, env) == PerformAll(core, cmds[..n], env)
    ensures forall j :: 0 <= j < n - 1 ==> !LeavesAt(core, cmds, j, env)
    ensures n < |cmds| ==> n > 0 && LeavesAt(core, cmds, n - 1, env)
    decreases |cmds|
  {
    if cmds == [] {
      n := 0;
    } else {
      var step := Perform(core, cmds[0], env);
      assert cmds[..0] == [];
      if Unwinds(cmds[0], step.outcome) {
        n := 1;
        assert cmds[..1][1..] == [];
      } else {
        var m := ScriptRunsToItsEnd(step.core, cmds[1..], env);
        n := m + 1;
        forall j | 0 < j < |cmds| ensures LeavesAt(core, cmds, j, env) == LeavesAt(step.core, cmds[1..], j - 1, env) {
          assert cmds[..j][1..] == cmds[1..][..j - 1];
        }
        assert cmds[..n][1..] == cmds[1..][..m];
      }
    }
  }

  function Invoke(core: Core, start: Start, env: Env): Core {
    RunScript(core.(started := core.started + [start], clock := core.clock + 1),
              env.script(start.callback, core.clock), env)
  }

  /** The callback that event type `e` of a reported mask calls, looked up afresh. */
  function Target(reg: Registry, events: Mask, fd: Fd, e: EventType): Option<CallbackId> {
    if fd in reg.fds && e in events then CbFunc(reg.fds[fd].cbs, e) else None
  }

  /**
    The dispatcher's specification: for every event type in turn, look the descriptor up afresh
    and call what is stored; after a callback, go on only while the queue is running.
   */
  function DispatchFrom(core: Core, events: Mask, fd: Fd, k: nat, env: Env): Core
    requires k <= |EVENT_TYPES|
    decreases |EVENT_TYPES| - k
  {
    if k == |EVENT_TYPES| then core
    else
      var target := Target(core.reg, events, fd, EVENT_TYPES[k]);
      if target.None? then DispatchFrom(core, events, fd, k + 1, env)
      else
        var after := Load(Invoke(core, Start(fd, EVENT_TYPES[k], target.value), env), env);
        if after.state != Running then after else DispatchFrom(after, events, fd, k + 1, env)
  }

  /** Once the descriptor is gone, the remaining event types change nothing. */
  lemma {:induction false} GoneDoesNothing(core: Core, events: Mask, fd: Fd, k: nat, env: Env)
    requires k <= |EVENT_TYPES|
    requires fd !in core.reg.fds
    ensures DispatchFrom(core, events, fd, k, env) == core
    decreases |EVENT_TYPES| - k
  {
    if k == |EVENT_TYPES| {
    } else {
      GoneDoesNothing(core, events, fd, k + 1, env);
    }
  }

  /** The position of an event type in the dispatch order. */
  function RankOf(e: EventType): nat {
    match e
    case Err => 0
    case Hup => 1
    case In => 2
    case Out => 3
    case RdHup => 4
    case Pri => 5
  }

  /** A callback is set for a reported event type, from the `k`-th on. */
  predicate Due(cbs: Callbacks, events: Mask, k: nat)
    decreases |EVENT_TYPES| - k
  {
    && k < |EVENT_TYPES|
    && ((EVENT_TYPES[k] in events && CbFunc(cbs, EVENT_TYPES[k]).Some?) || Due(cbs, events, k + 1))
  }

  lemma {:induction false} DueExactly(cbs: Callbacks, events: Mask, k: nat)
    ensures Due(cbs, events, k) <==> exists e :: e in events && k <= RankOf(e) && CbFunc(cbs, e).Some?
    decreases |EVENT_TYPES| - k
  {
    if k >= |EVENT_TYPES| {
    } else {
      DueExactly(cbs, events, k + 1);
      assert RankOf(EVENT_TYPES[k]) == k;
      assert forall e :: RankOf(e) == k ==> e == EVENT_TYPES[k];
    }
  }

  /** Callbacks begun by one event: all for its descriptor, each for a later reported type. */
  predicate InOrder(started: seq<Start>, events: Mask, fd: Fd, k: nat) {
    && (forall j :: 0 <= j < |started| ==>
          started[j].fd == fd && started[j].event in events && k <= RankOf(started[j].event))
    && (forall i, j :: 0 <= i < j < |started| ==> RankOf(started[i].event) < RankOf(started[j].event))
  }

  lemma {:induction false} ScriptStartsNothing(core: Core, cmds: seq<Command>, env: Env)
    ensures RunScript(core, cmds, env).started == core.started
    decreases |cmds|
  {
    if cmds == [] {
    } else {
      ScriptStartsNothing(Perform(core, cmds[0], env).core, cmds[1..], env);
    }
  }

  lemma OneMoreInOrder(start: Start, begun: seq<Start>, events: Mask, fd: Fd)
    requires InOrder(begun, events, fd, RankOf(start.event) + 1) && start.fd == fd && start.event in events
    ensures InOrder([start] + begun, events, fd, RankOf(start.event))
  {
  }

  /** What the callback at event type `k` begins: itself, and no other. */
  lemma CallbackStarts(core: Core, start: Start, env: Env)
    ensures Load(Invoke(core, start, env), env).started == core.started + [start]
  {
    var entered := core.(started := core.started + [start], clock := core.clock + 1);
    ScriptStartsNothing(entered, env.script(start.callback, core.clock), env);
  }

  /**
    One reported event begins callbacks of its descriptor only, for reported types only, each
    type at most once and in dispatch order, so errors and hang-ups come first.
   */
  lemma {:induction false} TypesInOrder(core: Core, events: Mask, fd: Fd, k: nat, env: Env) returns (begun: seq<Start>)
    requires k <= |EVENT_TYPES|
    ensures DispatchFrom(core, events, fd, k, env).started == core.started + begun
    ensures InOrder(begun, events, fd, k)
    decreases |EVENT_TYPES| - k
  {
    begun := [];
    if k == |EVENT_TYPES| {
    } else if Target(core.reg, events, fd, EVENT_TYPES[k]).None? {
      begun := TypesInOrder(core, events, fd, k + 1, env);
    } else {
      var start := Start(fd, EVENT_TYPES[k], Target(core.reg, events, fd, EVENT_TYPES[k]).value);
      assert RankOf(start.event) == k;
      var after := Load(Invoke(core, start, env), env);
      CallbackStarts(core, start, env);
      if after.state == Running {
        begun := TypesInOrder(after, events, fd, k + 1, env);
        assert core.started + [start] + begun == core.started + ([start] + begun);
      }
      OneMoreInOrder(start, begun, events, fd);
      begun := [start] + begun;
    }
  }

  /**
    One event begins a callback exactly when, on reaching it, its descriptor is registered with
    a callback for a reported type. Whether the descriptor was deleted and added again since the
    event was fetched makes no difference.
   */
  lemma {:induction false} EventBeginsExactly(core: Core, events: Mask, fd: Fd, k: nat, env: Env)
    requires k <= |EVENT_TYPES|
    ensures DispatchFrom(core, events, fd, k, env).started != core.started
            <==> fd in core.reg.fds && Due(core.reg.fds[fd].cbs, events, k)
    decreases |EVENT_TYPES| - k
  {
    if k == |EVENT_TYPES| {
    } else if Target(core.reg, events, fd, EVENT_TYPES[k]).None? {
      EventBeginsExactly(core, events, fd, k + 1, env);
    } else {
      var start := Start(fd, EVENT_TYPES[k], Target(core.reg, events, fd, EVENT_TYPES[k]).value);
      var after := Load(Invoke(core, start, env), env);
      CallbackStarts(core, start, env);
      assert |after.started| == |core.started| + 1;
      if after.state == Running {
        var begun := TypesInOrder(after, events, fd, k + 1, env);
      }
    }
  }

  // exec -------------------------------------------------------------------------------------

  const MAX_EVENTS: nat := 20

  datatype Event = Event(mask: Mask, fd: Fd)
  type Batch = seq<Event>

  datatype WaitResult = Events(batch: Batch) | Interrupted | WaitFailed

  /** `Asleep`: the observed waits are used up and exec is in the next one. */
  datatype ExecResult = Code(code: int) | NotIdle | ReadFailed | WaitThrew | Asleep

  predicate KernelWaits(waits: seq<WaitResult>) {
    forall j :: 0 <= j < |waits| && waits[j].Events? ==> 0 < |waits[j].batch| <= MAX_EVENTS
  }

  /** The final load of the exit code; another thread's stop may have stored it before. */
  function LoadCode(core: Core, env: Env): Core {
    core.(exitCode := if core.outside && env.stored(core.clock) then env.stopValue else core.exitCode)
  }

  /** The inner loop, from the evaluation of its condition for event `i` on. */
  function BatchFrom(core: Core, batch: Batch, i: nat, env: Env): Core
    requires i <= |batch|
    decreases |batch| - i, 1
  {
    EventsFrom(Load(core, env), batch, i, env)
  }

  function EventsFrom(core: Core, batch: Batch, i: nat, env: Env): Core
    requires i <= |batch|
    decreases |batch| - i, 0
  {
    if core.state != Running || i == |batch| then core
    else BatchFrom(DispatchFrom(core, batch[i].mask, batch[i].fd, 0, env), batch, i + 1, env)
  }

  /** The outer loop, from the evaluation of its condition on. */
  function LoopFrom(core: Core, waits: seq<WaitResult>, env: Env): (ended: (Core, ExecResult))
    ensures !ended.1.NotIdle?
    decreases |waits|, 1
  {
    WaitFrom(Load(core, env), waits, env)
  }

  function WaitFrom(core: Core, waits: seq<WaitResult>, env: Env): (ended: (Core, ExecResult))
    ensures !ended.1.NotIdle?
    decreases |waits|, 0
  {
    if core.state != Running then Leave(core, env)
    else if waits == [] then (core, Asleep)
    else
      match waits[0]
      case Interrupted => LoopFrom(core, waits[1..], env)
      case WaitFailed => (core.(state := Error), WaitThrew)
      case Events(batch) =>
        var woken := Load(core, env);
        if woken.state == Stopping then Leave(woken.(state := Stopped), env)
        else LoopFrom(BatchFrom(woken, batch, 0, env), waits[1..], env)
  }

  function Leave(core: Core, env: Env): (Core, ExecResult) {
    var loaded := LoadCode(core, env);
    (loaded, Code(loaded.exitCode))
  }

  function ExecFrom(core: Core, readOk: bool, waits: seq<WaitResult>, env: Env): (Core, ExecResult) {
    if core.state != Idle then (core, NotIdle)
    else if !readOk then (core.(state := Running), ReadFailed)
    else LoopFrom(core.(state := Running, counter := 0), waits, env)
  }
}
