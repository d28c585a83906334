/**
  The event queue as the object the loop thread works on: its registry, run state and exit
  code, and the kernel's side of them.
 */
module EventQueue {
  import opened Wrappers
  import opened Events
  import opened FdRegistry
  import opened Dispatch

  class EventQueue {
    // m_fds, m_state and m_exitCode
    var fds: map<Fd, Node>
    var state: RunState
    var exitCode: int
    // identities of map nodes given out so far
    var nextId: nat
    // the kernel: interest list and wake-up counter
    var interest: map<Fd, Mask>
    var counter: nat
    const evtfd: Fd
    // the oracle: whether another thread's stop has won, and the consultations so far
    var outside: bool
    var clock: nat
    ghost var suspect: set<Fd>
    ghost var started: seq<Start>

    ghost function Reg(): Registry
      reads this
    {
      Registry(fds, nextId, interest, suspect)
    }

    ghost function Core(): Dispatch.Core
      reads this
    {
      Dispatch.Core(Reg(), state, exitCode, counter, outside, clock, started)
    }

    /** The wake-up descriptor is registered with a callback that does nothing. */
    constructor (evtfd: Fd, wakeUp: CallbackId)
      ensures this.evtfd == evtfd && Core() == InitialCore(evtfd, wakeUp)
    {
      this.evtfd := evtfd;
      var cbs := NO_CALLBACKS.(inputAvailable := Some(wakeUp));
      fds := map[evtfd := Node(0, cbs)];
      nextId := 1;
      state := Idle;
      exitCode := 1;
      counter := 0;
      outside := false;
      clock := 0;
      suspect := {};
      started := [];
      new;
      var events := CalculateEvents(cbs);
      assert events == {In};
      interest := map[evtfd := events];
    }

    /** One load of the run state, other threads' stops included. */
    method IsRunning(env: Env) returns (running: bool)
      modifies this
      ensures Core() == Load(old(Core()), env)
      ensures running == (state == Running)
      ensures running <==> old(state) == Running && !env.stopped(old(clock))
    {
      if state == Running && env.stopped(clock) {
        state := Stopping;
        outside := true;
      }
      clock := clock + 1;
      running := state == Running;
    }

    method Add(fd: Fd, reg: Option<RegFn>, ctl: bool) returns (outcome: Outcome)
      modifies this`fds, this`nextId, this`interest, this`suspect
      ensures Result(Reg(), outcome) == ApplyAdd(old(Reg()), fd, reg, ctl)
      ensures old(fd !in fds) ==> fd in fds && fds[fd].cbs == LeftBy(reg, NO_CALLBACKS).cbs
      ensures outcome.Done? <==> old(fd !in fds && fd !in interest) && ctl && !LeftBy(reg, NO_CALLBACKS).throws
    {
      if fd in fds {
        return Thrown;
      }
      fds := fds[fd := Node(nextId, NO_CALLBACKS)];
      nextId := nextId + 1;
      if reg.Some? {
        var out := reg.value(fds[fd].cbs);
        fds := fds[fd := fds[fd].(cbs := out.cbs)];
        if out.throws {
          suspect := suspect + {fd};
          return Thrown;
        }
      }
      outcome := EpollCtl(Op.Add(fd, reg), ctl);
    }

    method Mod(fd: Fd, reg: Option<RegFn>, ctl: bool) returns (outcome: Outcome)
      modifies this`fds, this`interest, this`suspect
      ensures Result(Reg(), outcome) == ApplyMod(old(Reg()), fd, reg, ctl)
      ensures reg.Some? && old(fd in fds) ==> fd in fds && fds[fd].cbs == LeftBy(reg, old(fds)[fd].cbs).cbs
      ensures outcome.Done? <==>
                reg.Some? && old(fd in fds && fd in interest) && ctl && !LeftBy(reg, old(fds)[fd].cbs).throws
    {
      if reg.None? {
        return Thrown;
      }
      if fd !in fds {
        return Thrown;
      }
      var out := reg.value(fds[fd].cbs);
      fds := fds[fd := fds[fd].(cbs := out.cbs)];
      if out.throws {
        suspect := suspect + {fd};
        return Thrown;
      }
      outcome := EpollCtl(Op.Mod(fd, reg), ctl);
    }

    method Del(fd: Fd, ctl: bool) returns (outcome: Outcome)
      modifies this`fds, this`interest, this`suspect
      ensures Result(Reg(), outcome) == ApplyDel(old(Reg()), fd, ctl)
      ensures fd !in fds && (outcome.Done? <==> old(fd in fds && fd in interest) && ctl)
    {
      if fd !in fds {
        return Thrown;
      }
      fds := fds - {fd};
      if ctl && fd in interest {
        interest := interest - {fd};
        suspect := suspect - {fd};
        outcome := Done;
      } else {
        suspect := suspect + {fd};
        outcome := Thrown;
      }
    }

    /** The exception is logged and swallowed. */
    method DelSafe(fd: Fd, ctl: bool)
      modifies this`fds, this`interest, this`suspect
      ensures Reg() == ApplyDel(old(Reg()), fd, ctl).reg
    {
      var outcome := Del(fd, ctl);
    }

    /** epoll_ctl with the events calculated from the stored callbacks (add and mod). */
    method EpollCtl(op: Op, ctl: bool) returns (outcome: Outcome)
      requires !op.Del? && op.fd in fds
      modifies this`interest, this`suspect
      ensures outcome.Done? <==> old(CtlOk(Reg(), op, ctl))
      ensures Reg() == old(if CtlOk(Reg(), op, ctl) then SetInterest(Reg(), op.fd) else Blame(Reg(), op.fd))
    {
      var events := CalculateEvents(fds[op.fd].cbs);
      if ctl && (op.Add? <==> op.fd !in interest) {
        interest := interest[op.fd := events];
        suspect := suspect - {op.fd};
        outcome := Done;
      } else {
        suspect := suspect + {op.fd};
        outcome := Thrown;
      }
    }

    method Stop(value: int, env: Env) returns (outcome: Outcome)
      modifies this
      ensures Step(Core(), outcome) == StopNow(old(Core()), value, env)
      ensures old(state) == Running ==>
                && state == Stopping && exitCode == value
                && (outcome.Done? <==> env.write(old(clock)) && old(counter) < COUNTER_MAX)
                && counter == old(counter) + if outcome.Done? then 1 else 0
      ensures old(state) != Running ==>
                outcome.Done? && state == old(state) && exitCode == old(exitCode) && counter == old(counter)
    {
      var now := clock;
      clock := clock + 1;
      if state != Running {
        return Done;
      }
      state := Stopping;
      exitCode := value;
      if env.write(now) && counter < COUNTER_MAX {
        counter := counter + 1;
        return Done;
      }
      return Thrown;
    }

    method PerformCommand(cmd: Command, env: Env) returns (outcome: Outcome)
      modifies this
      ensures Step(Core(), outcome) == Perform(old(Core()), cmd, env)
    {
      match cmd {
        case Throw =>
          outcome := Thrown;
        case Stop(value, _) =>
          outcome := this.Stop(value, env);
        case Call(op, _) =>
          var ctl := env.ctl(clock);
          match op {
            case Add(fd, reg) => outcome := this.Add(fd, reg, ctl);
            case Mod(fd, reg) => outcome := this.Mod(fd, reg, ctl);
            case Del(fd) => outcome := this.Del(fd, ctl);
          }
          clock := clock + 1;
      }
    }

    /** A callback's body; an exception that leaves it is caught and logged by the dispatcher. */
    method CallFunction(start: Start, env: Env)
      modifies this
      ensures Core() == Invoke(old(Core()), start, env)
    {
      var cmds := env.script(start.callback, clock);
      started := started + [start];
      clock := clock + 1;
      ghost var begun := Core();
      var i := 0;
      while i < |cmds|
        invariant i <= |cmds|
        invariant RunScript(Core(), cmds[i..], env) == RunScript(begun, cmds, env)
      {
        var outcome := PerformCommand(cmds[i], env);
        if Unwinds(cmds[i], outcome) {
          return;
        }
        assert cmds[i..][1..] == cmds[i + 1..];
        i := i + 1;
      }
    }

    /**
      The dispatcher as written: it keeps an iterator across event types and looks the
      descriptor up again only after a callback has run.
     */
    method HandleEpollFilledEvent(events: Mask, fd: Fd, env: Env)
      modifies this
      ensures Core() == DispatchFrom(old(Core()), events, fd, 0, env)
    {
      if fd !in fds {
        GoneDoesNothing(Core(), events, fd, 0, env);
        return;
      }
      var it := Iter(fd, fds[fd].id);
      for k := 0 to |EVENT_TYPES|
        invariant it.fd == fd && Live(Reg(), it)
        invariant DispatchFrom(Core(), events, fd, k, env) == DispatchFrom(old(Core()), events, fd, 0, env)
      {
        var eventType := EVENT_TYPES[k];
        if eventType !in events {
          continue;
        }
        assert Live(Reg(), it);  // the iterator does not dangle
        var func := CbFunc(fds[it.fd].cbs, eventType);
        if func.None? {
          continue;
        }
        CallFunction(Start(fd, eventType, func.value), env);
        var running := IsRunning(env);
        if !running {
          return;
        }
        if fd !in fds {
          GoneDoesNothing(Core(), events, fd, k + 1, env);
          return;
        }
        it := Iter(fd, fds[fd].id);
      }
    }

    method LoadExitCode(env: Env) returns (code: int)
      modifies this
      ensures Core() == LoadCode(old(Core()), env) && code == exitCode
    {
      if outside && env.stored(clock) {
        exitCode := env.stopValue;
      }
      code := exitCode;
    }

    method HandleBatch(batch: Batch, env: Env)
      modifies this
      ensures Core() == BatchFrom(old(Core()), batch, 0, env)
    {
      var i := 0;
      var running := IsRunning(env);
      while running && i < |batch|
        invariant i <= |batch| && running == (state == Running)
        invariant BatchFrom(old(Core()), batch, 0, env) == EventsFrom(Core(), batch, i, env)
        decreases |batch| - i
      {
        HandleEpollFilledEvent(batch[i].mask, batch[i].fd, env);
        i := i + 1;
        running := IsRunning(env);
      }
    }

    /** exec, over any finite observation of what epoll_wait returns. */
    method Exec(readOk: bool, waits: seq<WaitResult>, env: Env) returns (result: ExecResult)
      modifies this
      ensures (Core(), result) == ExecFrom(old(Core()), readOk, waits, env)
    {
      if state != Idle {
        return NotIdle;
      }
      state := Running;
      if !readOk {
        return ReadFailed;
      }
      counter := 0;
      var j := 0;
      var running := IsRunning(env);
      while running
        invariant j <= |waits| && running == (state == Running)
        invariant ExecFrom(old(Core()), readOk, waits, env) == WaitFrom(Core(), waits[j..], env)
        decreases |waits| - j, running
      {
        if j == |waits| {
          return Asleep;
        }
        var rv := waits[j];
        assert waits[j..][0] == rv && waits[j..][1..] == waits[j + 1..];
        j := j + 1;
        match rv {
          case Interrupted =>
          case WaitFailed =>
            state := Error;
            return WaitThrew;
          case Events(batch) =>
            var stillRunning := IsRunning(env);
            if state == Stopping {
              state := Stopped;
              break;
            }
            HandleBatch(batch, env);
        }
        running := IsRunning(env);
      }
      var code := LoadExitCode(env);
      result := Code(code);
    }
  }
}
