/**
  The dispatcher and the descriptor owners together: a queue used only through owners, inside
  callbacks and outside them, begins no callback of an owner that is gone.
 */
module OwnedCallbacks {
  import opened Wrappers
  import opened Events
  import opened FdRegistry
  import opened ExecLoop
  import opened ExecSafety
  import opened ExecTheorems
  import L = Lifetime

  /** The interleaved machine, and the objects that own descriptors in the same process. */
  datatype Joint = Joint(s: State, w: L.World)

  datatype Move =
    | Machine(a: Action)       // no change of the registry
    | Object(st: L.Statement)  // by a callback, or by clients while no exec is under way

  predicate ChangesRegistry(a: Action) {
    a.Client? || a.Close? || (a.Loop? && a.step.Change?)
  }

  /** What a statement asks of the queue. */
  function OpOf(w: L.World, st: L.Statement): Op
    requires L.Allowed(w, st)
  {
    match st
    case Construct(_, fd, _) => Add(fd, None)
    case Install(id, e, callback, _) => Mod(w.objs[id], Some(L.Setter(e, Some(callback))))
    case Clear(id, e, _) => Mod(w.objs[id], Some(L.Setter(e, None)))
    case Destroy(id, _) => Del(w.objs[id])
    case Release(fd, _) => Del(fd)
  }

  function CtlOf(st: L.Statement): bool {
    st.ctl && (st.Construct? ==> st.fd >= 0)
  }

  /** Whether the statement closes its descriptor: a destructor, or a constructor that throws. */
  predicate Closes(w: L.World, st: L.Statement)
    requires L.Allowed(w, st)
  {
    || st.Destroy?
    || (st.Construct? && Apply(w.reg, OpOf(w, st), CtlOf(st)).outcome.Thrown?)
  }

  /** The statement as steps of the machine. */
  function StepsOf(j: Joint, st: L.Statement): seq<Action>
    requires L.Allowed(j.w, st)
  {
    var op, ctl := OpOf(j.w, st), CtlOf(st);
    var call := if j.s.loop.InCallback? then Loop(Change(op, ctl)) else Client(op, ctl);
    if Closes(j.w, st) then [call, Action.Close(op.fd)] else [call]
  }

  predicate Possible(j: Joint, m: Move) {
    match m
    case Machine(a) => Enabled(j.s, a) && !ChangesRegistry(a)
    case Object(st) => L.Allowed(j.w, st) && IsRun(j.s, StepsOf(j, st))
  }

  function After(j: Joint, m: Move): Joint
    requires Possible(j, m)
  {
    match m
    case Machine(a) => Joint(Next(j.s, a), j.w)
    case Object(st) => Joint(RunFrom(j.s, StepsOf(j, st)), L.Execute(j.w, st))
  }

  ghost predicate Joined(j: Joint) {
    Inv(j.s) && L.Inv(j.w) && j.w.reg == j.s.reg && j.w.evtfd == j.s.evtfd
  }

  /** The objects' view of a statement is what the machine's steps do to the registry. */
  lemma StepsAgree(j: Joint, st: L.Statement)
    requires Joined(j) && Possible(j, Object(st))
    ensures RunFrom(j.s, StepsOf(j, st)).reg == L.Execute(j.w, st).reg
    ensures RunFrom(j.s, StepsOf(j, st)).evtfd == j.s.evtfd
  {
    var steps := StepsOf(j, st);
    var s1 := Next(j.s, steps[0]);
    assert s1.reg == Apply(j.w.reg, OpOf(j.w, st), CtlOf(st)).reg;
    if Closes(j.w, st) {
      var close := Action.Close(OpOf(j.w, st).fd);
      assert steps[1..] == [close] && [close][1..] == [];
      assert RunFrom(s1, [close]) == Next(s1, close);
    } else {
      assert steps[1..] == [];
    }
  }

  lemma MachineKeepsRegistry(s: State, a: Action)
    requires Enabled(s, a) && !ChangesRegistry(a)
    ensures Next(s, a).reg == s.reg && Next(s, a).evtfd == s.evtfd
  {
  }

  lemma MoveKeepsJoined(j: Joint, m: Move)
    requires Joined(j) && Possible(j, m)
    ensures Joined(After(j, m)) && After(j, m).s.evtfd == j.s.evtfd
  {
    match m {
      case Machine(a) =>
        StepInv(j.s, a);
        MachineKeepsRegistry(j.s, a);
      case Object(st) =>
        RunKeepsInv(j.s, StepsOf(j, st));
        L.StepInv(j.w, st);
        StepsAgree(j, st);
    }
  }

  // Runs -------------------------------------------------------------------------------------

  predicate IsUse(j: Joint, moves: seq<Move>)
    decreases |moves|
  {
    moves == [] || (Possible(j, moves[0]) && IsUse(After(j, moves[0]), moves[1..]))
  }

  function UseFrom(j: Joint, moves: seq<Move>): Joint
    requires IsUse(j, moves)
    decreases |moves|
  {
    if moves == [] then j else UseFrom(After(j, moves[0]), moves[1..])
  }

  lemma {:induction false} UseKeepsJoined(j: Joint, moves: seq<Move>)
    requires Joined(j) && IsUse(j, moves)
    ensures Joined(UseFrom(j, moves)) && UseFrom(j, moves).s.evtfd == j.s.evtfd
    decreases |moves|
  {
    if moves == [] {
    } else {
      MoveKeepsJoined(j, moves[0]);
      UseKeepsJoined(After(j, moves[0]), moves[1..]);
    }
  }

  /** A new queue and no objects. */
  function NewQueue(evtfd: Fd, wakeUp: CallbackId): Joint {
    var s := Init(evtfd, wakeUp);
    Joint(s, L.World(evtfd, s.reg, {evtfd}, map[], {}, map[]))
  }

  lemma NewQueueJoined(evtfd: Fd, wakeUp: CallbackId)
    ensures Joined(NewQueue(evtfd, wakeUp)) && L.Initial(NewQueue(evtfd, wakeUp).w)
  {
    InitInv(evtfd, wakeUp);
    assert EventMask(InitialRegistry(evtfd, wakeUp).fds[evtfd].cbs) == {In};
  }

  /**
    Whatever callbacks do with the objects, their own included, whatever fails and whoever
    stops the queue: every callback that begins for a descriptor was installed by the live
    object that owns the descriptor at that moment.
   */
  lemma CallbackOfLiveOwner(evtfd: Fd, wakeUp: CallbackId, moves: seq<Move>, fuel: nat)
    requires IsUse(NewQueue(evtfd, wakeUp), moves)
    requires Possible(UseFrom(NewQueue(evtfd, wakeUp), moves), Machine(Loop(Begin(fuel))))
    ensures var j := UseFrom(NewQueue(evtfd, wakeUp), moves);
            var fd, callback := j.s.loop.at.Fd(), j.s.loop.func;
            fd == evtfd || (callback in j.w.installer && L.Belongs(j.w, j.w.installer[callback], fd) && fd in j.w.open)
  {
    NewQueueJoined(evtfd, wakeUp);
    UseKeepsJoined(NewQueue(evtfd, wakeUp), moves);
    var j := UseFrom(NewQueue(evtfd, wakeUp), moves);
    assert L.CallbackOfOwner(j.w, j.s.loop.at.Fd(), j.s.loop.at.Type());
  }
}
