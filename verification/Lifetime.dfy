/**
  epl::Fd: an object that owns a descriptor for as long as it is registered with the queue.
 */
module Lifetime {
  import opened Wrappers
  import opened Events
  import opened FdRegistry
  import EventQueue

  function SetCb(cbs: Callbacks, e: EventType, cb: Option<CallbackId>): Callbacks {
    match e
    case In => cbs.(inputAvailable := cb)
    case Out => cbs.(outputPossible := cb)
    case RdHup => cbs.(readSideHangUp := cb)
    case Pri => cbs.(priorityData := cb)
    case Err => cbs.(errorOccurred := cb)
    case Hup => cbs.(hangUp := cb)
  }

  /** The registration function behind setCallback. */
  function Setter(e: EventType, cb: Option<CallbackId>): RegFn {
    cbs => RegOutcome(SetCb(cbs, e, cb), false)
  }

  class WatchedFd {
    const fd: Fd
    const queue: EventQueue.EventQueue

    constructor (fd: Fd, queue: EventQueue.EventQueue)
      ensures this.fd == fd && this.queue == queue
    {
      this.fd := fd;
      this.queue := queue;
    }

    /** The constructor as callers see it: there is no object if add throws. */
    static method Create(fd: Fd, queue: EventQueue.EventQueue, ctl: bool) returns (made: Option<WatchedFd>)
      modifies queue
      ensures queue.Reg() == ApplyAdd(old(queue.Reg()), fd, None, ctl).reg
      ensures made.Some? <==> ApplyAdd(old(queue.Reg()), fd, None, ctl).outcome.Done?
      ensures made.Some? ==> fresh(made.value) && made.value.fd == fd && made.value.queue == queue
    {
      var outcome := queue.Add(fd, None, ctl);
      if outcome.Thrown? {
        return None;
      }
      var watched := new WatchedFd(fd, queue);
      return Some(watched);
    }

    method SetCallback(e: EventType, cb: Option<CallbackId>, ctl: bool) returns (outcome: Outcome)
      modifies queue
      ensures Result(queue.Reg(), outcome) == ApplyMod(old(queue.Reg()), fd, Some(Setter(e, cb)), ctl)
    {
      outcome := queue.Mod(fd, Some(Setter(e, cb)), ctl);
    }

    /** The destructor's body; the member that owns the descriptor closes it afterwards. */
    method Deregister(ctl: bool)
      modifies queue
      ensures queue.Reg() == ApplyDel(old(queue.Reg()), fd, ctl).reg
    {
      queue.DelSafe(fd, ctl);
    }
  }

  // Programs ---------------------------------------------------------------------------------

  type Id = nat

  /**
    `open` holds the descriptors open in the process, `objs` the live objects. `used` and
    `installer` are history: all objects ever constructed, and who installed which callback.
   */
  datatype World = World(
    evtfd: Fd,
    reg: Registry,
    open: set<Fd>,
    objs: map<Id, Fd>,
    used: set<Id>,
    installer: map<CallbackId, Id>)

  datatype Statement =
    | Construct(id: Id, fd: Fd, ctl: bool)  // from what a system call just returned
    | Install(id: Id, event: EventType, callback: CallbackId, ctl: bool)
    | Clear(id: Id, event: EventType, ctl: bool)
    | Destroy(id: Id, ctl: bool)
    | Release(fd: Fd, ctl: bool)            // the queue's own del, called for a number nobody owns

  predicate Allowed(w: World, st: Statement) {
    match st
    case Construct(id, fd, _) => id !in w.used && fd !in w.open
    case Install(id, _, callback, _) => id in w.objs && callback !in w.installer
    case Clear(id, _, _) => id in w.objs
    case Destroy(id, _) => id in w.objs
    case Release(fd, _) => fd != w.evtfd && fd !in w.objs.Values
  }

  /** Closing a descriptor takes it off the kernel's interest list. */
  function Close(w: World, fd: Fd): World {
    w.(open := w.open - {fd}, reg := Closed(w.reg, fd))
  }

  /** epoll_ctl cannot succeed on a number that is not a descriptor. */
  function Execute(w: World, st: Statement): World
    requires Allowed(w, st)
  {
    match st
    case Construct(id, fd, ctl) =>
      var added := ApplyAdd(w.reg, fd, None, ctl && fd >= 0);
      var w1 := w.(reg := added.reg, used := w.used + {id}, open := w.open + {fd});
      if added.outcome.Done? then w1.(objs := w.objs[id := fd]) else Close(w1, fd)
    case Install(id, e, callback, ctl) =>
      w.(reg := ApplyMod(w.reg, w.objs[id], Some(Setter(e, Some(callback))), ctl).reg,
         installer := w.installer[callback := id])
    case Clear(id, e, ctl) => w.(reg := ApplyMod(w.reg, w.objs[id], Some(Setter(e, None)), ctl).reg)
    case Destroy(id, ctl) =>
      Close(w.(reg := ApplyDel(w.reg, w.objs[id], ctl).reg, objs := w.objs - {id}), w.objs[id])
    case Release(fd, ctl) => w.(reg := ApplyDel(w.reg, fd, ctl).reg)
  }

  predicate Belongs(w: World, id: Id, fd: Fd) {
    id in w.objs && w.objs[id] == fd
  }

  /** Every live object's descriptor is its own, open and registered with queue and kernel. */
  ghost predicate LiveRegistered(w: World) {
    && (forall id :: id in w.objs ==> id in w.used && w.objs[id] != w.evtfd && w.objs[id] >= 0)
    && (forall id :: id in w.objs ==> w.objs[id] in w.open && w.objs[id] in w.reg.fds && w.objs[id] in w.reg.interest)
    && (forall id, id' :: id in w.objs && id' in w.objs && w.objs[id] == w.objs[id'] ==> id == id')
    && w.evtfd in w.open
  }

  /** The kernel watches nothing but the wake-up descriptor and live objects' descriptors. */
  ghost predicate OnlyLiveWatched(w: World) {
    forall fd :: fd in w.reg.interest ==> fd == w.evtfd || exists id :: Belongs(w, id, fd)
  }

  /** Whatever callback is stored for a descriptor was installed by its live owner. */
  ghost predicate CallbackOfOwner(w: World, fd: Fd, e: EventType) {
    fd in w.reg.fds && fd != w.evtfd && CbFunc(w.reg.fds[fd].cbs, e).Some? ==>
      var callback := CbFunc(w.reg.fds[fd].cbs, e).value;
      callback in w.installer && Belongs(w, w.installer[callback], fd)
  }

  ghost predicate CallbacksOfOwners(w: World) {
    forall fd, e :: CallbackOfOwner(w, fd, e)
  }

  /** An entry without an owner: left behind by a constructor whose epoll_ctl failed. */
  ghost predicate Orphan(w: World, fd: Fd) {
    fd in w.reg.fds && fd != w.evtfd && forall id :: !Belongs(w, id, fd)
  }

  ghost predicate Inv(w: World) {
    LiveRegistered(w) && OnlyLiveWatched(w) && CallbacksOfOwners(w)
  }

  // One statement ----------------------------------------------------------------------------

  lemma StepLive(w: World, st: Statement)
    requires LiveRegistered(w) && Allowed(w, st)
    ensures LiveRegistered(Execute(w, st))
  {
  }

  lemma StepWatched(w: World, st: Statement)
    requires LiveRegistered(w) && OnlyLiveWatched(w) && Allowed(w, st)
    ensures OnlyLiveWatched(Execute(w, st))
  {
    var w' := Execute(w, st);
    forall fd | fd in w'.reg.interest ensures fd == w.evtfd || exists id :: Belongs(w', id, fd) {
      if fd in w.reg.interest && fd != w.evtfd {
        var id :| Belongs(w, id, fd);
        assert Belongs(w', id, fd);
      } else if fd != w.evtfd {
        assert Belongs(w', st.id, fd);
      }
    }
  }

  lemma SetCbSpec(cbs: Callbacks, e: EventType, cb: Option<CallbackId>, e': EventType)
    ensures CbFunc(SetCb(cbs, e, cb), e') == if e' == e then cb else CbFunc(cbs, e')
  {
  }

  /** What a statement does to the callbacks stored for a descriptor that stays registered. */
  lemma CallbacksAfter(w: World, st: Statement, fd: Fd)
    requires LiveRegistered(w) && Allowed(w, st) && fd in Execute(w, st).reg.fds
    ensures var cbs' := Execute(w, st).reg.fds[fd].cbs;
            if fd !in w.reg.fds then st.Construct? && cbs' == NO_CALLBACKS
            else if st.Install? && w.objs[st.id] == fd then
              cbs' == SetCb(w.reg.fds[fd].cbs, st.event, Some(st.callback))
            else if st.Clear? && w.objs[st.id] == fd then cbs' == SetCb(w.reg.fds[fd].cbs, st.event, None)
            else cbs' == w.reg.fds[fd].cbs
    ensures st.Destroy? ==> w.objs[st.id] != fd
  {
  }

  lemma OwnerStays(w: World, st: Statement, id: Id, fd: Fd)
    requires LiveRegistered(w) && Allowed(w, st) && Belongs(w, id, fd) && !(st.Destroy? && st.id == id)
    ensures Belongs(Execute(w, st), id, fd)
  {
  }

  lemma StepCallbacks(w: World, st: Statement, fd: Fd, e: EventType)
    requires LiveRegistered(w) && CallbackOfOwner(w, fd, e) && Allowed(w, st)
    ensures CallbackOfOwner(Execute(w, st), fd, e)
  {
    if fd in Execute(w, st).reg.fds {
      CallbacksAfter(w, st, fd);
      if fd in w.reg.fds && fd != w.evtfd && CbFunc(w.reg.fds[fd].cbs, e).Some? {
        OwnerStays(w, st, w.installer[CbFunc(w.reg.fds[fd].cbs, e).value], fd);
      }
      if fd in w.reg.fds && (st.Install? || st.Clear?) {
        SetCbSpec(w.reg.fds[fd].cbs, st.event, if st.Install? then Some(st.callback) else None, e);
      }
    }
  }

  lemma StepInv(w: World, st: Statement)
    requires Inv(w) && Allowed(w, st)
    ensures Inv(Execute(w, st))
  {
    StepLive(w, st);
    StepWatched(w, st);
    forall fd, e ensures CallbackOfOwner(Execute(w, st), fd, e) {
      StepCallbacks(w, st, fd, e);
    }
  }

  // Runs -------------------------------------------------------------------------------------

  ghost predicate Initial(w: World) {
    && w.open == {w.evtfd} && w.objs == map[] && w.used == {} && w.installer == map[]
    && w.reg.fds.Keys == {w.evtfd} && w.reg.interest.Keys == {w.evtfd} && Agrees(w.reg, w.evtfd)
  }

  predicate IsProgram(w: World, program: seq<Statement>)
    decreases |program|
  {
    program == [] || (Allowed(w, program[0]) && IsProgram(Execute(w, program[0]), program[1..]))
  }

  function RunProgram(w: World, program: seq<Statement>): World
    requires IsProgram(w, program)
    decreases |program|
  {
    if program == [] then w else RunProgram(Execute(w, program[0]), program[1..])
  }

  lemma {:induction false} ProgramKeepsInv(w: World, program: seq<Statement>)
    requires Inv(w) && IsProgram(w, program)
    ensures Inv(RunProgram(w, program))
    decreases |program|
  {
    if program == [] {
    } else {
      StepInv(w, program[0]);
      ProgramKeepsInv(Execute(w, program[0]), program[1..]);
    }
  }

  /**
    Through any program, kernel failures included: a live object's descriptor is open and
    registered, and a callback stored for any descriptor but the queue's own was installed by
    the live object that owns the descriptor now.
   */
  lemma NoCallbackOutlivesItsOwner(w0: World, program: seq<Statement>, fd: Fd, e: EventType)
    requires Initial(w0) && IsProgram(w0, program)
    ensures var w := RunProgram(w0, program);
            && (forall id :: Belongs(w, id, fd) ==> fd in w.open && fd in w.reg.fds && fd in w.reg.interest)
            && CallbackOfOwner(w, fd, e)
  {
    ProgramKeepsInv(w0, program);
    assert CallbackOfOwner(RunProgram(w0, program), fd, e);
  }

  /** A destroyed object's descriptor is forgotten by the queue and the kernel, then closed. */
  lemma DestroyForgets(w: World, id: Id, ctl: bool)
    requires Inv(w) && id in w.objs
    ensures var fd, w' := w.objs[id], Execute(w, Destroy(id, ctl));
            fd !in w'.reg.fds && fd !in w'.reg.interest && fd !in w'.open && forall i :: !Belongs(w', i, fd)
  {
  }

  // Failing constructors ---------------------------------------------------------------------

  /**
    Construction succeeds exactly when the number has no entry yet and the kernel agrees. When
    it fails on a number without an entry, it leaves one behind although the descriptor is closed.
   */
  lemma ConstructionSucceedsExactly(w: World, id: Id, fd: Fd, ctl: bool)
    requires Inv(w) && Allowed(w, Construct(id, fd, ctl))
    ensures var w' := Execute(w, Construct(id, fd, ctl));
            && (Belongs(w', id, fd) <==> fd !in w.reg.fds && fd >= 0 && ctl)
            && (Orphan(w', fd) <==> !Belongs(w', id, fd))
            && (!Belongs(w', id, fd) ==> fd !in w'.open && w'.objs == w.objs)
  {
    var w' := Execute(w, Construct(id, fd, ctl));
    assert forall i :: i in w.objs ==> w.objs[i] != fd;
    if Belongs(w', id, fd) {
      assert !Orphan(w', fd);
    }
  }

  predicate Releases(st: Statement, fd: Fd) {
    st.Release? && st.fd == fd
  }

  lemma OrphanStaysExactly(w: World, st: Statement, fd: Fd)
    requires Inv(w) && Orphan(w, fd) && Allowed(w, st)
    ensures Orphan(Execute(w, st), fd) <==> !Releases(st, fd)
  {
    var w' := Execute(w, st);
    forall id ensures !Belongs(w', id, fd) {
      assert !Belongs(w, id, fd);
    }
    assert st.Destroy? ==> !Belongs(w, st.id, fd);
  }

  /**
    A number with an entry but no owner cannot be constructed on until the queue's del is called
    for it. Objects never do that; a call of their client does, even if epoll_ctl fails in it.
   */
  lemma {:induction false} OrphanUntilReleased(w: World, program: seq<Statement>, fd: Fd, id: Id, ctl: bool)
    requires Inv(w) && Orphan(w, fd) && IsProgram(w, program)
    requires forall st :: st in program ==> !Releases(st, fd)
    requires Allowed(RunProgram(w, program), Construct(id, fd, ctl))
    ensures !Belongs(Execute(RunProgram(w, program), Construct(id, fd, ctl)), id, fd)
    decreases |program|
  {
    if program == [] {
      ConstructionSucceedsExactly(w, id, fd, ctl);
    } else {
      assert program[0] in program;
      StepInv(w, program[0]);
      OrphanStaysExactly(w, program[0], fd);
      OrphanUntilReleased(Execute(w, program[0]), program[1..], fd, id, ctl);
    }
  }

  /** Once released, the number is as good as any other. */
  lemma ReleasedIsUsable(w: World, fd: Fd, delOk: bool, id: Id, ctl: bool)
    requires Inv(w) && Orphan(w, fd) && Allowed(w, Construct(id, fd, ctl))
    ensures Allowed(w, Release(fd, delOk)) && Allowed(Execute(w, Release(fd, delOk)), Construct(id, fd, ctl))
    ensures var w' := Execute(Execute(w, Release(fd, delOk)), Construct(id, fd, ctl));
            Belongs(w', id, fd) <==> ctl && fd >= 0
  {
    assert forall owner :: owner in w.objs ==> !Belongs(w, owner, fd);
    StepInv(w, Release(fd, delOk));
    ConstructionSucceedsExactly(Execute(w, Release(fd, delOk)), id, fd, ctl);
  }

  /** Without kernel failures there are no orphans and the kernel's masks are up to date. */
  ghost predicate InStep(w: World) {
    forall fd :: !Orphan(w, fd) && Agrees(w.reg, fd)
  }

  predicate KernelObliges(program: seq<Statement>) {
    forall st :: st in program ==> st.ctl && (st.Construct? ==> st.fd >= 0)
  }

  lemma StepInStep(w: World, st: Statement)
    requires Inv(w) && InStep(w) && Allowed(w, st) && st.ctl && (st.Construct? ==> st.fd >= 0)
    ensures InStep(Execute(w, st))
  {
    var w' := Execute(w, st);
    forall fd ensures !Orphan(w', fd) && Agrees(w'.reg, fd) {
      assert !Orphan(w, fd) && Agrees(w.reg, fd);
      InStepAt(w, st, fd);
    }
  }

  lemma InStepAt(w: World, st: Statement, fd: Fd)
    requires Inv(w) && Allowed(w, st) && st.ctl && (st.Construct? ==> st.fd >= 0)
    requires !Orphan(w, fd) && Agrees(w.reg, fd) && (st.Construct? ==> !Orphan(w, st.fd))
    ensures !Orphan(Execute(w, st), fd) && Agrees(Execute(w, st).reg, fd)
  {
    var w' := Execute(w, st);
    if fd in w'.reg.fds && fd != w.evtfd {
      if fd in w.reg.fds {
        var id :| Belongs(w, id, fd);
        OwnerStays(w, st, id, fd);
      } else {
        assert Belongs(w', st.id, fd);
      }
    }
  }

  lemma {:induction false} AgreementWithoutFailures(w: World, program: seq<Statement>)
    requires Inv(w) && InStep(w) && IsProgram(w, program) && KernelObliges(program)
    ensures InStep(RunProgram(w, program))
    decreases |program|
  {
    if program == [] {
    } else {
      StepInStep(w, program[0]);
      StepInv(w, program[0]);
      AgreementWithoutFailures(Execute(w, program[0]), program[1..]);
    }
  }

  /**
    Without kernel failures every registered descriptor but the queue's own has a live owner,
    and the kernel watches exactly the events its callbacks ask for.
   */
  lemma LifetimeTiesToRegistration(w0: World, program: seq<Statement>, fd: Fd)
    requires Initial(w0) && IsProgram(w0, program) && KernelObliges(program)
    ensures var w := RunProgram(w0, program);
            && Agrees(w.reg, fd)
            && (fd in w.reg.fds && fd != w.evtfd ==> exists id :: Belongs(w, id, fd))
  {
    assert InStep(w0);
    AgreementWithoutFailures(w0, program);
    assert !Orphan(RunProgram(w0, program), fd);
    assert Agrees(RunProgram(w0, program).reg, fd);
  }
}
