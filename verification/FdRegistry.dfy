/**
  The descriptor registry of the event queue together with the kernel's interest list.

  A map node carries an identity, given out once when the entry is emplaced. A std::map
  iterator is a descriptor with such an identity: it dangles once its node is erased, even if
  the descriptor is added again.
 */
module FdRegistry {
  import opened Wrappers
  import opened Events

  datatype Node = Node(id: nat, cbs: Callbacks)

  /** What a registration function did to its argument, and whether it threw afterwards. */
  datatype RegOutcome = RegOutcome(cbs: Callbacks, throws: bool)
  type RegFn = Callbacks -> RegOutcome

  /**
    `suspect` is history: the descriptors whose latest call that got past its checks was cut
    short by the registration function or refused by epoll_ctl, or that were closed while
    registered.
   */
  datatype Registry = Registry(
    fds: map<Fd, Node>,
    nextId: nat,
    interest: map<Fd, Mask>,
    suspect: set<Fd>)

  datatype Result = Result(reg: Registry, outcome: Outcome)

  datatype Op =
    | Add(fd: Fd, onAdd: Option<RegFn>)
    | Mod(fd: Fd, onMod: Option<RegFn>)
    | Del(fd: Fd)

  // Kernel -----------------------------------------------------------------------------------

  /** epoll_ctl may fail for any reason (`ctl` is false) and refuses a wrong membership. */
  predicate CtlOk(r: Registry, op: Op, ctl: bool) {
    ctl && (op.Add? <==> op.fd !in r.interest)
  }

  function Blame(r: Registry, fd: Fd): Registry {
    r.(suspect := r.suspect + {fd})
  }

  function SetInterest(r: Registry, fd: Fd): Registry
    requires fd in r.fds
  {
    r.(interest := r.interest[fd := EventMask(r.fds[fd].cbs)], suspect := r.suspect - {fd})
  }

  /** The kernel forgets a descriptor that is closed, without any call of the queue. */
  function Closed(r: Registry, fd: Fd): Registry {
    r.(interest := r.interest - {fd}, suspect := if fd in r.fds then r.suspect + {fd} else r.suspect - {fd})
  }

  // Construction -----------------------------------------------------------------------------

  /** The wake-up descriptor's callbacks: one that does nothing. */
  function WakeUpCallbacks(wakeUp: CallbackId): Callbacks {
    NO_CALLBACKS.(inputAvailable := Some(wakeUp))
  }

  function InitialRegistry(evtfd: Fd, wakeUp: CallbackId): Registry {
    Registry(map[evtfd := Node(0, WakeUpCallbacks(wakeUp))], 1, map[evtfd := {In}], {})
  }

  // Operations -------------------------------------------------------------------------------

  /** What a registration function, if there is one, makes of a callback record. */
  function LeftBy(reg: Option<RegFn>, cbs: Callbacks): RegOutcome {
    match reg
    case None => RegOutcome(cbs, false)
    case Some(f) => f(cbs)
  }

  /** The part of add and mod that follows the lookup: call `reg`, then tell the kernel. */
  function Configure(r: Registry, op: Op, reg: Option<RegFn>, ctl: bool): Result
    requires op.fd in r.fds
  {
    var node := r.fds[op.fd];
    var out := if reg.Some? then reg.value(node.cbs) else RegOutcome(node.cbs, false);
    var r1 := r.(fds := r.fds[op.fd := Node(node.id, out.cbs)]);
    if out.throws || !CtlOk(r, op, ctl) then Result(Blame(r1, op.fd), Thrown)
    else Result(SetInterest(r1, op.fd), Done)
  }

  function Emplace(r: Registry, fd: Fd): Registry {
    r.(fds := r.fds[fd := Node(r.nextId, NO_CALLBACKS)], nextId := r.nextId + 1)
  }

  function ApplyAdd(r: Registry, fd: Fd, reg: Option<RegFn>, ctl: bool): Result {
    if fd in r.fds then Result(r, Thrown)
    else Configure(Emplace(r, fd), Add(fd, reg), reg, ctl)
  }

  function ApplyMod(r: Registry, fd: Fd, reg: Option<RegFn>, ctl: bool): Result {
    if reg.None? || fd !in r.fds then Result(r, Thrown)
    else Configure(r, Mod(fd, reg), reg, ctl)
  }

  function ApplyDel(r: Registry, fd: Fd, ctl: bool): Result {
    if fd !in r.fds then Result(r, Thrown)
    else
      var r1 := r.(fds := r.fds - {fd});
      if CtlOk(r, Del(fd), ctl) then
        Result(r1.(interest := r.interest - {fd}, suspect := r.suspect - {fd}), Done)
      else Result(Blame(r1, fd), Thrown)
  }

  function Apply(r: Registry, op: Op, ctl: bool): Result {
    match op
    case Add(fd, reg) => ApplyAdd(r, fd, reg, ctl)
    case Mod(fd, reg) => ApplyMod(r, fd, reg, ctl)
    case Del(fd) => ApplyDel(r, fd, ctl)
  }

  /** The call is turned away by the checks that precede any change. */
  predicate Rejected(r: Registry, op: Op) {
    match op
    case Add(fd, _) => fd in r.fds
    case Mod(fd, reg) => reg.None? || fd !in r.fds
    case Del(fd) => fd !in r.fds
  }

  // Iterators --------------------------------------------------------------------------------

  /** `None` is the end iterator. */
  datatype Iter = Iter(fd: Fd, id: nat)

  predicate Live(r: Registry, it: Iter) {
    it.fd in r.fds && r.fds[it.fd].id == it.id
  }

  function Find(r: Registry, fd: Fd): (it: Option<Iter>)
    ensures it.Some? <==> fd in r.fds
    ensures it.Some? ==> it.value.fd == fd && Live(r, it.value)
  {
    if fd in r.fds then Some(Iter(fd, r.fds[fd].id)) else None
  }

  function Deref(r: Registry, it: Iter): Callbacks
    requires Live(r, it)
  {
    r.fds[it.fd].cbs
  }

  // Agreement --------------------------------------------------------------------------------

  /** Registry and kernel tell the same story about `fd`. */
  predicate Agrees(r: Registry, fd: Fd) {
    && (fd in r.fds <==> fd in r.interest)
    && (fd in r.fds ==> r.interest[fd] == EventMask(r.fds[fd].cbs))
  }

  ghost predicate FreshIds(r: Registry) {
    && (forall fd :: fd in r.fds ==> r.fds[fd].id < r.nextId)
    && (forall fd, fd' :: fd in r.fds && fd' in r.fds && fd != fd' ==> r.fds[fd].id != r.fds[fd'].id)
  }

  ghost predicate Agreement(r: Registry) {
    forall fd :: fd in r.suspect || Agrees(r, fd)
  }

  ghost predicate WellFormed(r: Registry) {
    FreshIds(r) && Agreement(r)
  }

  /** Nothing recorded about descriptor `g` differs. */
  predicate SameAt(r: Registry, r': Registry, g: Fd) {
    && (g in r.fds <==> g in r'.fds)
    && (g in r.fds ==> r.fds[g] == r'.fds[g])
    && (g in r.interest <==> g in r'.interest)
    && (g in r.interest ==> r.interest[g] == r'.interest[g])
    && (g in r.suspect <==> g in r'.suspect)
  }

  /** No call touches anything recorded about another descriptor. */
  lemma OthersUntouched(r: Registry, op: Op, ctl: bool, g: Fd)
    requires g != op.fd
    ensures SameAt(r, Apply(r, op, ctl).reg, g)
  {
  }

  lemma ApplyKeepsIds(r: Registry, op: Op, ctl: bool)
    requires FreshIds(r)
    ensures FreshIds(Apply(r, op, ctl).reg)
  {
    var r' := Apply(r, op, ctl).reg;
    assert op.fd in r'.fds ==> r'.fds[op.fd].id == if op.fd in r.fds then r.fds[op.fd].id else r.nextId;
    assert r.nextId <= r'.nextId;
    forall g | g != op.fd ensures SameAt(r, r', g) { OthersUntouched(r, op, ctl, g); }
  }

  lemma ApplyKeepsWellFormed(r: Registry, op: Op, ctl: bool)
    requires WellFormed(r)
    ensures WellFormed(Apply(r, op, ctl).reg)
  {
    var r' := Apply(r, op, ctl).reg;
    ApplyKeepsIds(r, op, ctl);
    forall g ensures g in r'.suspect || Agrees(r', g) {
      assert g in r.suspect || Agrees(r, g);
      if g == op.fd {
        AgreesUnlessSuspect(r, op, ctl);
      } else {
        OthersUntouched(r, op, ctl, g);
      }
    }
  }

  lemma CloseKeepsWellFormed(r: Registry, fd: Fd)
    requires WellFormed(r)
    ensures WellFormed(Closed(r, fd))
  {
    var r' := Closed(r, fd);
    forall g ensures g in r'.suspect || Agrees(r', g) {
      assert g in r.suspect || Agrees(r, g);
    }
  }

  lemma AgreesUnlessSuspect(r: Registry, op: Op, ctl: bool)
    requires op.fd in r.suspect || Agrees(r, op.fd)
    ensures op.fd in Apply(r, op, ctl).reg.suspect || Agrees(Apply(r, op, ctl).reg, op.fd)
  {
  }

  /** A call that returns normally leaves registry and kernel in agreement about its descriptor. */
  lemma SuccessRestoresAgreement(r: Registry, op: Op, ctl: bool)
    ensures Apply(r, op, ctl).outcome.Done? ==>
              !Rejected(r, op) && Agrees(Apply(r, op, ctl).reg, op.fd) && op.fd !in Apply(r, op, ctl).reg.suspect
    ensures Rejected(r, op) ==> Apply(r, op, ctl) == Result(r, Thrown)
  {
  }

  /**
    Which calls return normally, and the callbacks they leave: what the registration function
    made of an empty record (add) or of the stored one (mod), whether or not the call then throws.
   */
  lemma ReturnsExactly(r: Registry, op: Op, ctl: bool)
    ensures var (r', done) := (Apply(r, op, ctl).reg, Apply(r, op, ctl).outcome.Done?);
            match op
            case Add(fd, reg) =>
              && (done <==> fd !in r.fds && fd !in r.interest && ctl && !LeftBy(reg, NO_CALLBACKS).throws)
              && (fd !in r.fds ==> fd in r'.fds && r'.fds[fd].cbs == LeftBy(reg, NO_CALLBACKS).cbs)
            case Mod(fd, reg) =>
              && (done <==> reg.Some? && fd in r.fds && fd in r.interest && ctl && !LeftBy(reg, r.fds[fd].cbs).throws)
              && (reg.Some? && fd in r.fds ==> fd in r'.fds && r'.fds[fd].cbs == LeftBy(reg, r.fds[fd].cbs).cbs)
            case Del(fd) => fd !in r'.fds && (done <==> fd in r.fds && fd in r.interest && ctl)
  {
  }

  /** What an accepted call that throws leaves behind; nothing is rolled back. */
  predicate Drift(r: Registry, r': Registry, op: Op) {
    match op
    case Add(fd, _) => fd in r'.fds && fd !in r'.interest
    case Mod(fd, _) => fd in r'.fds && fd in r.interest && fd in r'.interest && r'.interest[fd] == r.interest[fd]
    case Del(fd) => fd !in r'.fds && fd in r'.interest
  }

  /**
    From agreement, a throwing call leaves a registry-only entry (add), a kernel-only entry
    (del) or the old mask (mod). So it drifts exactly when it is not a mod that kept the mask.
   */
  lemma FailureDriftsExactly(r: Registry, op: Op, ctl: bool)
    requires Agrees(r, op.fd) && !Rejected(r, op)
    requires Apply(r, op, ctl).outcome.Thrown?
    ensures var r' := Apply(r, op, ctl).reg;
            && r'.interest == r.interest
            && Drift(r, r', op)
            && (Agrees(r', op.fd) <==> op.Mod? && EventMask(r'.fds[op.fd].cbs) == EventMask(r.fds[op.fd].cbs))
  {
  }

  // Runs -------------------------------------------------------------------------------------

  datatype Request = Request(op: Op, ctl: bool)

  function RunAll(r: Registry, requests: seq<Request>): Registry
    decreases |requests|
  {
    if requests == [] then r
    else RunAll(Apply(r, requests[0].op, requests[0].ctl).reg, requests[1..])
  }

  /** Whether the latest accepted call on `fd`, if any, returned normally. */
  predicate LastCompleted(r: Registry, requests: seq<Request>, fd: Fd, before: bool)
    decreases |requests|
  {
    if requests == [] then before
    else
      var op, ctl := requests[0].op, requests[0].ctl;
      var done := Apply(r, op, ctl);
      LastCompleted(done.reg, requests[1..], fd,
        if op.fd == fd && !Rejected(r, op) then done.outcome.Done? else before)
  }

  /**
    After any sequence of add, mod and del, each with any registration function and any kernel
    answer, the interest list and the registry agree on every descriptor whose latest accepted
    call returned normally.
   */
  lemma {:induction false} AgreementOverRuns(r: Registry, requests: seq<Request>, fd: Fd)
    requires WellFormed(r)
    ensures WellFormed(RunAll(r, requests))
    ensures LastCompleted(r, requests, fd, fd !in r.suspect) <==> fd !in RunAll(r, requests).suspect
    ensures LastCompleted(r, requests, fd, fd !in r.suspect) ==> Agrees(RunAll(r, requests), fd)
    decreases |requests|
  {
    if requests == [] {
    } else {
      var op, ctl := requests[0].op, requests[0].ctl;
      ApplyKeepsWellFormed(r, op, ctl);
      SuccessRestoresAgreement(r, op, ctl);
      AgreementOverRuns(Apply(r, op, ctl).reg, requests[1..], fd);
    }
  }
}
