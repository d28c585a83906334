/**
  Unique ownership of descriptors: cmn::Fd, its moves and its destructor.
 */
module Ownership {
  import opened Wrappers

  type Id = nat
  type Token = nat

  // Effects ----------------------------------------------------------------------------------

  /**
    The kernel's descriptor table. Numbers are reused; a token names one opening. `closed` lists
    the openings closed, `misses` counts closes of numbers that were not open.
   */
  datatype Table = Table(open: map<int, Token>, openings: nat, closed: seq<Token>, misses: nat)

  function Opened(t: Table, fd: int): Table {
    t.(open := t.open[fd := t.openings], openings := t.openings + 1)
  }

  function Closed(t: Table, fd: int): Table {
    if fd in t.open then t.(open := t.open - {fd}, closed := t.closed + [t.open[fd]])
    else t.(misses := t.misses + 1)
  }

  /** The destructor of an owner of `fd`. */
  function Released(t: Table, fd: int): Table {
    if fd >= 0 then Closed(t, fd) else t
  }

  /** The new owner's and the old owner's number after a move construction. */
  function Moved(fd: int): (int, int) {
    (fd, -1)
  }

  /** The target's and the source's number after a move assignment. */
  function Swapped(dst: int, src: int): (int, int) {
    (src, dst)
  }

  // Objects ----------------------------------------------------------------------------------

  class Kernel {
    var open: map<int, Token>
    var openings: nat
    var closed: seq<Token>
    var misses: nat

    ghost function Contents(): Table
      reads this
    {
      Table(open, openings, closed, misses)
    }

    constructor ()
      ensures Contents() == Table(map[], 0, [], 0)
    {
      open, openings, closed, misses := map[], 0, [], 0;
    }

    method Open(fd: int)
      modifies this
      ensures Contents() == Opened(old(Contents()), fd)
    {
      open := open[fd := openings];
      openings := openings + 1;
    }

    method Close(fd: int)
      modifies this
      ensures Contents() == Closed(old(Contents()), fd)
    {
      if fd in open {
        closed := closed + [open[fd]];
        open := open - {fd};
      } else {
        misses := misses + 1;
      }
    }
  }

  /** The owner of a descriptor; a negative number means that it owns none. */
  class Fd {
    var fd: int

    constructor (fd: int)
      ensures this.fd == fd
    {
      this.fd := fd;
    }

    /** Wraps what a system call returned; a negative result throws. */
    static method Make(fd: int) returns (made: Option<Fd>)
      ensures made.Some? <==> fd >= 0
      ensures made.Some? ==> fresh(made.value) && made.value.fd == fd
    {
      if fd < 0 {
        return None;
      }
      var owner := new Fd(fd);
      return Some(owner);
    }

    constructor MoveFrom(other: Fd)
      modifies other
      ensures (fd, other.fd) == Moved(old(other.fd))
      ensures fd == old(other.fd) && other.fd == -1
    {
      fd := other.fd;
      new;
      other.fd := -1;
    }

    /** Move assignment swaps; assigning an object to itself changes nothing. */
    method Assign(other: Fd)
      modifies this, other
      ensures (fd, other.fd) == Swapped(old(fd), old(other.fd))
      ensures fd == old(other.fd) && other.fd == old(fd)
    {
      var tmp := fd;
      fd := other.fd;
      other.fd := tmp;
    }

    /** The destructor. */
    method Destroy(kernel: Kernel)
      modifies this, kernel
      ensures fd < 0 && kernel.Contents() == Released(old(kernel.Contents()), old(fd))
      ensures kernel.open.Keys == old(kernel.open.Keys) - {old(fd)} || old(fd) < 0
      ensures old(fd) < 0 ==> kernel.Contents() == old(kernel.Contents())
    {
      if fd >= 0 {
        kernel.Close(fd);
        fd := -1;
      }
    }
  }

  // Programs ---------------------------------------------------------------------------------

  /** The objects of a program, as the numbers they own, and the kernel's table. */
  datatype World = World(owners: map<Id, int>, table: Table)

  const EMPTY := World(map[], Table(map[], 0, [], 0))

  datatype Statement =
    | MakeFrom(id: Id, fd: int)          // with what a system call just returned
    | MoveConstruct(dst: Id, src: Id)
    | MoveAssign(dst: Id, src: Id)
    | Destroy(id: Id)

  /** A system call returns an error or a number that is not in use. */
  predicate Allowed(w: World, st: Statement) {
    match st
    case MakeFrom(id, fd) => id !in w.owners && fd !in w.table.open
    case MoveConstruct(dst, src) => dst !in w.owners && src in w.owners
    case MoveAssign(dst, src) => dst in w.owners && src in w.owners
    case Destroy(id) => id in w.owners
  }

  function Execute(w: World, st: Statement): World
    requires Allowed(w, st)
  {
    match st
    case MakeFrom(id, fd) =>
      if fd < 0 then w else World(w.owners[id := fd], Opened(w.table, fd))
    case MoveConstruct(dst, src) =>
      var (d, s) := Moved(w.owners[src]);
      w.(owners := w.owners[dst := d][src := s])
    case MoveAssign(dst, src) =>
      var (d, s) := Swapped(w.owners[dst], w.owners[src]);
      w.(owners := w.owners[dst := d][src := s])
    case Destroy(id) => World(w.owners - {id}, Released(w.table, w.owners[id]))
  }

  /** The objects themselves: a program's statements are calls of their methods. */
  class Objects {
    var objs: map<Id, Fd>
    const kernel: Kernel

    /** No two names stand for the same object. */
    ghost predicate Valid()
      reads this
    {
      forall id, id' :: id in objs && id' in objs && objs[id] == objs[id'] ==> id == id'
    }

    ghost function Contents(): World
      reads this, kernel, objs.Values
    {
      World(map id | id in objs :: objs[id].fd, kernel.Contents())
    }

    constructor ()
      ensures Valid() && Contents() == EMPTY && fresh(kernel) && objs == map[]
    {
      objs := map[];
      kernel := new Kernel();
    }

    method MakeFrom(id: Id, fd: int)
      requires Valid() && Allowed(Contents(), Statement.MakeFrom(id, fd))
      modifies this, kernel, objs.Values
      ensures Valid() && fresh(objs.Values - old(objs.Values))
      ensures Contents() == Execute(old(Contents()), Statement.MakeFrom(id, fd))
    {
      if fd >= 0 {
        kernel.Open(fd);
      }
      var made := Fd.Make(fd);
      if made.Some? {
        objs := objs[id := made.value];
      }
    }

    method MoveConstruct(dst: Id, src: Id)
      requires Valid() && Allowed(Contents(), Statement.MoveConstruct(dst, src))
      modifies this, kernel, objs.Values
      ensures Valid() && fresh(objs.Values - old(objs.Values))
      ensures Contents() == Execute(old(Contents()), Statement.MoveConstruct(dst, src))
    {
      var made := new Fd.MoveFrom(objs[src]);
      objs := objs[dst := made];
    }

    method MoveAssign(dst: Id, src: Id)
      requires Valid() && Allowed(Contents(), Statement.MoveAssign(dst, src))
      modifies this, kernel, objs.Values
      ensures Valid() && fresh(objs.Values - old(objs.Values))
      ensures Contents() == Execute(old(Contents()), Statement.MoveAssign(dst, src))
    {
      objs[dst].Assign(objs[src]);
    }

    method Destroy(id: Id)
      requires Valid() && Allowed(Contents(), Statement.Destroy(id))
      modifies this, kernel, objs.Values
      ensures Valid() && fresh(objs.Values - old(objs.Values))
      ensures Contents() == Execute(old(Contents()), Statement.Destroy(id))
    {
      objs[id].Destroy(kernel);
      objs := objs - {id};
    }

    method Perform(st: Statement)
      requires Valid() && Allowed(Contents(), st)
      modifies this, kernel, objs.Values
      ensures Valid() && fresh(objs.Values - old(objs.Values))
      ensures Contents() == Execute(old(Contents()), st)
    {
      match st {
        case MakeFrom(id, fd) => MakeFrom(id, fd);
        case MoveConstruct(dst, src) => MoveConstruct(dst, src);
        case MoveAssign(dst, src) => MoveAssign(dst, src);
        case Destroy(id) => Destroy(id);
      }
    }

    method Run(program: seq<Statement>)
      requires Valid() && IsProgram(Contents(), program)
      modifies this, kernel, objs.Values
      ensures Valid() && fresh(objs.Values - old(objs.Values))
      ensures Contents() == RunProgram(old(Contents()), program)
    {
      for i := 0 to |program|
        invariant Valid() && fresh(objs.Values - old(objs.Values))
        invariant IsProgram(Contents(), program[i..])
        invariant RunProgram(Contents(), program[i..]) == RunProgram(old(Contents()), program)
      {
        assert program[i..][1..] == program[i + 1..];
        Perform(program[i]);
      }
    }
  }

  predicate Owns(w: World, id: Id, fd: int) {
    id in w.owners && w.owners[id] == fd
  }

  /** Valid owners and open descriptors correspond one to one. */
  ghost predicate UniqueOwners(w: World) {
    OwnedIsOpen(w) && OpenIsOwned(w) && NoSharing(w)
  }

  ghost predicate OwnedIsOpen(w: World) {
    w.table.misses == 0 && forall id :: id in w.owners && w.owners[id] >= 0 ==> w.owners[id] in w.table.open
  }

  ghost predicate OpenIsOwned(w: World) {
    forall fd :: fd in w.table.open ==> fd >= 0 && exists id :: Owns(w, id, fd)
  }

  ghost predicate NoSharing(w: World) {
    forall id, id' :: id in w.owners && id' in w.owners && w.owners[id] == w.owners[id'] >= 0 ==> id == id'
  }

  /** Every opening is either still open or closed once. */
  ghost predicate Accounted(t: Table) {
    && (forall fd :: fd in t.open ==> t.open[fd] < t.openings && t.open[fd] !in t.closed)
    && (forall fd, fd' :: fd in t.open && fd' in t.open && fd != fd' ==> t.open[fd] != t.open[fd'])
    && (forall i :: 0 <= i < |t.closed| ==> t.closed[i] < t.openings)
    && (forall i, j :: 0 <= i < j < |t.closed| ==> t.closed[i] != t.closed[j])
    && (forall token :: 0 <= token < t.openings ==> token in t.closed || OpenAs(t, token))
  }

  ghost predicate OpenAs(t: Table, token: Token) {
    exists fd :: fd in t.open && t.open[fd] == token
  }

  lemma StepNoSharing(w: World, st: Statement)
    requires OwnedIsOpen(w) && NoSharing(w) && Allowed(w, st)
    ensures NoSharing(Execute(w, st))
  {
  }

  lemma StepOwnedIsOpen(w: World, st: Statement)
    requires OwnedIsOpen(w) && NoSharing(w) && Allowed(w, st)
    ensures OwnedIsOpen(Execute(w, st))
  {
  }

  /** Where the owner `id` of a descriptor has gone after a statement that kept it open. */
  function NewOwner(st: Statement, id: Id): Id {
    match st
    case MoveConstruct(dst, src) => if id == src then dst else id
    case MoveAssign(dst, src) => if id == src then dst else if id == dst then src else id
    case _ => id
  }

  lemma OwnerFollows(w: World, st: Statement, id: Id, fd: int)
    requires Owns(w, id, fd) && fd >= 0 && Allowed(w, st) && st != Destroy(id)
    ensures Owns(Execute(w, st), NewOwner(st, id), fd)
  {
  }

  lemma StepOpenIsOwned(w: World, st: Statement)
    requires OpenIsOwned(w) && OwnedIsOpen(w) && Allowed(w, st)
    ensures OpenIsOwned(Execute(w, st))
  {
    var w' := Execute(w, st);
    forall fd | fd in w'.table.open ensures fd >= 0 && exists id :: Owns(w', id, fd) {
      if fd in w.table.open {
        var id :| Owns(w, id, fd);
        OwnerFollows(w, st, id, fd);
      } else {
        assert Owns(w', st.id, fd);
      }
    }
  }

  lemma StepOwners(w: World, st: Statement)
    requires UniqueOwners(w) && Allowed(w, st)
    ensures UniqueOwners(Execute(w, st))
  {
    StepNoSharing(w, st);
    StepOwnedIsOpen(w, st);
    StepOpenIsOwned(w, st);
  }

  lemma OpenedAccounted(t: Table, fd: int)
    requires Accounted(t) && fd !in t.open
    ensures Accounted(Opened(t, fd))
  {
    var t' := Opened(t, fd);
    forall token | 0 <= token < t'.openings ensures token in t'.closed || OpenAs(t', token) {
      if token == t.openings {
        assert t'.open[fd] == token;
      } else if token !in t.closed {
        var g :| g in t.open && t.open[g] == token;
        assert t'.open[g] == token;
      }
    }
  }

  lemma ClosedAccounted(t: Table, fd: int)
    requires Accounted(t)
    ensures Accounted(Closed(t, fd))
  {
    var t' := Closed(t, fd);
    forall token | 0 <= token < t'.openings ensures token in t'.closed || OpenAs(t', token) {
      if token !in t.closed {
        var g :| g in t.open && t.open[g] == token;
        if g == fd {
          assert t'.closed[|t.closed|] == token;
        } else {
          assert g in t'.open && t'.open[g] == token;
        }
      }
    }
  }

  lemma StepAccounted(w: World, st: Statement)
    requires Accounted(w.table) && Allowed(w, st)
    ensures Accounted(Execute(w, st).table)
  {
    match st {
      case MakeFrom(_, fd) => OpenedAccounted(w.table, fd);
      case Destroy(id) => ClosedAccounted(w.table, w.owners[id]);
      case _ =>
    }
  }

  predicate IsProgram(w: World, program: seq<Statement>)
    decreases |program|
  {
    program == [] || (Allowed(w, program[0]) && IsProgram(Execute(w, program[0]), program[1..]))
  }

  function RunProgram(w: World, program: seq<Statement>): World
    requires IsProgram(w, program)
    decreases |program|
  {
    if program == [] then w else RunProgram(Execute(w, program[0]), program[1..])
  }

  lemma {:induction false} ProgramKeeps(w: World, program: seq<Statement>)
    requires UniqueOwners(w) && Accounted(w.table) && IsProgram(w, program)
    ensures UniqueOwners(RunProgram(w, program)) && Accounted(RunProgram(w, program).table)
    decreases |program|
  {
    if program == [] {
    } else {
      StepOwners(w, program[0]);
      StepAccounted(w, program[0]);
      ProgramKeeps(Execute(w, program[0]), program[1..]);
    }
  }

  /**
    After any program every open descriptor has exactly one owner, no number was closed that
    was not open, and no opening was closed twice.
   */
  lemma ExactlyOneOwner(program: seq<Statement>, fd: int, token: Token)
    requires IsProgram(EMPTY, program)
    ensures var w := RunProgram(EMPTY, program);
            && w.table.misses == 0
            && (fd in w.table.open <==> fd >= 0 && exists id :: Owns(w, id, fd))
            && (forall id, id' :: Owns(w, id, fd) && Owns(w, id', fd) && fd >= 0 ==> id == id')
            && multiset(w.table.closed)[token] <= 1
  {
    ProgramKeeps(EMPTY, program);
    DistinctOnce(RunProgram(EMPTY, program).table.closed, token);
  }

  ghost predicate NothingOwned(w: World) {
    forall id :: id in w.owners ==> w.owners[id] < 0
  }

  lemma NothingOpen(w: World)
    requires OpenIsOwned(w) && NothingOwned(w)
    ensures w.table.open == map[]
  {
    forall fd ensures fd !in w.table.open {
      assert forall id :: Owns(w, id, fd) ==> fd < 0;
    }
  }

  /** Once no object owns a descriptor, every opening has been closed exactly once. */
  lemma AllClosedOnce(program: seq<Statement>, token: Token)
    requires IsProgram(EMPTY, program) && NothingOwned(RunProgram(EMPTY, program))
    ensures var w := RunProgram(EMPTY, program);
            w.table.open == map[] && multiset(w.table.closed)[token] == if token < w.table.openings then 1 else 0
  {
    var w := RunProgram(EMPTY, program);
    ProgramKeeps(EMPTY, program);
    NothingOpen(w);
    DistinctOnce(w.table.closed, token);
    assert token in multiset(w.table.closed) <==> token in w.table.closed;
  }

  lemma {:induction false} DistinctOnce(s: seq<Token>, token: Token)
    requires forall i, j :: 0 <= i < j < |s| ==> s[i] != s[j]
    ensures multiset(s)[token] <= 1
    decreases |s|
  {
    if s == [] {
    } else {
      var init, last := s[..|s| - 1], s[|s| - 1];
      assert s == init + [last];
      DistinctOnce(init, token);
      assert last !in init;
    }
  }
}
