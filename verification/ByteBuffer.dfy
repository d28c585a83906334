/**
  A typed cursor over bytes.

  The remaining-space check is the source's: an unsigned subtraction of machine words, which
  wraps around below zero.
 */
module ByteBuffer {
  import opened Wrappers
  import opened Endian

  const WORD: nat := 0x1_0000_0000_0000_0000

  function WordSub(a: nat, b: nat): nat
    requires a < WORD && b < WORD
  {
    if b <= a then a - b else a - b + WORD
  }

  /** What the check accepts: size - position, in word arithmetic, is not below n. */
  predicate HasRemaining(size: nat, pos: nat, n: nat)
    requires size < WORD && pos < WORD
  {
    !(WordSub(size, pos) < n)
  }

  /**
    The wrapping check means "position + n fits" for every request exactly when the position is
    within the buffer.
   */
  lemma CheckIsExactIff(size: nat, pos: nat)
    requires size < WORD && pos < WORD
    ensures (forall n: nat :: n < WORD ==> (HasRemaining(size, pos, n) <==> pos + n <= size)) <==> pos <= size
  {
    if size < pos {
      assert HasRemaining(size, pos, 0) && !(pos + 0 <= size);
    }
  }

  // Calls on values --------------------------------------------------------------------------

  /** The bytes of a buffer and the position in them. */
  datatype Cursor = Cursor(bytes: seq<Byte>, pos: nat)

  datatype Call =
    | SetPosition(position: nat)
    | Get(t: IntType)
    | GetDataPtr(length: nat)
    | Set(t: IntType, value: int)

  datatype Reply = Value(value: int) | Offset(offset: nat) | Nothing | Overflow

  predicate Fits(c: Cursor, n: nat) {
    c.pos + n <= |c.bytes|
  }

  predicate WellTyped(call: Call) {
    call.Set? ==> InRange(call.t, call.value)
  }

  function Overwrite(bytes: seq<Byte>, at: nat, part: seq<Byte>): (r: seq<Byte>)
    requires at + |part| <= |bytes|
    ensures |r| == |bytes|
  {
    bytes[..at] + part + bytes[at + |part|..]
  }

  /** How many bytes a call asks the check for. */
  function Length(call: Call): nat {
    match call
    case SetPosition(_) => 0
    case Get(t) => t.width
    case GetDataPtr(n) => n
    case Set(t, _) => t.width
  }

  /** An accepted call for bytes at the position. */
  function Access(native: Endianness, endian: Endianness, c: Cursor, call: Call): (Cursor, Reply)
    requires WellTyped(call) && !call.SetPosition? && Fits(c, Length(call))
  {
    match call
    case GetDataPtr(n) => (c.(pos := c.pos + n), Offset(c.pos))
    case Get(t) =>
      (c.(pos := c.pos + t.width), Value(ConvertLoad(native, endian, t, c.bytes[c.pos..c.pos + t.width])))
    case Set(t, v) =>
      (Cursor(Overwrite(c.bytes, c.pos, ConvertStore(native, endian, t, v)), c.pos + t.width), Nothing)
  }

  /** What a call promises: it takes effect if it fits, and else is rejected without a trace. */
  function Perform(native: Endianness, endian: Endianness, c: Cursor, call: Call): (Cursor, Reply)
    requires WellTyped(call)
  {
    if call.SetPosition? then
      if call.position > |c.bytes| then (c, Overflow) else (c.(pos := call.position), Nothing)
    else if Fits(c, Length(call)) then Access(native, endian, c, call)
    else (c, Overflow)
  }

  /** The bytes are the base-256 digits of the value, in the order of the buffer's endianness. */
  predicate Holds(bytes: seq<Byte>, endian: Endianness, t: IntType, reply: Reply) {
    && |bytes| == t.width && reply.Value? && InRange(t, reply.value)
    && forall i :: 0 <= i < |bytes| ==>
         bytes[i] == DigitAt(ToUnsigned(t, reply.value), if endian.Big? then t.width - 1 - i else i)
  }

  lemma StoredHolds(native: Endianness, endian: Endianness, t: IntType, v: int)
    requires InRange(t, v)
    ensures Holds(ConvertStore(native, endian, t, v), endian, t, Value(v))
  {
    forall i | 0 <= i < t.width
      ensures ConvertStore(native, endian, t, v)[i]
           == DigitAt(ToUnsigned(t, v), if endian.Big? then t.width - 1 - i else i)
    {
      StoreIsPositional(native, endian, t, v, i);
    }
  }

  lemma LoadedHolds(native: Endianness, endian: Endianness, t: IntType, bytes: seq<Byte>)
    requires |bytes| == t.width
    ensures Holds(bytes, endian, t, Value(ConvertLoad(native, endian, t, bytes)))
  {
    LoadThenStore(native, endian, t, bytes);
    StoredHolds(native, endian, t, ConvertLoad(native, endian, t, bytes));
  }

  // The object -------------------------------------------------------------------------------

  class ByteBuffer {
    const native: Endianness
    const endian: Endianness
    const readOnly: bool
    const data: array<Byte>
    const size: nat
    var pos: nat

    ghost predicate Valid()
      reads this
    {
      size == data.Length < WORD && pos <= size
    }

    ghost function Contents(): Cursor
      reads this, data
    {
      Cursor(data[..], pos)
    }

    constructor (native: Endianness, endian: Endianness, readOnly: bool, data: array<Byte>)
      requires data.Length < WORD
      ensures Valid() && pos == 0
      ensures this.native == native && this.endian == endian && this.readOnly == readOnly && this.data == data
    {
      this.native := native;
      this.endian := endian;
      this.readOnly := readOnly;
      this.data := data;
      this.size := data.Length;
      this.pos := 0;
    }

    method MoveTo(position: nat) returns (reply: Reply)
      requires Valid()
      modifies this
      ensures Valid() && (Contents(), reply) == Perform(native, endian, old(Contents()), SetPosition(position))
      ensures reply == (if position <= size then Nothing else Overflow)
      ensures pos == if position <= size then position else old(pos)
    {
      if position > size {
        return Overflow;
      }
      pos := position;
      return Nothing;
    }

    /** The position before the advance, or an overflow. */
    method IncreasePos(n: nat) returns (reply: Reply)
      requires Valid() && n < WORD
      modifies this
      ensures Valid()
      ensures reply == if Fits(old(Contents()), n) then Offset(old(pos)) else Overflow
      ensures pos == if reply.Overflow? then old(pos) else old(pos) + n
    {
      if !HasRemaining(size, pos, n) {
        return Overflow;
      }
      reply := Offset(pos);
      pos := pos + n;
    }

    method DataPtr(length: nat) returns (reply: Reply)
      requires Valid() && length < WORD
      modifies this
      ensures Valid() && (Contents(), reply) == Perform(native, endian, old(Contents()), GetDataPtr(length))
      ensures reply == if old(pos) + length <= size then Offset(old(pos)) else Overflow
      ensures pos == old(pos) + if reply.Overflow? then 0 else length
    {
      reply := IncreasePos(length);
    }

    method Read(t: IntType) returns (reply: Reply)
      requires Valid() && t.width < WORD
      modifies this
      ensures Valid() && (Contents(), reply) == Perform(native, endian, old(Contents()), Get(t))
      ensures reply.Overflow? <==> old(pos) + t.width > size
      ensures !reply.Overflow? ==> pos == old(pos) + t.width && Holds(data[old(pos)..pos], endian, t, reply)
    {
      var p := IncreasePos(t.width);
      if p.Overflow? {
        return Overflow;
      }
      var dst := new Byte[t.width];
      Copy(DirectionFor(native, endian), dst, 0, data[p.offset..p.offset + t.width]);
      assert dst[..] == Directed(DirectionFor(native, endian), old(Contents()).bytes[p.offset..p.offset + t.width]);
      reply := Value(ObjectValue(native, t, dst[..]));
      LoadedHolds(native, endian, t, data[p.offset..p.offset + t.width]);
    }

    method Write(t: IntType, value: int) returns (reply: Reply)
      requires Valid() && t.width < WORD && !readOnly && InRange(t, value)
      modifies this, data
      ensures Valid() && (Contents(), reply) == Perform(native, endian, old(Contents()), Set(t, value))
      ensures reply.Overflow? <==> old(pos) + t.width > size
      ensures !reply.Overflow? ==> pos == old(pos) + t.width && Holds(data[old(pos)..pos], endian, t, Value(value))
    {
      var p := IncreasePos(t.width);
      if p.Overflow? {
        return Overflow;
      }
      Copy(DirectionFor(native, endian), data, p.offset, ObjectBytes(native, t, value));
      assert data[p.offset..pos] == ConvertStore(native, endian, t, value);
      StoredHolds(native, endian, t, value);
      reply := Nothing;
    }
  }

  // Runs -------------------------------------------------------------------------------------

  /**
    A call as the source decides it, by the wrapping check. One that the check accepts although
    it does not fit is `None`: it touches memory outside the buffer.
   */
  function Checked(native: Endianness, endian: Endianness, c: Cursor, call: Call): (r: Option<(Cursor, Reply)>)
    requires WellTyped(call) && |c.bytes| < WORD && c.pos < WORD
    ensures r.Some? ==> r.value.0.pos < WORD && |r.value.0.bytes| == |c.bytes|
  {
    if call.SetPosition? then
      Some(if call.position > |c.bytes| then (c, Overflow) else (c.(pos := call.position), Nothing))
    else if !HasRemaining(|c.bytes|, c.pos, Length(call)) then Some((c, Overflow))
    else if Fits(c, Length(call)) then Some(Access(native, endian, c, call))
    else None
  }

  predicate WordCalls(calls: seq<Call>) {
    forall call :: call in calls ==> WellTyped(call) && Length(call) < WORD
  }

  /** A run of calls and their replies, if no call leaves the buffer. */
  function RunChecked(native: Endianness, endian: Endianness, c: Cursor, calls: seq<Call>)
    : Option<(Cursor, seq<Reply>)>
    requires WordCalls(calls) && |c.bytes| < WORD && c.pos < WORD
    decreases |calls|
  {
    if calls == [] then Some((c, []))
    else
      assert calls[0] in calls;
      var first := Checked(native, endian, c, calls[0]);
      if first.None? then None
      else
        var rest := RunChecked(native, endian, first.value.0, calls[1..]);
        if rest.None? then None else Some((rest.value.0, [first.value.1] + rest.value.1))
  }

  function RunAll(native: Endianness, endian: Endianness, c: Cursor, calls: seq<Call>): (Cursor, seq<Reply>)
    requires WordCalls(calls)
    decreases |calls|
  {
    if calls == [] then (c, [])
    else
      assert calls[0] in calls;
      var (c1, reply) := Perform(native, endian, c, calls[0]);
      var (c2, replies) := RunAll(native, endian, c1, calls[1..]);
      (c2, [reply] + replies)
  }

  predicate Inside(c: Cursor) {
    c.pos <= |c.bytes| < WORD
  }

  /** With the position inside, the wrapping check decides as if numbers were unbounded. */
  lemma CheckedCallIsExact(native: Endianness, endian: Endianness, c: Cursor, call: Call)
    requires WellTyped(call) && Length(call) < WORD && Inside(c)
    ensures Checked(native, endian, c, call) == Some(Perform(native, endian, c, call))
    ensures Inside(Perform(native, endian, c, call).0) && |Perform(native, endian, c, call).0.bytes| == |c.bytes|
  {
    CheckIsExactIff(|c.bytes|, c.pos);
  }

  /**
    From construction on, through any calls, the wrapping check never lets an access leave the
    buffer and never rejects one that fits: the run is that of unbounded numbers, and the
    position stays inside.
   */
  lemma {:induction false} CheckedRunIsExact(
    native: Endianness, endian: Endianness, c: Cursor, calls: seq<Call>)
    requires WordCalls(calls) && Inside(c)
    ensures RunChecked(native, endian, c, calls) == Some(RunAll(native, endian, c, calls))
    ensures Inside(RunAll(native, endian, c, calls).0)
    decreases |calls|
  {
    if calls == [] {
    } else {
      assert calls[0] in calls;
      CheckedCallIsExact(native, endian, c, calls[0]);
      CheckedRunIsExact(native, endian, Perform(native, endian, c, calls[0]).0, calls[1..]);
    }
  }

  // Field lists ------------------------------------------------------------------------------

  datatype Field = Field(t: IntType, value: int)

  predicate FieldsOk(fields: seq<Field>) {
    fields == [] || (InRange(fields[0].t, fields[0].value) && FieldsOk(fields[1..]))
  }

  function TotalWidth(fields: seq<Field>): nat {
    if fields == [] then 0 else fields[0].t.width + TotalWidth(fields[1..])
  }

  /** A run of set. */
  function WriteFields(native: Endianness, endian: Endianness, c: Cursor, fields: seq<Field>): Cursor
    requires FieldsOk(fields)
    decreases |fields|
  {
    if fields == [] then c
    else WriteFields(native, endian, Perform(native, endian, c, Set(fields[0].t, fields[0].value)).0, fields[1..])
  }

  /** The matching run of get. */
  function ReadFields(native: Endianness, endian: Endianness, c: Cursor, fields: seq<Field>): (Cursor, seq<Reply>)
    decreases |fields|
  {
    if fields == [] then (c, [])
    else
      var (c1, reply) := Perform(native, endian, c, Get(fields[0].t));
      var (c2, replies) := ReadFields(native, endian, c1, fields[1..]);
      (c2, [reply] + replies)
  }

  function Values(fields: seq<Field>): seq<Reply> {
    seq(|fields|, i requires 0 <= i < |fields| => Value(fields[i].value))
  }

  /** Outside the range from `lo` to `hi` the bytes are the same. */
  predicate SameOutside(a: seq<Byte>, b: seq<Byte>, lo: nat, hi: nat) {
    |a| == |b| && lo <= hi <= |a| && a[..lo] == b[..lo] && a[hi..] == b[hi..]
  }

  lemma SameOutsideBoth(a: seq<Byte>, b: seq<Byte>, c: seq<Byte>, lo: nat, mid: nat, hi: nat)
    requires SameOutside(a, b, lo, mid) && SameOutside(b, c, mid, hi)
    ensures SameOutside(a, c, lo, hi)
  {
    assert c[..lo] == c[..mid][..lo] == b[..mid][..lo] == b[..lo];
    assert a[hi..] == a[mid..][hi - mid..] == b[mid..][hi - mid..] == b[hi..];
  }

  lemma SetStores(writer: Endianness, endian: Endianness, c: Cursor, t: IntType, v: int)
    requires InRange(t, v) && Fits(c, t.width)
    ensures var c1 := Perform(writer, endian, c, Set(t, v)).0;
            && c1.pos == c.pos + t.width && SameOutside(c.bytes, c1.bytes, c.pos, c1.pos)
            && c1.bytes[c.pos..c1.pos] == ConvertStore(writer, endian, t, v)
  {
  }

  /** Nothing but the written range changes. */
  lemma {:induction false} WriteFieldsFrame(native: Endianness, endian: Endianness, c: Cursor, fields: seq<Field>)
    requires FieldsOk(fields) && Fits(c, TotalWidth(fields))
    ensures var c' := WriteFields(native, endian, c, fields);
            c'.pos == c.pos + TotalWidth(fields) && SameOutside(c.bytes, c'.bytes, c.pos, c'.pos)
    decreases |fields|
  {
    if fields == [] {
    } else {
      var c1 := Perform(native, endian, c, Set(fields[0].t, fields[0].value)).0;
      var c' := WriteFields(native, endian, c1, fields[1..]);
      SetStores(native, endian, c, fields[0].t, fields[0].value);
      WriteFieldsFrame(native, endian, c1, fields[1..]);
      SameOutsideBoth(c.bytes, c1.bytes, c'.bytes, c.pos, c1.pos, c'.pos);
    }
  }

  /** What one machine has set at the position another gets. */
  lemma GetsWhatIsSet(
    writer: Endianness, reader: Endianness, endian: Endianness, c: Cursor, t: IntType, v: int)
    requires InRange(t, v) && Fits(c, t.width)
    requires c.bytes[c.pos..c.pos + t.width] == ConvertStore(writer, endian, t, v)
    ensures Perform(reader, endian, c, Get(t)) == (c.(pos := c.pos + t.width), Value(v))
  {
    StoreIsPortable(writer, reader, endian, t, v);
  }

  lemma SliceBefore(a: seq<Byte>, b: seq<Byte>, at: nat, lo: nat, hi: nat)
    requires SameOutside(a, b, lo, hi) && at <= lo
    ensures a[at..lo] == b[at..lo]
  {
    assert a[at..lo] == a[..lo][at..] == b[..lo][at..] == b[at..lo];
  }

  /** What is set can be read back at its place after any writes behind it. */
  lemma SetReadsBack(
    writer: Endianness, reader: Endianness, endian: Endianness, c: Cursor, t: IntType, v: int, c': Cursor)
    requires InRange(t, v) && Fits(c, t.width)
    requires var c1 := Perform(writer, endian, c, Set(t, v)).0; SameOutside(c1.bytes, c'.bytes, c1.pos, c'.pos)
    ensures Perform(reader, endian, c'.(pos := c.pos), Get(t)) == (c'.(pos := c.pos + t.width), Value(v))
  {
    var c1 := Perform(writer, endian, c, Set(t, v)).0;
    SetStores(writer, endian, c, t, v);
    SliceBefore(c1.bytes, c'.bytes, c.pos, c1.pos, c'.pos);
    GetsWhatIsSet(writer, reader, endian, c'.(pos := c.pos), t, v);
  }

  /** Read back from where they were written, the fields are as they were. */
  predicate ReadsBack(reader: Endianness, endian: Endianness, pos: nat, c': Cursor, fields: seq<Field>) {
    ReadFields(reader, endian, c'.(pos := pos), fields) == (c', Values(fields))
  }

  lemma ReadOneMore(reader: Endianness, endian: Endianness, c: Cursor, fields: seq<Field>, c1: Cursor, c2: Cursor)
    requires fields != [] && Perform(reader, endian, c, Get(fields[0].t)) == (c1, Value(fields[0].value))
    requires c1 == c2.(pos := c1.pos) && ReadsBack(reader, endian, c1.pos, c2, fields[1..])
    requires c == c2.(pos := c.pos)
    ensures ReadsBack(reader, endian, c.pos, c2, fields)
  {
    assert Values(fields) == [Value(fields[0].value)] + Values(fields[1..]);
  }

  /** The cursor once the first field has been written, and what is left to do from there. */
  lemma WriteOneMore(writer: Endianness, endian: Endianness, c: Cursor, fields: seq<Field>) returns (c1: Cursor)
    requires FieldsOk(fields) && Fits(c, TotalWidth(fields)) && fields != []
    ensures c1 == Perform(writer, endian, c, Set(fields[0].t, fields[0].value)).0
    ensures c1.pos == c.pos + fields[0].t.width
    ensures FieldsOk(fields[1..]) && Fits(c1, TotalWidth(fields[1..]))
    ensures WriteFields(writer, endian, c, fields) == WriteFields(writer, endian, c1, fields[1..])
  {
    c1 := Perform(writer, endian, c, Set(fields[0].t, fields[0].value)).0;
  }

  /**
    Any list of fields that fits, written, rewound and read back, possibly on a machine of the
    other endianness, comes back as it was and leaves the position where the writes left it.
   */
  lemma {:induction false} FieldsRoundTrip(
    writer: Endianness, reader: Endianness, endian: Endianness, c: Cursor, fields: seq<Field>)
    requires FieldsOk(fields) && Fits(c, TotalWidth(fields))
    ensures ReadsBack(reader, endian, c.pos, WriteFields(writer, endian, c, fields), fields)
    decreases |fields|
  {
    if fields == [] {
      assert Values(fields) == [];
    } else {
      var c1 := WriteOneMore(writer, endian, c, fields);
      var c' := WriteFields(writer, endian, c, fields);
      WriteFieldsFrame(writer, endian, c1, fields[1..]);
      SetReadsBack(writer, reader, endian, c, fields[0].t, fields[0].value, c');
      FieldsRoundTrip(writer, reader, endian, c1, fields[1..]);
      ReadOneMore(reader, endian, c'.(pos := c.pos), fields, c'.(pos := c1.pos), c');
    }
  }
}
