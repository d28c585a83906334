/**
  Endianness conversion in its two forms: byte swapping of values, and forward or reverse
  copying of object representations.
 */
module Endian {
  type Byte = b: nat | b < 256

  datatype Endianness = Little | Big

  datatype Direction = Forward | Reverse

  function DirectionFor(native: Endianness, endian: Endianness): Direction {
    if native == endian then Forward else Reverse
  }

  /** An integral type: sizeof in bytes, and signedness. */
  datatype IntType = IntType(width: nat, signed: bool)

  function Pow256(w: nat): nat
    ensures Pow256(w) > 0
  {
    if w == 0 then 1 else 256 * Pow256(w - 1)
  }

  predicate InRange(t: IntType, v: int) {
    if t.signed then 0 <= 2 * v + Pow256(t.width) < 2 * Pow256(t.width) else 0 <= v < Pow256(t.width)
  }

  /** Two's complement. */
  function ToUnsigned(t: IntType, v: int): (u: nat)
    requires InRange(t, v)
    ensures u < Pow256(t.width)
  {
    if v < 0 then v + Pow256(t.width) else v
  }

  function FromUnsigned(t: IntType, u: nat): (v: int)
    requires u < Pow256(t.width)
    ensures InRange(t, v) && ToUnsigned(t, v) == u
  {
    if t.signed && 2 * u >= Pow256(t.width) then u - Pow256(t.width) else u
  }

  lemma UnsignedRoundTrip(t: IntType, v: int)
    requires InRange(t, v)
    ensures FromUnsigned(t, ToUnsigned(t, v)) == v
  {
  }

  // Object representations -------------------------------------------------------------------

  /** The base-256 digits of `u`, least significant first. */
  function Digits(w: nat, u: nat): (s: seq<Byte>)
    ensures |s| == w
  {
    if w == 0 then [] else [u % 256] + Digits(w - 1, u / 256)
  }

  function FromDigits(s: seq<Byte>): (u: nat)
    ensures u < Pow256(|s|)
  {
    if s == [] then 0 else s[0] + 256 * FromDigits(s[1..])
  }

  function Reversed(s: seq<Byte>): (r: seq<Byte>)
    ensures |r| == |s|
  {
    if s == [] then [] else Reversed(s[1..]) + [s[0]]
  }

  function Directed(dir: Direction, s: seq<Byte>): (r: seq<Byte>)
    ensures |r| == |s|
  {
    if dir.Forward? then s else Reversed(s)
  }

  /** The bytes of an object of type `t` with value `v` in the memory of a machine. */
  function ObjectBytes(native: Endianness, t: IntType, v: int): (s: seq<Byte>)
    requires InRange(t, v)
    ensures |s| == t.width
  {
    Directed(DirectionFor(native, Little), Digits(t.width, ToUnsigned(t, v)))
  }

  function ObjectValue(native: Endianness, t: IntType, s: seq<Byte>): (v: int)
    requires |s| == t.width
    ensures InRange(t, v)
  {
    FromUnsigned(t, FromDigits(Directed(DirectionFor(native, Little), s)))
  }

  // The three forms of convert ---------------------------------------------------------------

  /** std::byteswap on the unsigned value: the lowest byte becomes the highest. */
  function ByteSwap(w: nat, u: nat): nat {
    if w == 0 then 0 else (u % 256) * Pow256(w - 1) + ByteSwap(w - 1, u / 256)
  }

  function ConvertValue(native: Endianness, endian: Endianness, t: IntType, v: int): int
    requires InRange(t, v)
  {
    if endian == native then v
    else
      ByteSwapIsReversal(t.width, ToUnsigned(t, v));
      FromUnsigned(t, ByteSwap(t.width, ToUnsigned(t, v)))
  }

  function ConvertStore(native: Endianness, endian: Endianness, t: IntType, v: int): (s: seq<Byte>)
    requires InRange(t, v)
    ensures |s| == t.width
  {
    Directed(DirectionFor(native, endian), ObjectBytes(native, t, v))
  }

  function ConvertLoad(native: Endianness, endian: Endianness, t: IntType, s: seq<Byte>): int
    requires |s| == t.width
  {
    ObjectValue(native, t, Directed(DirectionFor(native, endian), s))
  }

  /** memcpy or std::reverse_copy into the bytes of `dst` from `at` on. */
  method Copy(dir: Direction, dst: array<Byte>, at: nat, src: seq<Byte>)
    requires at + |src| <= dst.Length
    modifies dst
    ensures dst[..] == old(dst[..at]) + Directed(dir, src) + old(dst[at + |src|..])
  {
    if dir.Forward? {
      forall i | 0 <= i < |src| {
        dst[at + i] := src[i];
      }
    } else {
      forall i | 0 <= i < |src| {
        dst[at + i] := src[|src| - 1 - i];
      }
      forall i | 0 <= i < |src| ensures dst[at + i] == Reversed(src)[i] {
        ReversedAt(src, i);
      }
    }
  }

  // Facts about digits -----------------------------------------------------------------------

  lemma {:induction false} DigitsOfFromDigits(s: seq<Byte>)
    ensures Digits(|s|, FromDigits(s)) == s
  {
    if s == [] {
    } else {
      DigitsOfFromDigits(s[1..]);
      var u := FromDigits(s);
      assert u % 256 == s[0] && u / 256 == FromDigits(s[1..]);
    }
  }

  lemma {:induction false} FromDigitsOfDigits(w: nat, u: nat)
    requires u < Pow256(w)
    ensures FromDigits(Digits(w, u)) == u
  {
    if w == 0 {
    } else {
      FromDigitsOfDigits(w - 1, u / 256);
      assert Digits(w, u)[1..] == Digits(w - 1, u / 256);
    }
  }

  lemma {:induction false} ReversedAt(s: seq<Byte>, i: nat)
    requires i < |s|
    ensures Reversed(s)[i] == s[|s| - 1 - i]
  {
    if i == |s| - 1 {
    } else {
      ReversedAt(s[1..], i);
    }
  }

  lemma ReversedTwice(s: seq<Byte>)
    ensures Reversed(Reversed(s)) == s
  {
    forall i | 0 <= i < |s| ensures Reversed(Reversed(s))[i] == s[i] {
      ReversedAt(Reversed(s), i);
      ReversedAt(s, |s| - 1 - i);
    }
  }

  lemma DirectedTwice(dir: Direction, s: seq<Byte>)
    ensures Directed(dir, Directed(dir, s)) == s
  {
    ReversedTwice(s);
  }

  lemma {:induction false} FromDigitsAppend(s: seq<Byte>, b: Byte)
    ensures FromDigits(s + [b]) == FromDigits(s) + b * Pow256(|s|)
  {
    if s == [] {
      assert [b][1..] == [];
    } else {
      FromDigitsAppend(s[1..], b);
      assert (s + [b])[1..] == s[1..] + [b];
      var p := Pow256(|s| - 1);
      assert 256 * (b * p) == b * (256 * p);
    }
  }

  /** Swapping the bytes of a value reverses its digits. */
  lemma {:induction false} ByteSwapIsReversal(w: nat, u: nat)
    ensures ByteSwap(w, u) == FromDigits(Reversed(Digits(w, u)))
    ensures ByteSwap(w, u) < Pow256(w)
  {
    if w == 0 {
    } else {
      var rest := Digits(w - 1, u / 256);
      ByteSwapIsReversal(w - 1, u / 256);
      assert Reversed([u % 256] + rest) == Reversed(rest) + [u % 256];
      FromDigitsAppend(Reversed(rest), u % 256);
    }
  }

  // Main results -----------------------------------------------------------------------------

  /** The value form and the memory form of convert compute the same thing. */
  lemma ValueFormAgreesWithMemoryForm(native: Endianness, endian: Endianness, t: IntType, v: int)
    requires InRange(t, v)
    ensures ConvertLoad(native, endian, t, ObjectBytes(native, t, v)) == ConvertValue(native, endian, t, v)
  {
    var u := ToUnsigned(t, v);
    var digits := Digits(t.width, u);
    FromDigitsOfDigits(t.width, u);
    UnsignedRoundTrip(t, v);
    ByteSwapIsReversal(t.width, u);
    ReversedTwice(digits);
  }

  lemma ObjectRoundTrip(native: Endianness, t: IntType, v: int)
    requires InRange(t, v)
    ensures ObjectValue(native, t, ObjectBytes(native, t, v)) == v
  {
    DirectedTwice(DirectionFor(native, Little), Digits(t.width, ToUnsigned(t, v)));
    FromDigitsOfDigits(t.width, ToUnsigned(t, v));
    UnsignedRoundTrip(t, v);
  }

  lemma ObjectBytesOfValue(native: Endianness, t: IntType, s: seq<Byte>)
    requires |s| == t.width
    ensures ObjectBytes(native, t, ObjectValue(native, t, s)) == s
  {
    var dir := DirectionFor(native, Little);
    DigitsOfFromDigits(Directed(dir, s));
    DirectedTwice(dir, s);
  }

  /** Storing and loading with the same pair of endiannesses are inverse to each other. */
  lemma StoreThenLoad(native: Endianness, endian: Endianness, t: IntType, v: int)
    requires InRange(t, v)
    ensures ConvertLoad(native, endian, t, ConvertStore(native, endian, t, v)) == v
  {
    DirectedTwice(DirectionFor(native, endian), ObjectBytes(native, t, v));
    ObjectRoundTrip(native, t, v);
  }

  lemma LoadThenStore(native: Endianness, endian: Endianness, t: IntType, s: seq<Byte>)
    requires |s| == t.width
    ensures InRange(t, ConvertLoad(native, endian, t, s))
    ensures ConvertStore(native, endian, t, ConvertLoad(native, endian, t, s)) == s
  {
    var dir := DirectionFor(native, endian);
    ObjectBytesOfValue(native, t, Directed(dir, s));
    DirectedTwice(dir, s);
  }

  /** The bytes stored are those of the converted value. */
  lemma StoreIsConvertedObject(native: Endianness, endian: Endianness, t: IntType, v: int)
    requires InRange(t, v)
    ensures InRange(t, ConvertValue(native, endian, t, v))
    ensures ConvertStore(native, endian, t, v) == ObjectBytes(native, t, ConvertValue(native, endian, t, v))
  {
    ValueFormAgreesWithMemoryForm(native, endian, t, v);
    ObjectBytesOfValue(native, t, ConvertStore(native, endian, t, v));
  }

  /** Converting twice gives the value back. */
  lemma ConvertTwice(native: Endianness, endian: Endianness, t: IntType, v: int)
    requires InRange(t, v)
    ensures InRange(t, ConvertValue(native, endian, t, v))
    ensures ConvertValue(native, endian, t, ConvertValue(native, endian, t, v)) == v
  {
    var c := ConvertValue(native, endian, t, v);
    StoreIsConvertedObject(native, endian, t, v);
    ValueFormAgreesWithMemoryForm(native, endian, t, c);
    StoreThenLoad(native, endian, t, v);
  }

  function DigitAt(u: nat, i: nat): nat {
    u / Pow256(i) % 256
  }

  lemma {:induction false} DigitsArePositional(w: nat, u: nat, i: nat)
    requires i < w
    ensures Digits(w, u)[i] == DigitAt(u, i)
  {
    if i == 0 {
    } else {
      DigitsArePositional(w - 1, u / 256, i - 1);
      DivDiv(u, Pow256(i - 1));
    }
  }

  lemma DivDiv(u: nat, p: nat)
    requires p > 0
    ensures u / 256 / p == u / (256 * p)
  {
    var q, r := u / 256, u % 256;
    var a, b := q / p, q % p;
    assert q == p * a + b;
    assert 256 * (p * a) == (256 * p) * a;
    assert u == (256 * p) * a + (256 * b + r);
    QuotientIsUnique(256 * p, a, 256 * b + r);
  }

  lemma QuotientIsUnique(d: nat, q: nat, r: nat)
    requires r < d
    ensures (d * q + r) / d == q
  {
    var u := d * q + r;
    var q', r' := u / d, u % d;
    assert u == d * q' + r' && 0 <= r' < d;
    if q < q' {
      Multiples(d, q + 1, q');
    } else if q' < q {
      Multiples(d, q' + 1, q);
    }
  }

  lemma Multiples(d: nat, q: nat, q': nat)
    requires q <= q'
    ensures d * q <= d * q' && d * (q + 1) == d * q + d
  {
  }

  lemma StoredDigits(native: Endianness, endian: Endianness, t: IntType, v: int)
    requires InRange(t, v)
    ensures ConvertStore(native, endian, t, v)
         == Directed(if endian.Big? then Reverse else Forward, Digits(t.width, ToUnsigned(t, v)))
  {
    ReversedTwice(Digits(t.width, ToUnsigned(t, v)));
  }

  /**
    The bytes stored are the base-256 digits of the value, most significant first for big
    endian and last for little endian, whatever the machine.
   */
  lemma StoreIsPositional(native: Endianness, endian: Endianness, t: IntType, v: int, i: nat)
    requires InRange(t, v) && i < t.width
    ensures ConvertStore(native, endian, t, v)[i]
         == DigitAt(ToUnsigned(t, v), if endian.Big? then t.width - 1 - i else i)
  {
    StoredDigits(native, endian, t, v);
    ReversedAt(Digits(t.width, ToUnsigned(t, v)), i);
    DigitsArePositional(t.width, ToUnsigned(t, v), if endian.Big? then t.width - 1 - i else i);
  }

  /** Hence what one machine stores, any other machine stores and loads alike. */
  lemma StoreIsPortable(native: Endianness, native': Endianness, endian: Endianness, t: IntType, v: int)
    requires InRange(t, v)
    ensures ConvertStore(native, endian, t, v) == ConvertStore(native', endian, t, v)
    ensures ConvertLoad(native', endian, t, ConvertStore(native, endian, t, v)) == v
  {
    StoredDigits(native, endian, t, v);
    StoredDigits(native', endian, t, v);
    StoreThenLoad(native', endian, t, v);
  }
}
