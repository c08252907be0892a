/** The counter of the publisher's step handler: two 32-bit numbers, published as the eight bytes of
    one 64-bit value. */
module PackedCounter {

  class Counter {
    var major: bv32
    var minor: bv32

    constructor ()
      ensures major == 0 && minor == 0
    {
      major, minor := 0, 0;
    }

    method IncrementMajor()
      modifies this
      ensures major == old(major) + 1 && minor == 0
    {
      major := major + 1;
      minor := 0;
    }

    method IncrementMinor()
      modifies `minor
      ensures minor == old(minor) + 1
    {
      minor := minor + 1;
    }

    function Value(): bv64
      reads this
    {
      Packed(major, minor)
    }

    method PublishValue() returns (bytes: array<bv8>)
      ensures fresh(bytes) && bytes.Length == 8
      ensures forall k | 0 <= k < 8 :: bytes[k] == ByteOf(Value(), k)
    {
      bytes := new bv8[8];
      for i := 0 to 8
        invariant forall k | 0 <= k < i :: bytes[k] == ByteOf(Value(), k)
      {
        bytes[i] := ((Value() >> (i * 8)) & 0xFF) as bv8;
        Shifts(Value(), i);
      }
    }

    static method ExtractValue(bytes: seq<bv8>) returns (value: bv64)
      requires |bytes| == 8
      ensures forall k | 0 <= k < 8 :: ByteOf(value, k) == bytes[k]
    {
      value := 0;
      for i := 0 to 8
        invariant forall k | 0 <= k < i :: ByteOf(value, k) == bytes[k]
        invariant forall k | i <= k < 8 :: ByteOf(value, k) == 0
      {
        var placed := (bytes[i] as bv64) << (i * 8);
        PlacesByte(value, bytes[i], placed, i);
        value := value | placed;
      }
    }
  }

  function Packed(major: bv32, minor: bv32): bv64 { ((major as bv64) << 32) | (minor as bv64) }

  function ExtractMajor(value: bv64): bv32 { (value >> 32) as bv32 }

  function ExtractMinor(value: bv64): bv32 { (value & 0xFFFF_FFFF) as bv32 }

  /** Byte k of a value, the least significant one first. */
  function ByteOf(value: bv64, k: nat): bv8
    requires k < 8
  {
    var shifted :=
      match k
      case 0 => value
      case 1 => value >> 8
      case 2 => value >> 16
      case 3 => value >> 24
      case 4 => value >> 32
      case 5 => value >> 40
      case 6 => value >> 48
      case _ => value >> 56;
    (shifted & 0xFF) as bv8
  }

  lemma Shifts(value: bv64, k: nat)
    requires k < 8
    ensures ByteOf(value, k) == ((value >> (k * 8)) & 0xFF) as bv8
  {
    if k == 0 {} else if k == 1 {} else if k == 2 {} else if k == 3 {}
    else if k == 4 {} else if k == 5 {} else if k == 6 {} else {}
  }

  lemma BytesOfOr(a: bv64, b: bv64, k: nat)
    requires k < 8
    ensures ByteOf(a | b, k) == ByteOf(a, k) | ByteOf(b, k)
  {
    if k == 0 {} else if k == 1 {} else if k == 2 {} else if k == 3 {}
    else if k == 4 {} else if k == 5 {} else if k == 6 {} else {}
  }

  lemma BytesOfPlaced(byte: bv8, i: nat, k: nat)
    requires i < 8 && k < 8
    ensures ByteOf((byte as bv64) << (i * 8), k) == if k == i then byte else 0
  {
    if i == 0 {} else if i == 1 {} else if i == 2 {} else if i == 3 {}
    else if i == 4 {} else if i == 5 {} else if i == 6 {} else {}
  }

  lemma PlacesByteAt(value: bv64, byte: bv8, placed: bv64, i: nat, k: nat)
    requires i < 8 && k < 8 && ByteOf(value, i) == 0
    requires ByteOf(placed, k) == if k == i then byte else 0
    ensures ByteOf(value | placed, k) == if k == i then byte else ByteOf(value, k)
  {
    BytesOfOr(value, placed, k);
    NoBits(ByteOf(value, k), byte);
  }

  lemma NoBits(a: bv8, b: bv8)
    ensures a | 0 == a && 0 | b == b
  {}

  /** Adding a byte at place i, where the value has none, leaves the other places alone. */
  lemma PlacesByte(value: bv64, byte: bv8, placed: bv64, i: nat)
    requires i < 8 && ByteOf(value, i) == 0 && placed == (byte as bv64) << (i * 8)
    ensures forall k | 0 <= k < 8 :: ByteOf(value | placed, k) == if k == i then byte else ByteOf(value, k)
  {
    forall k | 0 <= k < 8 ensures ByteOf(value | placed, k) == if k == i then byte else ByteOf(value, k) {
      BytesOfPlaced(byte, i, k);
      PlacesByteAt(value, byte, placed, i, k);
    }
  }

  /** A value is determined by its eight bytes, so extracting what was published gives it back. */
  lemma ExtractInvertsPublish(published: bv64, bytes: seq<bv8>, extracted: bv64)
    requires |bytes| == 8
    requires forall k | 0 <= k < 8 :: bytes[k] == ByteOf(published, k)
    requires forall k | 0 <= k < 8 :: ByteOf(extracted, k) == bytes[k]
    ensures extracted == published
  {
    assert ByteOf(extracted, 0) == ByteOf(published, 0) && ByteOf(extracted, 1) == ByteOf(published, 1);
    assert ByteOf(extracted, 2) == ByteOf(published, 2) && ByteOf(extracted, 3) == ByteOf(published, 3);
    assert ByteOf(extracted, 4) == ByteOf(published, 4) && ByteOf(extracted, 5) == ByteOf(published, 5);
    assert ByteOf(extracted, 6) == ByteOf(published, 6) && ByteOf(extracted, 7) == ByteOf(published, 7);
  }

  /** Packing loses nothing, in either direction. */
  lemma PackingIsInvertible(major: bv32, minor: bv32, value: bv64)
    ensures ExtractMajor(Packed(major, minor)) == major && ExtractMinor(Packed(major, minor)) == minor
    ensures Packed(ExtractMajor(value), ExtractMinor(value)) == value
  {}

  lemma MajorDecides(a: bv32, b: bv32, c: bv32, d: bv32)
    requires a < c
    ensures Packed(a, b) < Packed(c, d)
  {}

  lemma MinorDecides(a: bv32, b: bv32, c: bv32, d: bv32)
    requires a <= c && b < d
    ensures Packed(a, b) < Packed(c, d)
  {}

  lemma NeitherDecides(a: bv32, b: bv32, c: bv32, d: bv32)
    requires c <= a && d <= b
    ensures Packed(c, d) <= Packed(a, b)
  {}

  lemma MajorFollows(a: bv32, b: bv32, c: bv32, d: bv32)
    requires Packed(a, b) < Packed(c, d)
    ensures a <= c
  {}

  /** Comparing packed values compares the major numbers first, and the minor ones where those agree. */
  lemma PackingOrders(a: bv32, b: bv32, c: bv32, d: bv32)
    ensures Packed(a, b) < Packed(c, d) <==> a < c || (a <= c && b < d)
  {
    if a < c {
      MajorDecides(a, b, c, d);
    } else if a <= c && b < d {
      MinorDecides(a, b, c, d);
    } else if Packed(a, b) < Packed(c, d) {
      MajorFollows(a, b, c, d);
      NeitherDecides(a, b, c, d);
    }
  }
}
