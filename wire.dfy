/**
  Fixed-width integers and the rune codec shared by both metadata revisions.

  A byte is an integer in [0, 256); `u16`/`u32` are the unsigned Go types
  `uint16`/`uint32`. A path is a sequence of Unicode scalar values (what
  `[]rune(s)` yields for a well-formed Go string), each written on the wire as
  one 4-byte unit in the revision's byte order.
*/
module Wire {

  type byte = b: int | 0 <= b < 0x100
  type bytes = seq<byte>
  type u16 = x: int | 0 <= x < 0x1_0000
  type u32 = x: int | 0 <= x < 0x1_0000_0000

  /** Unicode scalar values: code points other than the surrogates. */
  predicate IsScalar(v: int) {
    0 <= v < 0xD800 || 0xE000 <= v < 0x11_0000
  }

  type Scalar = v: int | IsScalar(v)
  type Path = seq<Scalar>

  /** U+FFFD, which Go substitutes for a rune that is not a scalar value. */
  const ReplacementChar: Scalar := 0xFFFD

  datatype ByteOrder = LittleEndian | BigEndian

  function EncodeU16(order: ByteOrder, x: u16): (r: bytes)
    ensures |r| == 2
    ensures order.LittleEndian? ==> r[0] as int + 0x100 * r[1] as int == x
    ensures order.BigEndian? ==> 0x100 * r[0] as int + r[1] as int == x
  {
    match order
    case LittleEndian => [x % 0x100, x / 0x100]
    case BigEndian => [x / 0x100, x % 0x100]
  }

  function DecodeU16(order: ByteOrder, b: bytes): (x: u16)
    requires |b| == 2
  {
    match order
    case LittleEndian => b[0] as int + 0x100 * b[1] as int
    case BigEndian => 0x100 * b[0] as int + b[1] as int
  }

  /** Two bytes determine a `u16`, and a `u16` comes back from its two bytes. */
  lemma U16RoundTrip(order: ByteOrder, x: u16, a: bytes, b: bytes)
    requires |a| == 2 && |b| == 2
    ensures DecodeU16(order, EncodeU16(order, x)) == x
    ensures DecodeU16(order, a) == DecodeU16(order, b) ==> a == b
  {
  }

  function EncodeU32(order: ByteOrder, x: u32): (r: bytes)
    ensures |r| == 4
    ensures DecodeU32(order, r) == x
  {
    match order
    case LittleEndian => EncodeU16(order, x % 0x1_0000) + EncodeU16(order, x / 0x1_0000)
    case BigEndian => EncodeU16(order, x / 0x1_0000) + EncodeU16(order, x % 0x1_0000)
  }

  /** Four bytes as a `u32`: least significant first, or most significant first. */
  function DecodeU32(order: ByteOrder, b: bytes): (x: u32)
    requires |b| == 4
    ensures order.LittleEndian? ==> x == b[0] as int + 0x100 * b[1] as int + 0x1_0000 * b[2] as int + 0x100_0000 * b[3] as int
    ensures order.BigEndian? ==> x == 0x100_0000 * b[0] as int + 0x1_0000 * b[1] as int + 0x100 * b[2] as int + b[3] as int
  {
    match order
    case LittleEndian => DecodeU16(order, b[..2]) + 0x1_0000 * DecodeU16(order, b[2..])
    case BigEndian => 0x1_0000 * DecodeU16(order, b[..2]) + DecodeU16(order, b[2..])
  }

  function Min(a: nat, b: nat): nat {
    if a <= b then a else b
  }

  /** A decoded 32-bit unit as Go's `string([]rune)` keeps it. */
  function ToScalar(v: u32): (c: Scalar)
    ensures IsScalar(v) ==> c == v
    ensures !IsScalar(v) ==> c == ReplacementChar
  {
    if IsScalar(v) then v else ReplacementChar
  }

  /** The path, one 4-byte unit per scalar value. */
  function EncodeRunes(order: ByteOrder, p: Path): (r: bytes)
    ensures |r| == 4 * |p|
  {
    if p == [] then [] else EncodeU32(order, p[0]) + EncodeRunes(order, p[1..])
  }

  /** The `i`-th 4-byte unit of an encoded path decodes to its `i`-th scalar value. */
  lemma {:induction false} EncodeRunesUnit(order: ByteOrder, p: Path, i: nat)
    requires i < |p|
    ensures DecodeU32(order, EncodeRunes(order, p)[4 * i..4 * i + 4]) == p[i]
  {
    var head, tail := EncodeU32(order, p[0]), EncodeRunes(order, p[1..]);
    if i == 0 {
      assert (head + tail)[..4] == head;
    } else {
      var at: nat := 4 * (i - 1);
      EncodeRunesUnit(order, p[1..], i - 1);
      UnitAfter(head, tail, at);
    }
  }

  /** Behind a 4-byte unit, the unit at offset `at` of the rest moves up by four. */
  lemma UnitAfter(head: bytes, tail: bytes, at: nat)
    requires |head| == 4 && at + 4 <= |tail|
    ensures (head + tail)[at + 4..at + 8] == tail[at..at + 4]
  {
  }

  /** Splits `b` into 4-byte units and decodes each one. */
  function DecodeRunes(order: ByteOrder, b: bytes): (p: Path)
    requires |b| % 4 == 0
    ensures |p| == |b| / 4
  {
    if b == [] then [] else [ToScalar(DecodeU32(order, b[..4]))] + DecodeRunes(order, b[4..])
  }

  /** `uint16(len(runes))`: the count a header announces, which wraps modulo
      65536 without an error. */
  function RuneCount(p: Path): (n: u16)
    ensures |p| < 0x1_0000 ==> n == |p|
    ensures n <= |p| && (|p| - n) % 0x1_0000 == 0
  {
    |p| % 0x1_0000
  }

  /** Size of a header whose path has `runes` scalar values: the count, the
      rune units and the batch id. */
  function HeaderSize(runes: nat): nat {
    2 + 4 * runes + 4
  }

  lemma {:induction false} RunesRoundTrip(order: ByteOrder, p: Path)
    ensures DecodeRunes(order, EncodeRunes(order, p)) == p
  {
    if p != [] {
      var head, tail := EncodeU32(order, p[0]), EncodeRunes(order, p[1..]);
      assert EncodeRunes(order, p) == head + tail;
      assert (head + tail)[..4] == head;
      assert (head + tail)[4..] == tail;
      RunesRoundTrip(order, p[1..]);
    }
  }

  lemma {:induction false} EncodeRunesAppend(order: ByteOrder, p: Path, q: Path)
    ensures EncodeRunes(order, p + q) == EncodeRunes(order, p) + EncodeRunes(order, q)
  {
    if p != [] {
      assert (p + q)[1..] == p[1..] + q;
      EncodeRunesAppend(order, p[1..], q);
    } else {
      assert p + q == q;
    }
  }

  /** The unit of the `k`-th scalar value sits between those of the values before and after it. */
  lemma EncodeRunesSplit(order: ByteOrder, p: Path, k: nat)
    requires k < |p|
    ensures EncodeRunes(order, p) ==
      EncodeRunes(order, p[..k]) + (EncodeU32(order, p[k]) + EncodeRunes(order, p[k + 1..]))
  {
    assert p == p[..k] + ([p[k]] + p[k + 1..]);
    EncodeRunesAppend(order, p[..k], [p[k]] + p[k + 1..]);
    EncodeRunesAppend(order, [p[k]], p[k + 1..]);
    assert EncodeRunes(order, [p[k]]) == EncodeU32(order, p[k]);
  }

  /** A header laid out as count, runes, unit: the count and the unit decode
      to what was written. */
  lemma HeaderLayout(order: ByteOrder, n: u16, p: Path, b: u32)
    ensures var r := EncodeU16(order, n) + EncodeRunes(order, p) + EncodeU32(order, b);
      |r| == 2 + 4 * |p| + 4 && DecodeU16(order, r[..2]) == n && DecodeU32(order, r[|r| - 4..]) == b
  {
    var count, runes, id := EncodeU16(order, n), EncodeRunes(order, p), EncodeU32(order, b);
    HeaderEnds(count, runes, id);
    U16RoundTrip(order, n, count, count);
  }

  /** In such a header the `i`-th scalar value is the unit at offset `2 + 4 * i`. */
  lemma HeaderRunes(order: ByteOrder, count: bytes, p: Path, id: bytes)
    requires |count| == 2 && |id| == 4
    ensures var r := count + EncodeRunes(order, p) + id;
      forall i :: 0 <= i < |p| ==> DecodeU32(order, r[2 + 4 * i..6 + 4 * i]) == p[i]
  {
    var runes := EncodeRunes(order, p);
    forall i | 0 <= i < |p|
      ensures DecodeU32(order, (count + runes + id)[2 + 4 * i..6 + 4 * i]) == p[i]
    {
      var at: nat := 4 * i;
      EncodeRunesUnit(order, p, i);
      HeaderUnit(count, runes, id, at);
    }
  }

  lemma HeaderEnds(count: bytes, runes: bytes, id: bytes)
    requires |count| == 2 && |id| == 4
    ensures var r := count + runes + id;
      r[..2] == count && r[|r| - 4..] == id
  {
  }

  lemma HeaderUnit(count: bytes, runes: bytes, id: bytes, at: nat)
    requires |count| == 2 && |id| == 4 && at + 4 <= |runes|
    ensures (count + runes + id)[2 + at..6 + at] == runes[at..at + 4]
  {
  }

  lemma AppendAssoc(a: bytes, b: bytes, c: bytes)
    ensures (a + b) + c == a + (b + c)
  {
  }

  /** Cutting a sequence at three points and putting the pieces back together. */
  lemma Regroup(s: bytes, i: nat, j: nat, k: nat, t: bytes)
    requires i <= j <= k <= |s|
    ensures s == s[..i] + (s[i..j] + (s[j..k] + s[k..]))
    ensures s[..k] + t == s[..i] + (s[i..j] + (s[j..k] + t))
  {
    assert s[..k] == s[..i] + (s[i..j] + s[j..k]);
  }
}
