/** SSZ bitlists: bits packed least-significant first, closed by a sentinel bit. */
module Bitlist {

  type Byte = bv8

  /** 1 << i */
  function Mask(i: nat): Byte
    requires i < 8
  {
    if i == 0 then 1 else if i == 1 then 2 else if i == 2 then 4 else if i == 3 then 8
    else if i == 4 then 16 else if i == 5 then 32 else if i == 6 then 64 else 128
  }

  predicate Bit(b: Byte, i: nat)
    requires i < 8
  {
    b & Mask(i) != 0
  }

  function SetMask(b: Byte, i: nat, val: bool): Byte
    requires i < 8
  {
    if val then b | Mask(i) else b & !Mask(i)
  }

  lemma SetMaskBits(b: Byte, i: nat, val: bool)
    requires i < 8
    ensures forall j: nat :: j < 8 ==> Bit(SetMask(b, i, val), j) == if j == i then val else Bit(b, j)
  {
    forall j: nat | j < 8
      ensures Bit(SetMask(b, i, val), j) == if j == i then val else Bit(b, j)
    {
      SetMaskBit(b, i, val, j);
    }
  }

  lemma SetMaskBit(b: Byte, i: nat, val: bool, j: nat)
    requires i < 8 && j < 8
    ensures Bit(SetMask(b, i, val), j) == if j == i then val else Bit(b, j)
  {
    MasksDisjoint(i, j);
    MaskWrite(b, Mask(i), Mask(j), val);
  }

  lemma MasksDisjoint(i: nat, j: nat)
    requires i < 8 && j < 8
    ensures Mask(i) != 0
    ensures if i == j then Mask(i) == Mask(j) else Mask(i) != Mask(j) && Mask(i) & Mask(j) == 0
  {}

  lemma MaskWrite(b: Byte, m: Byte, k: Byte, val: bool)
    requires m != 0 && (m == k || m & k == 0)
    ensures ((if val then b | m else b & !m) & k != 0) == if m == k then val else b & k != 0
  {
    if m == k {
      assert (b | m) & m == m && (b & !m) & m == 0;
    } else {
      assert (b | m) & k == b & k && (b & !m) & k == b & k;
    }
  }

  // ----- The meaning of a byte string -----

  /** The number of significant bits of a byte. */
  function Width(b: Byte): (w: nat)
    ensures w <= 8
    ensures b != 0 ==> 0 < w && Bit(b, w - 1)
    ensures forall j: nat :: w <= j < 8 ==> !Bit(b, j)
  {
    if b & 128 != 0 then 8 else if b & 64 != 0 then 7 else if b & 32 != 0 then 6
    else if b & 16 != 0 then 5 else if b & 8 != 0 then 4 else if b & 4 != 0 then 3
    else if b & 2 != 0 then 2 else if b & 1 != 0 then 1 else 0
  }

  function Len(bl: seq<Byte>): nat {
    if |bl| == 0 || bl[|bl| - 1] == 0 then 0
    else (|bl| - 1) * 8 + Width(bl[|bl| - 1]) - 1
  }

  predicate BitAt(bl: seq<Byte>, i: nat) {
    i / 8 < |bl| && Bit(bl[i / 8], i % 8)
  }

  predicate WellFormed(bl: seq<Byte>) {
    |bl| > 0 && bl[|bl| - 1] != 0
  }

  function Bits(bl: seq<Byte>): (bits: seq<bool>)
    ensures |bits| == Len(bl)
  {
    seq(Len(bl), i requires 0 <= i => BitAt(bl, i))
  }

  /** `bl` is the encoding of `bits`: the bits, then one sentinel, then padding. */
  ghost predicate Encodes(bl: seq<Byte>, bits: seq<bool>) {
    && |bl| == |bits| / 8 + 1
    && (forall i: nat :: i < |bits| ==> BitAt(bl, i) == bits[i])
    && BitAt(bl, |bits|)
    && (forall i: nat :: |bits| < i < 8 * |bl| ==> !BitAt(bl, i))
  }

  lemma EncodedLength(bl: seq<Byte>, bits: seq<bool>)
    requires Encodes(bl, bits)
    ensures WellFormed(bl) && Len(bl) == |bits|
  {
    var last := |bl| - 1;
    var top := |bits| % 8;
    assert |bits| == 8 * last + top && |bits| / 8 == last;
    assert Bit(bl[last], top);
    assert bl[last] != 0;
    var w := Width(bl[last]);
    assert top < w - 1 ==> !BitAt(bl, 8 * last + (w - 1));
  }

  /** A byte string encodes exactly the bits it reads back as. */
  lemma EncodesIffReads(bl: seq<Byte>, bits: seq<bool>)
    ensures Encodes(bl, bits) <==> WellFormed(bl) && Bits(bl) == bits
  {
    if Encodes(bl, bits) {
      EncodedLength(bl, bits);
    }
    if WellFormed(bl) && Bits(bl) == bits {
      var last := |bl| - 1;
      var w := Width(bl[last]);
      var n := |bits|;
      assert n == 8 * last + (w - 1) && n / 8 == last && n % 8 == w - 1;
      forall i: nat | i < n
        ensures BitAt(bl, i) == bits[i]
      {
        assert Bits(bl)[i] == BitAt(bl, i);
      }
      forall i: nat | n < i < 8 * |bl|
        ensures !BitAt(bl, i)
      {
        assert i / 8 == last && i % 8 == i - 8 * last;
      }
    }
  }

  lemma BytesAgree(a: Byte, b: Byte)
    requires forall j: nat :: j < 8 ==> Bit(a, j) == Bit(b, j)
    ensures a == b
  {
    assert Bit(a, 0) == Bit(b, 0) && Bit(a, 1) == Bit(b, 1) && Bit(a, 2) == Bit(b, 2) && Bit(a, 3) == Bit(b, 3);
    assert Bit(a, 4) == Bit(b, 4) && Bit(a, 5) == Bit(b, 5) && Bit(a, 6) == Bit(b, 6) && Bit(a, 7) == Bit(b, 7);
    var x := a ^ b;
    assert x & 1 == 0 && x & 2 == 0 && x & 4 == 0 && x & 8 == 0;
    assert x & 16 == 0 && x & 32 == 0 && x & 64 == 0 && x & 128 == 0;
    assert x == 0;
  }

  /** Each list of bits has one encoding, so nothing is lost by working on the bits. */
  lemma EncodingUnique(a: seq<Byte>, b: seq<Byte>, bits: seq<bool>)
    requires Encodes(a, bits) && Encodes(b, bits)
    ensures a == b
  {
    forall k | 0 <= k < |a|
      ensures a[k] == b[k]
    {
      forall j: nat | j < 8
        ensures Bit(a[k], j) == Bit(b[k], j)
      {
        var i := 8 * k + j;
        assert i / 8 == k && i % 8 == j;
        assert BitAt(a, i) == BitAt(b, i);
      }
      BytesAgree(a[k], b[k]);
    }
  }

  // ----- The operations -----

  lemma ShiftNarrows(b: Byte)
    requires b != 0
    ensures Width(b >> 1) == Width(b) - 1
  {}

  method BitlistLen(bl: array<Byte>) returns (n: nat)
    ensures n == Len(bl[..])
  {
    if bl.Length == 0 {
      return 0;
    }
    var lastByte := bl[bl.Length - 1];
    if lastByte == 0 {
      return 0;
    }
    var msb := 0;
    var b := lastByte;
    while b > 0
      invariant msb + Width(b) == Width(lastByte)
      decreases Width(b)
    {
      ShiftNarrows(b);
      b := b >> 1;
      msb := msb + 1;
    }
    return (bl.Length - 1) * 8 + msb - 1;
  }

  method GetBit(bl: array<Byte>, idx: nat) returns (bit: bool)
    ensures bit == BitAt(bl[..], idx)
    ensures idx < Len(bl[..]) ==> bit == Bits(bl[..])[idx]
  {
    var byteIdx, bitIdx := idx / 8, idx % 8;
    if byteIdx >= bl.Length {
      return false;
    }
    return bl[byteIdx] & Mask(bitIdx) != 0;
  }

  /** What writing one bit position does to every bit position. */
  ghost predicate Writes(before: seq<Byte>, after: seq<Byte>, idx: nat, val: bool) {
    && |after| == |before|
    && forall i: nat :: i < 8 * |before| ==> BitAt(after, i) == if i == idx then val else BitAt(before, i)
  }

  method WriteBit(bl: array<Byte>, idx: nat, val: bool)
    requires idx / 8 < bl.Length
    modifies bl
    ensures Writes(old(bl[..]), bl[..], idx, val)
  {
    var k := idx / 8;
    SetMaskBits(bl[k], idx % 8, val);
    bl[k] := SetMask(bl[k], idx % 8, val);
    forall i: nat | i < 8 * bl.Length
      ensures BitAt(bl[..], i) == if i == idx then val else old(BitAt(bl[..], i))
    {
      if i / 8 != k {
        assert bl[i / 8] == old(bl[i / 8]);
      }
    }
  }

  lemma SetEncodes(before: seq<Byte>, after: seq<Byte>, bits: seq<bool>, idx: nat, val: bool)
    requires Encodes(before, bits) && idx < |bits| && Writes(before, after, idx, val)
    ensures Encodes(after, bits[idx := val])
  {
    assert |bits| < 8 * |before|;
  }

  method SetBit(bl: array<Byte>, idx: nat, val: bool)
    modifies bl
    ensures idx / 8 >= bl.Length ==> bl[..] == old(bl[..])
    ensures idx / 8 < bl.Length ==> Writes(old(bl[..]), bl[..], idx, val)
    ensures old(WellFormed(bl[..])) && idx < old(Len(bl[..]))
        ==> WellFormed(bl[..]) && Bits(bl[..]) == old(Bits(bl[..]))[idx := val]
  {
    ghost var before := bl[..];
    ghost var bits := Bits(before);
    EncodesIffReads(before, bits);
    if idx / 8 >= bl.Length {
      return;
    }
    WriteBit(bl, idx, val);
    if WellFormed(before) && idx < |bits| {
      SetEncodes(before, bl[..], bits, idx, val);
      EncodesIffReads(bl[..], bits[idx := val]);
    }
  }

  /** Go's append of zero bytes: in place if nothing is needed, otherwise into a new array. */
  method Grow(bl: array<Byte>, needed: nat) returns (r: array<Byte>)
    requires bl.Length <= needed
    ensures r == bl || fresh(r)
    ensures r.Length == needed
    ensures forall i: nat :: i < 8 * needed ==> BitAt(r[..], i) == BitAt(bl[..], i)
  {
    if bl.Length == needed {
      return bl;
    }
    r := new Byte[needed](i requires 0 <= i reads bl => if i < bl.Length then bl[i] else 0);
  }

  /** Every bit but the one at the old sentinel is where it belongs. */
  ghost predicate Holds(bl: seq<Byte>, bits: seq<bool>) {
    forall i: nat :: i < 8 * |bl| && i != |bits| ==> BitAt(bl, i) == (i < |bits| && bits[i])
  }

  lemma AppendEncodes(grown: seq<Byte>, s1: seq<Byte>, s2: seq<Byte>, after: seq<Byte>, bits: seq<bool>, val: bool)
    requires Holds(grown, bits) && |grown| == (|bits| + 1) / 8 + 1
    requires s1 == grown || Writes(grown, s1, |bits|, false)
    requires Writes(s1, s2, |bits|, val)
    requires Writes(s2, after, |bits| + 1, true)
    ensures Encodes(after, bits + [val])
  {
    var n := |bits|;
    assert n + 1 < 8 * |grown|;
    forall i: nat | i < 8 * |grown|
      ensures BitAt(after, i) == if i < n then bits[i] else if i == n then val else i == n + 1
    {
      assert BitAt(after, i) == if i == n + 1 then true else if i == n then val else BitAt(grown, i);
    }
  }

  /** A buffer that ends in a zero byte counts as empty, and its first byte is reused; this
      loses nothing unless that byte has stale bits behind the new sentinel. */
  ghost predicate Appendable(bl: seq<Byte>) {
    |bl| == 0 || bl[|bl| - 1] != 0 || forall i: nat :: 2 <= i < 8 ==> !BitAt(bl, i)
  }

  lemma GrownHolds(before: seq<Byte>, grown: seq<Byte>)
    requires |before| <= |grown| == (Len(before) + 1) / 8 + 1
    requires forall i: nat :: i < 8 * |grown| ==> BitAt(grown, i) == BitAt(before, i)
    ensures Appendable(before) && Holds(grown, Bits(before))
  {
    var bits := Bits(before);
    EncodesIffReads(before, bits);
    if !WellFormed(before) {
      assert forall i: nat :: !BitAt(before, i);
    }
  }

  ghost predicate AppendsToFirstByte(before: seq<Byte>, after: seq<Byte>, val: bool) {
    forall i: nat :: i < 8 ==> BitAt(after, i) == if i == 0 then val else i == 1 || BitAt(before, i)
  }

  /** The case of a buffer that is cut to its first byte. The result shares that byte with the
      buffer it was cut from; here it is written there too. */
  method AppendToFirstByte(bl: array<Byte>, val: bool) returns (r: array<Byte>)
    requires bl.Length > 1
    modifies bl
    ensures fresh(r) && r.Length == 1 && r[0] == bl[0] && bl[1..] == old(bl[1..])
    ensures AppendsToFirstByte(old(bl[..]), r[..], val)
  {
    SetMaskBits(bl[0], 0, val);
    var b := SetMask(bl[0], 0, val);
    SetMaskBits(b, 1, true);
    var first := SetMask(b, 1, true);
    bl[0] := first;
    r := new Byte[1](_ => first);
  }

  method AppendBit(bl: array<Byte>, val: bool) returns (r: array<Byte>)
    modifies bl
    ensures r == bl || fresh(r)
    ensures WellFormed(r[..])
    ensures Bits(r[..]) == old(Bits(bl[..])) + [val] <==> old(Appendable(bl[..]))
    ensures !old(Appendable(bl[..])) ==> r.Length == 1 && AppendsToFirstByte(old(bl[..]), r[..], val)
  {
    ghost var before := bl[..];
    ghost var bits := Bits(before);
    var n := BitlistLen(bl);
    var newLen := n + 1;
    var neededBytes := (newLen + 1 + 7) / 8;
    if bl.Length > neededBytes {
      r := AppendToFirstByte(bl, val);
      FirstByteReads(before, r[..], val);
      return;
    }
    r := Grow(bl, neededBytes);
    GrownHolds(before, r[..]);
    WriteLast(r, n, val, bits);
  }

  lemma FirstByteReads(before: seq<Byte>, after: seq<Byte>, val: bool)
    requires |before| > (Len(before) + 2 + 7) / 8 && |after| == 1
    requires AppendsToFirstByte(before, after, val)
    ensures WellFormed(after) && (Bits(after) == Bits(before) + [val] <==> Appendable(before))
  {
    assert Len(before) == 0 && Bits(before) == [];
    EncodesIffReads(after, [val]);
    assert BitAt(after, 1);
    assert after[0] != 0;
  }

  /** Replaces the sentinel at n by the new bit and sets the next one. */
  method WriteLast(bl: array<Byte>, n: nat, val: bool, ghost bits: seq<bool>)
    requires n == |bits| && Holds(bl[..], bits) && bl.Length == (n + 1) / 8 + 1
    modifies bl
    ensures WellFormed(bl[..]) && Bits(bl[..]) == bits + [val]
  {
    ghost var grown := bl[..];
    if n > 0 {
      WriteBit(bl, n, false);
    }
    ghost var s1 := bl[..];
    WriteBit(bl, n, val);
    ghost var s2 := bl[..];
    WriteBit(bl, n + 1, true);
    AppendEncodes(grown, s1, s2, bl[..], bits, val);
    EncodesIffReads(bl[..], bits + [val]);
  }

  method MakeBitlist(numBits: nat) returns (bl: array<Byte>)
    ensures fresh(bl)
    ensures WellFormed(bl[..]) && Bits(bl[..]) == seq(numBits, _ => false)
  {
    if numBits == 0 {
      bl := new Byte[1](_ => 1);
      EncodesIffReads(bl[..], []);
      assert Bits(bl[..]) == seq(0, _ => false);
      return;
    }
    var numBytes := (numBits + 1 + 7) / 8;
    bl := new Byte[numBytes](_ => 0);
    assert forall i: nat :: i < 8 * numBytes ==> !BitAt(bl[..], i);
    WriteBit(bl, numBits, true);
    EncodesIffReads(bl[..], seq(numBits, _ => false));
  }

  method CloneBitlist(src: array<Byte>) returns (dst: array<Byte>)
    ensures fresh(dst) && dst[..] == src[..]
  {
    dst := new Byte[src.Length](i requires 0 <= i < src.Length reads src => src[i]);
  }
}
