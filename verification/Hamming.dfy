/** Hamming distance of peer ids (benchmark-broadcast/bits/bits.go). */
module Hamming {
  import opened Bitmaps
  import opened Wrappers

  datatype LengthError = LengthsDiffer(a: nat, b: nat)

  function Xor(a: seq<Byte>, b: seq<Byte>): (x: seq<Byte>)
    requires |a| == |b|
    ensures |x| == |a|
  {
    seq(|a|, i requires 0 <= i < |a| => a[i] ^ b[i])
  }

  lemma XorUnderMask(a: Byte, b: Byte, m: Byte)
    requires m == 1 || m == 2 || m == 4 || m == 8 || m == 16 || m == 32 || m == 64 || m == 128
    ensures (a ^ b) & m != 0 <==> (a & m != 0) != (b & m != 0)
  {
  }

  /** A bit of the exclusive or of two bytes. */
  lemma XorBit(a: seq<Byte>, b: seq<Byte>, k: nat)
    requires |a| == |b| && k < 8 * |a|
    ensures BitAt(Xor(a, b), k) <==> BitAt(a, k) != BitAt(b, k)
  {
    MaskIsPower(k % 8);
    XorUnderMask(a[k / 8], b[k / 8], Mask(k));
  }

  /** The exclusive or has a one exactly where the two strings have different bits. */
  lemma XorBits(a: seq<Byte>, b: seq<Byte>)
    requires |a| == |b|
    ensures forall k: nat | k < 8 * |a| :: BitAt(Xor(a, b), k) <==> BitAt(a, k) != BitAt(b, k)
  {
    hide BitAt;
    forall k: nat | k < 8 * |a| ensures BitAt(Xor(a, b), k) <==> BitAt(a, k) != BitAt(b, k) {
      XorBit(a, b, k);
    }
  }

  method XOR(a: seq<Byte>, b: seq<Byte>) returns (r: Result<seq<Byte>, LengthError>)
    ensures |a| == |b| ==> r == Ok(Xor(a, b)) && |r.value| == |a|
    ensures |a| == |b| ==> forall k: nat | k < 8 * |a| :: BitAt(r.value, k) <==> BitAt(a, k) != BitAt(b, k)
    ensures |a| != |b| ==> r == Err(LengthsDiffer(|a|, |b|))
  {
    if |a| != |b| {
      return Err(LengthsDiffer(|a|, |b|));
    }
    var buf := new Byte[|a|](_ => 0);
    for i := 0 to |a|
      invariant forall k | 0 <= k < i :: buf[k] == a[k] ^ b[k]
    {
      buf[i] := a[i] ^ b[i];
    }
    assert buf[..] == Xor(a, b);
    XorBits(a, b);
    return Ok(buf[..]);
  }

  lemma ShiftedBit(b: Byte, i: nat)
    requires i < 8
    ensures (b >> i) & 1 == 1 <==> ByteFlags(b)[i]
  {
    if i == 0 {
    } else if i == 1 {
    } else if i == 2 {
    } else if i == 3 {
    } else if i == 4 {
    } else if i == 5 {
    } else if i == 6 {
    } else {
    }
  }

  lemma ShiftAgain(b: Byte, i: nat)
    requires i < 8
    ensures (b >> i) >> 1 == b >> (i + 1)
  {
    if i == 0 {
    } else if i == 1 {
    } else if i == 2 {
    } else if i == 3 {
    } else if i == 4 {
    } else if i == 5 {
    } else if i == 6 {
    } else {
    }
  }

  /** The ones of one byte, found by shifting it out. */
  method CountByte(b: Byte) returns (count: nat)
    ensures count == OnesCount8(b)
  {
    count := 0;
    var byteNo := b;
    for i := 0 to 8
      invariant byteNo == b >> i
      invariant count == CountTrue(ByteFlags(b)[..i])
    {
      ShiftedBit(b, i);
      ShiftAgain(b, i);
      assert ByteFlags(b)[..i + 1][..i] == ByteFlags(b)[..i];
      if byteNo & 1 == 1 {
        count := count + 1;
      }
      byteNo := byteNo >> 1;
    }
    assert ByteFlags(b)[..8] == ByteFlags(b);
  }

  method CountSet(nr: seq<Byte>) returns (count: nat)
    ensures count == PopCount(nr)
  {
    count := 0;
    for i := 0 to |nr|
      invariant count == PopCount(nr[..i])
    {
      assert nr[..i + 1][..i] == nr[..i];
      var ones := CountByte(nr[i]);
      count := count + ones;
    }
    assert nr[..|nr|] == nr;
  }

  /** Number of bits in which two ids differ. */
  function Distance(a: seq<Byte>, b: seq<Byte>): nat
    requires |a| == |b|
  {
    PopCount(Xor(a, b))
  }

  /** The distance is the number of bits in which two ids differ. */
  lemma DistanceCountsBits(a: seq<Byte>, b: seq<Byte>)
    requires |a| == |b|
    ensures Distance(a, b) == CountTrue(seq(8 * |a|, k requires 0 <= k < 8 * |a| => BitAt(a, k) != BitAt(b, k)))
  {
    PopCountCountsBits(Xor(a, b));
    XorBits(a, b);
    hide BitAt, CountTrue, PopCount, Xor;
    assert Flags(Xor(a, b)) == seq(8 * |a|, k requires 0 <= k < 8 * |a| => BitAt(a, k) != BitAt(b, k));
  }

  lemma ZeroByte(b: Byte)
    ensures OnesCount8(b) == 0 <==> b == 0
  {
    CountTrueExtremes(ByteFlags(b));
    var f := ByteFlags(b);
    assert (forall i | 0 <= i < 8 :: !f[i]) <==>
           !f[0] && !f[1] && !f[2] && !f[3] && !f[4] && !f[5] && !f[6] && !f[7];
  }

  lemma {:induction false} PopCountBounds(bytes: seq<Byte>)
    ensures PopCount(bytes) <= 8 * |bytes|
    ensures PopCount(bytes) == 0 <==> forall i | 0 <= i < |bytes| :: bytes[i] == 0
  {
    if bytes != [] {
      PopCountBounds(bytes[..|bytes| - 1]);
      ZeroByte(bytes[|bytes| - 1]);
    }
  }

  /** The distance separates ids, is symmetric, and is at most the number of bits. */
  lemma DistanceSeparates(a: seq<Byte>, b: seq<Byte>)
    requires |a| == |b|
    ensures Distance(a, b) == 0 <==> a == b
    ensures Distance(a, b) == Distance(b, a) <= 8 * |a|
  {
    PopCountBounds(Xor(a, b));
    assert Xor(a, b) == Xor(b, a);
    forall i | 0 <= i < |a| ensures Xor(a, b)[i] == 0 <==> a[i] == b[i] {
    }
  }
}
