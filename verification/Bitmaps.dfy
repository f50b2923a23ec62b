/** Byte-backed bitmaps, as the consensus bitmap, the validator selection bitmap and the
    required-data bitmap use them: bit `i` lives in byte `i / 8` under the mask `1 << (i % 8)`. */
module Bitmaps {

  type Byte = bv8

  /** `1 << (uint16(i) % 8)`; the 16-bit truncation is harmless because 65536 is a multiple of 8. */
  lemma SixteenBitsKeepThree(i: nat)
    ensures (i % 65536) % 8 == i % 8
  {
  }

  function Mask(i: nat): (m: bv8)
    ensures m == 1 << (i % 8)
  {
    SixteenBitsKeepThree(i);
    1 << ((i % 65536) % 8)
  }

  predicate BitAt(bitmap: seq<Byte>, i: nat)
    requires i < 8 * |bitmap|
  {
    bitmap[i / 8] & Mask(i) != 0
  }

  lemma MaskIsPower(i: nat)
    requires i < 8
    ensures (1 as bv8) << i == [1, 2, 4, 8, 16, 32, 64, 128][i]
  {
  }

  /** Setting one bit of a byte changes that bit and no other. */
  lemma OrMask(b: bv8, i: nat, j: nat)
    requires i < 8 && j < 8
    ensures (b | (1 << i)) & (1 << j) != 0 <==> i == j || b & (1 << j) != 0
  {
    var mi: bv8 := 1 << i;
    var mj: bv8 := 1 << j;
    MaskIsPower(i);
    MaskIsPower(j);
  }

  function SetBit(bitmap: seq<Byte>, i: nat): (r: seq<Byte>)
    requires i < 8 * |bitmap|
    ensures |r| == |bitmap|
    ensures forall j: nat | j < 8 * |bitmap| :: BitAt(r, j) <==> (j == i || BitAt(bitmap, j))
  {
    forall j: nat | j < 8 * |bitmap|
      ensures BitAt(bitmap[i / 8 := bitmap[i / 8] | Mask(i)], j) <==> (j == i || BitAt(bitmap, j))
    {
      if j / 8 == i / 8 {
        OrMask(bitmap[i / 8], i % 8, j % 8);
      }
    }
    bitmap[i / 8 := bitmap[i / 8] | Mask(i)]
  }

  /** Number of entries that are true. */
  function CountTrue(flags: seq<bool>): (n: nat)
    ensures n <= |flags|
  {
    if flags == [] then 0
    else CountTrue(flags[..|flags| - 1]) + (if flags[|flags| - 1] then 1 else 0)
  }

  /** The bits of a bitmap, lowest first. */
  function Flags(bitmap: seq<Byte>): (f: seq<bool>)
  {
    seq(8 * |bitmap|, i requires 0 <= i < 8 * |bitmap| => BitAt(bitmap, i))
  }

  /** The bits of one byte, lowest first. */
  function ByteFlags(b: Byte): (f: seq<bool>)
    ensures |f| == 8
  {
    [b & 1 != 0, b & 2 != 0, b & 4 != 0, b & 8 != 0,
     b & 16 != 0, b & 32 != 0, b & 64 != 0, b & 128 != 0]
  }

  /** `bits.OnesCount8`. */
  function OnesCount8(b: Byte): (n: nat)
    ensures n <= 8
  {
    CountTrue(ByteFlags(b))
  }

  /** Ones in the whole bitmap, byte by byte. */
  function PopCount(bitmap: seq<Byte>): nat {
    if bitmap == [] then 0
    else PopCount(bitmap[..|bitmap| - 1]) + OnesCount8(bitmap[|bitmap| - 1])
  }

  lemma {:induction false} CountTrueConcat(a: seq<bool>, b: seq<bool>)
    ensures CountTrue(a + b) == CountTrue(a) + CountTrue(b)
  {
    if b == [] {
      assert a + b == a;
    } else {
      var k := |b| - 1;
      assert (a + b)[..|a + b| - 1] == a + b[..k];
      CountTrueConcat(a, b[..k]);
    }
  }

  lemma {:induction false} CountTrueExtremes(flags: seq<bool>)
    ensures CountTrue(flags) == 0 <==> forall i | 0 <= i < |flags| :: !flags[i]
    ensures CountTrue(flags) == |flags| <==> forall i | 0 <= i < |flags| :: flags[i]
  {
    if flags != [] {
      CountTrueExtremes(flags[..|flags| - 1]);
    }
  }

  lemma ByteFlagsAreBits(bitmap: seq<Byte>, k: nat, j: nat)
    requires k < |bitmap| && j < 8
    ensures ByteFlags(bitmap[k])[j] == BitAt(bitmap, 8 * k + j)
  {
    MaskIsPower(j);
    assert (8 * k + j) % 8 == j && (8 * k + j) / 8 == k;
  }

  lemma BitAtPrefix(bitmap: seq<Byte>, k: nat, i: nat)
    requires k <= |bitmap| && i < 8 * k
    ensures BitAt(bitmap[..k], i) == BitAt(bitmap, i)
  {
  }

  lemma FlagsOfLastByte(bitmap: seq<Byte>)
    requires bitmap != []
    ensures Flags(bitmap) == Flags(bitmap[..|bitmap| - 1]) + ByteFlags(bitmap[|bitmap| - 1])
  {
    hide BitAt, ByteFlags;
    var k := |bitmap| - 1;
    forall i: nat | i < 8 * |bitmap|
      ensures Flags(bitmap)[i] == (Flags(bitmap[..k]) + ByteFlags(bitmap[k]))[i]
    {
      if i >= 8 * k {
        ByteFlagsAreBits(bitmap, k, i - 8 * k);
      } else {
        BitAtPrefix(bitmap, k, i);
      }
    }
  }

  /** Counting byte by byte is counting bit by bit. */
  lemma {:induction false} PopCountCountsBits(bitmap: seq<Byte>)
    ensures PopCount(bitmap) == CountTrue(Flags(bitmap))
  {
    if bitmap != [] {
      var k := |bitmap| - 1;
      PopCountCountsBits(bitmap[..k]);
      FlagsOfLastByte(bitmap);
      CountTrueConcat(Flags(bitmap[..k]), ByteFlags(bitmap[k]));
    }
  }

  /** A bitmap whose low bits spell `flags` and whose remaining bits are clear. */
  ghost predicate Encodes(bitmap: seq<Byte>, flags: seq<bool>) {
    && |flags| <= 8 * |bitmap|
    && (forall i: nat | i < |flags| :: BitAt(bitmap, i) == flags[i])
    && (forall i: nat | |flags| <= i < 8 * |bitmap| :: !BitAt(bitmap, i))
  }

  /** The popcount of a bitmap is the number of flags it encodes. */
  lemma PopCountOfEncoding(bitmap: seq<Byte>, flags: seq<bool>)
    requires Encodes(bitmap, flags)
    ensures PopCount(bitmap) == CountTrue(flags)
  {
    hide BitAt, CountTrue, PopCount;
    PopCountCountsBits(bitmap);
    var padding := Flags(bitmap)[|flags|..];
    assert Flags(bitmap) == flags + padding;
    CountTrueConcat(flags, padding);
    CountTrueExtremes(padding);
  }

  /** The all-zero bitmap encodes flags that are all false. */
  lemma ZeroEncodes(bitmap: seq<Byte>, flags: seq<bool>)
    requires |flags| <= 8 * |bitmap|
    requires forall k | 0 <= k < |bitmap| :: bitmap[k] == 0
    requires forall i | 0 <= i < |flags| :: !flags[i]
    ensures Encodes(bitmap, flags)
  {
  }

  /** Setting bit `i` of the bitmap is raising flag `i`. */
  lemma SetBitEncodes(bitmap: seq<Byte>, flags: seq<bool>, i: nat)
    requires Encodes(bitmap, flags) && i < |flags|
    ensures Encodes(SetBit(bitmap, i), flags[i := true])
  {
  }

  /** The first `n` flags, the others lowered. */
  ghost function Prefix(flags: seq<bool>, n: nat): (p: seq<bool>)
    ensures |p| == |flags|
  {
    seq(|flags|, i requires 0 <= i < |flags| => i < n && flags[i])
  }

  lemma PrefixAll(flags: seq<bool>)
    ensures Prefix(flags, |flags|) == flags
  {
  }

  /** One step of filling a bitmap flag by flag. */
  lemma PrefixStep(bitmap: seq<Byte>, flags: seq<bool>, n: nat)
    requires n < |flags| && Encodes(bitmap, Prefix(flags, n))
    ensures flags[n] ==> Encodes(SetBit(bitmap, n), Prefix(flags, n + 1))
    ensures !flags[n] ==> Encodes(bitmap, Prefix(flags, n + 1))
  {
    if flags[n] {
      SetBitEncodes(bitmap, Prefix(flags, n), n);
      assert Prefix(flags, n + 1) == Prefix(flags, n)[n := true];
    } else {
      assert Prefix(flags, n + 1) == Prefix(flags, n);
    }
  }

  /** `bitmap[i/8] |= 1 << (uint16(i) % 8)`. */
  method SetBitInPlace(bitmap: array<Byte>, i: nat)
    requires i < 8 * bitmap.Length
    modifies bitmap
    ensures bitmap[..] == SetBit(old(bitmap[..]), i)
  {
    ghost var before := bitmap[..];
    bitmap[i / 8] := bitmap[i / 8] | Mask(i);
    assert bitmap[..] == before[i / 8 := before[i / 8] | Mask(i)];
  }
}
