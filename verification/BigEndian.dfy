/** Big-endian byte strings. */
module BigEndian {
  import opened Bitmaps

  /** The number a byte string spells, as `big.Int.SetBytes` reads it. */
  function BigEndianValue(bytes: seq<Byte>): nat {
    if bytes == [] then 0
    else 256 * BigEndianValue(bytes[..|bytes| - 1]) + bytes[|bytes| - 1] as nat
  }

  /** The last `width` base-256 digits of a number; `binary.BigEndian.PutUint64` is width 8. */
  function BigEndianBytes(n: nat, width: nat): (bytes: seq<Byte>)
    ensures |bytes| == width
  {
    if width == 0 then [] else BigEndianBytes(n / 256, width - 1) + [(n % 256) as bv8]
  }

  function Pow256(k: nat): (p: nat)
    ensures p > 0
  {
    if k == 0 then 1 else 256 * Pow256(k - 1)
  }

  lemma BigEndianAppend(bytes: seq<Byte>, b: Byte)
    ensures BigEndianValue(bytes + [b]) == 256 * BigEndianValue(bytes) + b as nat
  {
    assert (bytes + [b])[..|bytes|] == bytes;
  }

  lemma BigEndianPrefix(bytes: seq<Byte>, i: nat)
    requires i < |bytes|
    ensures BigEndianValue(bytes[..i + 1]) == 256 * BigEndianValue(bytes[..i]) + bytes[i] as nat
  {
    hide BigEndianValue;
    assert bytes[..i + 1] == bytes[..i] + [bytes[i]];
    BigEndianAppend(bytes[..i], bytes[i]);
  }

  lemma NextByteValue(b: Byte)
    requires b < 255
    ensures (b + 1) as nat == b as nat + 1
  {
  }

  lemma {:induction false} ByteWithValue(n: nat) returns (b: Byte)
    requires n < 256
    ensures b as nat == n
  {
    if n == 0 {
      b := 0;
    } else {
      b := ByteWithValue(n - 1);
      NextByteValue(b);
      b := b + 1;
    }
  }

  lemma ByteBack(b: Byte)
    ensures (b as nat) as bv8 == b
  {
  }

  lemma ByteOf(n: nat)
    requires n < 256
    ensures (n as bv8) as nat == n
  {
    var b := ByteWithValue(n);
    ByteBack(b);
  }

  lemma LastDigit(n: nat, width: nat)
    requires width > 0 && BigEndianValue(BigEndianBytes(n / 256, width - 1)) == n / 256
    ensures BigEndianValue(BigEndianBytes(n, width)) == n
  {
    hide BigEndianValue;
    BigEndianAppend(BigEndianBytes(n / 256, width - 1), (n % 256) as bv8);
    ByteOf(n % 256);
  }

  lemma {:induction false} BigEndianRoundTrip(n: nat, width: nat)
    requires n < Pow256(width)
    ensures BigEndianValue(BigEndianBytes(n, width)) == n
  {
    if width > 0 {
      BigEndianRoundTrip(n / 256, width - 1);
      LastDigit(n, width);
    }
  }

  lemma Distribute(x: nat, p: nat, y: nat, last: nat)
    ensures 256 * (x * p + y) + last == x * (256 * p) + (256 * y + last)
  {
  }

  lemma {:induction false} BigEndianConcat(a: seq<Byte>, b: seq<Byte>)
    ensures BigEndianValue(a + b) == BigEndianValue(a) * Pow256(|b|) + BigEndianValue(b)
  {
    if b == [] {
      assert a + b == a;
    } else {
      var k := |b| - 1;
      var last := b[k] as nat;
      assert (a + b)[..|a + b| - 1] == a + b[..k];
      BigEndianConcat(a, b[..k]);
      var x, y, p := BigEndianValue(a), BigEndianValue(b[..k]), Pow256(k);
      Distribute(x, p, y, last);
      assert BigEndianValue(a + b) == 256 * (x * p + y) + last;
    }
  }
}
