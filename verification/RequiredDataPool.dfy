/** The pool of hashes a syncing node is waiting for (process/requiredDataPool.go). */
module RequiredData {
  import opened Bitmaps

  type Hash = seq<Byte>

  /** Flag `i` says whether the `i`-th expected hash is among the received ones. */
  ghost function ReceivedFlags(expected: seq<Hash>, received: set<Hash>): (f: seq<bool>)
    ensures |f| == |expected|
  {
    seq(|expected|, i requires 0 <= i < |expected| => expected[i] in received)
  }

  /** While `SetReceivedHash` scans, only the first `n` positions know about the new hash. */
  ghost function PartialFlags(expected: seq<Hash>, received: set<Hash>, hash: Hash, n: nat): (f: seq<bool>)
    requires n <= |expected|
    ensures |f| == |expected|
  {
    seq(|expected|, i requires 0 <= i < |expected| => expected[i] in received || (i < n && expected[i] == hash))
  }

  lemma CoversBits(bits: seq<Byte>, flags: seq<bool>)
    requires Encodes(bits, flags)
    ensures |flags| <= 8 * |bits|
  {
  }

  /** Looking at one more position. */
  lemma PartialStep(bits: seq<Byte>, expected: seq<Hash>, received: set<Hash>, hash: Hash, i: nat)
    requires i < |expected| <= 8 * |bits| && Encodes(bits, PartialFlags(expected, received, hash, i))
    ensures expected[i] == hash ==> Encodes(SetBit(bits, i), PartialFlags(expected, received, hash, i + 1))
    ensures expected[i] != hash ==> Encodes(bits, PartialFlags(expected, received, hash, i + 1))
  {
    hide Encodes;
    var flags := PartialFlags(expected, received, hash, i);
    if expected[i] == hash {
      SetBitEncodes(bits, flags, i);
      assert PartialFlags(expected, received, hash, i + 1) == flags[i := true];
    } else {
      assert PartialFlags(expected, received, hash, i + 1) == flags;
    }
  }

  lemma PartialDone(expected: seq<Hash>, received: set<Hash>, hash: Hash)
    ensures PartialFlags(expected, received, hash, |expected|) == ReceivedFlags(expected, received + {hash})
  {
  }

  class RequiredDataPool {
    var expectedData: seq<Hash>
    var receivedBitmap: array<Byte>
    // every hash reported since the expected data was last set, expected or not
    ghost var received: set<Hash>

    ghost predicate Valid()
      reads this, receivedBitmap
    {
      Encodes(receivedBitmap[..], ReceivedFlags(expectedData, received))
    }

    constructor ()
      ensures Valid() && fresh(receivedBitmap)
      ensures expectedData == [] && received == {}
    {
      expectedData := [];
      receivedBitmap := new Byte[0];
      received := {};
    }

    method Reset()
      modifies this
      ensures expectedData == [] && receivedBitmap.Length == 0 && fresh(receivedBitmap)
      ensures received == old(received)
    {
      expectedData := [];
      receivedBitmap := new Byte[0];
    }

    method SetHashes(hashes: seq<Hash>)
      modifies this
      ensures Valid() && fresh(receivedBitmap)
      ensures expectedData == hashes && received == {}
    {
      received := {};
      if |hashes| < 1 {
        Reset();
        return;
      }
      expectedData := hashes;
      receivedBitmap := new Byte[|hashes| / 8 + 1](_ => 0);
      ZeroEncodes(receivedBitmap[..], ReceivedFlags(expectedData, received));
    }

    /** Marks every position holding the hash; an unexpected hash changes no bit. */
    method SetReceivedHash(hash: Hash)
      requires Valid()
      modifies this`received, receivedBitmap
      ensures Valid()
      ensures received == old(received) + {hash}
      ensures hash !in expectedData ==> receivedBitmap[..] == old(receivedBitmap[..])
    {
      ghost var before := receivedBitmap[..];
      assert ReceivedFlags(expectedData, received) == PartialFlags(expectedData, received, hash, 0);
      assert Encodes(receivedBitmap[..], PartialFlags(expectedData, received, hash, 0));
      CoversBits(receivedBitmap[..], PartialFlags(expectedData, received, hash, 0));
      hide Encodes, PartialFlags;
      for i := 0 to |expectedData|
        invariant received == old(received)
        invariant Encodes(receivedBitmap[..], PartialFlags(expectedData, received, hash, i))
        invariant hash !in expectedData[..i] ==> receivedBitmap[..] == before
      {
        PartialStep(receivedBitmap[..], expectedData, received, hash, i);
        if expectedData[i] == hash {
          SetBitInPlace(receivedBitmap, i);
        }
      }
      assert expectedData[..|expectedData|] == expectedData;
      PartialDone(expectedData, received, hash);
      received := received + {hash};
    }

    /** The ones in the bitmap reach the expected length exactly when every expected hash has arrived. */
    method ReceivedAll() returns (all: bool)
      requires Valid()
      ensures all <==> forall i | 0 <= i < |expectedData| :: expectedData[i] in received
    {
      var flags := 0;
      for i := 0 to receivedBitmap.Length
        invariant flags == PopCount(receivedBitmap[..i])
      {
        assert receivedBitmap[..i + 1][..i] == receivedBitmap[..i];
        flags := flags + OnesCount8(receivedBitmap[i]);
      }
      assert receivedBitmap[..receivedBitmap.Length] == receivedBitmap[..];
      ghost var wanted := ReceivedFlags(expectedData, received);
      PopCountOfEncoding(receivedBitmap[..], wanted);
      CountTrueExtremes(wanted);
      assert forall i | 0 <= i < |expectedData| :: wanted[i] <==> expectedData[i] in received;
      all := flags >= |expectedData|;
    }
  }

  /** A whole session: whatever arrives, in whatever order, duplicated or unexpected, the pool is
      satisfied at the end iff each expected hash is among the arrivals. */
  method Replay(hashes: seq<Hash>, arrivals: seq<Hash>) returns (all: bool)
    ensures all <==> forall h | h in hashes :: h in arrivals
  {
    var pool := new RequiredDataPool();
    pool.SetHashes(hashes);
    for i := 0 to |arrivals|
      invariant fresh(pool) && fresh(pool.receivedBitmap)
      invariant pool.Valid() && pool.expectedData == hashes
      invariant pool.received == set h | h in arrivals[..i]
    {
      pool.SetReceivedHash(arrivals[i]);
      assert arrivals[..i + 1] == arrivals[..i] + [arrivals[i]];
    }
    assert arrivals[..|arrivals|] == arrivals;
    all := pool.ReceivedAll();
  }
}
