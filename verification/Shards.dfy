/** Dispatching addresses to shards (sharding/multiShardCoordinator.go, core/address.go). */
module Shards {
  import opened Arithmetic
  import opened BigEndian
  import opened Bitmaps
  import opened NodesCoordination
  import opened Wrappers

  // ---------------------------------------------------------------------------------------------
  // Binary numbers
  // ---------------------------------------------------------------------------------------------

  function Pow2(k: nat): (p: nat)
    ensures p > 0
  {
    if k == 0 then 1 else 2 * Pow2(k - 1)
  }

  /** Bitwise conjunction of two numbers. */
  function And(a: nat, b: nat): (c: nat)
    decreases b
  {
    if b == 0 then 0
    else 2 * And(a / 2, b / 2) + (if a % 2 == 1 && b % 2 == 1 then 1 else 0)
  }

  /** The number spelled by the lowest `k` binary digits. */
  function LowBits(a: nat, k: nat): (r: nat) {
    if k == 0 then 0 else a % 2 + 2 * LowBits(a / 2, k - 1)
  }

  function HighBits(a: nat, k: nat): (r: nat) {
    if k == 0 then a else HighBits(a / 2, k - 1)
  }

  lemma DoubleProduct(h: nat, p: nat)
    ensures h * (2 * p) == 2 * (h * p)
  {
  }

  lemma {:induction false} LowHigh(a: nat, k: nat)
    ensures LowBits(a, k) < Pow2(k)
    ensures a == HighBits(a, k) * Pow2(k) + LowBits(a, k)
  {
    if k > 0 {
      LowHigh(a / 2, k - 1);
      var h, l, p := HighBits(a / 2, k - 1), LowBits(a / 2, k - 1), Pow2(k - 1);
      assert HighBits(a, k) == h && LowBits(a, k) == a % 2 + 2 * l && Pow2(k) == 2 * p;
      hide HighBits, LowBits, Pow2;
      DoubleProduct(h, p);
    }
  }

  lemma {:induction false} LowBitsIsMod(a: nat, k: nat)
    ensures LowBits(a, k) == a % Pow2(k)
    ensures LowBits(a, k) < Pow2(k)
  {
    LowHigh(a, k);
    DivModUnique(a, Pow2(k), HighBits(a, k), LowBits(a, k));
  }

  /** A mask of `k` ones selects the lowest `k` digits. */
  lemma {:induction false} MaskSelectsLowBits(a: nat, k: nat)
    ensures And(a, Pow2(k) - 1) == LowBits(a, k)
  {
    if k > 0 {
      MaskSelectsLowBits(a / 2, k - 1);
      assert (Pow2(k) - 1) / 2 == Pow2(k - 1) - 1 && (Pow2(k) - 1) % 2 == 1;
    }
  }

  /** Adding a multiple of a higher power of two leaves the low digits alone. */
  lemma {:induction false} LowBitsIgnoreHigh(x: nat, y: nat, m: nat, k: nat)
    requires k <= m
    ensures LowBits(y * Pow2(m) + x, k) == LowBits(x, k)
  {
    if k > 0 {
      var p := Pow2(m - 1);
      assert y * Pow2(m) == 2 * (y * p);
      assert (2 * (y * p) + x) / 2 == y * p + x / 2;
      LowBitsIgnoreHigh(x / 2, y, m - 1, k - 1);
    }
  }

  lemma {:induction false} LowBitsOfSmall(x: nat, k: nat)
    requires x < Pow2(k)
    ensures LowBits(x, k) == x
  {
    if k > 0 {
      LowBitsOfSmall(x / 2, k - 1);
    }
  }

  lemma {:induction false} Pow256IsPow2(k: nat)
    ensures Pow256(k) == Pow2(8 * k)
  {
    if k > 0 {
      Pow256IsPow2(k - 1);
      var e := 8 * k;
      assert Pow2(e) == 2 * Pow2(e - 1) == 4 * Pow2(e - 2) == 8 * Pow2(e - 3) == 16 * Pow2(e - 4);
      assert Pow2(e - 4) == 2 * Pow2(e - 5) == 4 * Pow2(e - 6) == 8 * Pow2(e - 7) == 16 * Pow2(e - 8);
    }
  }

  lemma {:induction false} Pow2Monotone(a: nat, b: nat)
    requires a <= b
    ensures Pow2(a) <= Pow2(b)
  {
    if a < b {
      Pow2Monotone(a, b - 1);
    }
  }

  // ---------------------------------------------------------------------------------------------
  // The number of digits a shard count needs
  // ---------------------------------------------------------------------------------------------

  /** `ceil(log2(n))`. */
  function CeilLog2(n: nat): (k: nat)
    requires n > 0
    ensures n <= Pow2(k)
    ensures k > 0 ==> Pow2(k - 1) < n
  {
    if n == 1 then 0 else 1 + CeilLog2((n + 1) / 2)
  }

  lemma CeilLog2Unique(n: nat, k: nat)
    requires n > 0 && n <= Pow2(k) && (k > 0 ==> Pow2(k - 1) < n)
    ensures k == CeilLog2(n)
  {
    var c := CeilLog2(n);
    if k < c {
      Pow2Monotone(k, c - 1);
    } else if c < k {
      Pow2Monotone(c, k - 1);
    }
  }

  lemma CeilLog2Bound(n: nat, k: nat)
    requires 0 < n <= Pow2(k)
    ensures CeilLog2(n) <= k
  {
    if CeilLog2(n) > k {
      Pow2Monotone(k, CeilLog2(n) - 1);
    }
  }

  // ---------------------------------------------------------------------------------------------
  // The shard of a number
  // ---------------------------------------------------------------------------------------------

  /** The shard a residue of `2^ceil(log2 n)` belongs to. */
  function ShardOfResidue(n: nat, r: nat): (s: nat)
    requires n > 0
  {
    var k := CeilLog2(n);
    if r < n || k == 0 then r else LowBits(r, k - 1)
  }

  /** The shard of an address read as one big number. */
  function ShardFor(n: nat, a: nat): (s: nat)
    requires n > 0
  {
    ShardOfResidue(n, LowBits(a, CeilLog2(n)))
  }

  /** A residue past the last shard folds back by half the range. */
  lemma FoldBack(n: nat, r: nat)
    requires n > 1 && n <= r < Pow2(CeilLog2(n))
    ensures ShardOfResidue(n, r) == r - Pow2(CeilLog2(n) - 1)
    ensures 0 <= r - Pow2(CeilLog2(n) - 1) < Pow2(CeilLog2(n) - 1) < n
  {
    var half := Pow2(CeilLog2(n) - 1);
    assert Pow2(CeilLog2(n)) == 2 * half;
    hide LowBits;
    var x: nat := r - half;
    LowBitsIgnoreHigh(x, 1, CeilLog2(n) - 1, CeilLog2(n) - 1);
    LowBitsOfSmall(x, CeilLog2(n) - 1);
    assert 1 * half + x == r;
  }

  /** The shard is the remainder by the least power of two that is no less than the number of shards, or,
      if there is no such shard, that minus half the power. */
  lemma ShardForIsRemainder(n: nat, k: nat, a: nat)
    requires n <= Pow2(k) && (if k == 0 then n == 1 else Pow2(k - 1) < n)
    ensures var r := a % Pow2(k); ShardFor(n, a) == if r < n then r else r - Pow2(k - 1)
  {
    CeilLog2Unique(n, k);
    LowBitsIsMod(a, k);
    if LowBits(a, k) >= n {
      FoldBack(n, LowBits(a, k));
    }
  }

  /** Every number has a shard below the count. */
  lemma ShardInRange(n: nat, a: nat)
    requires n > 0
    ensures ShardFor(n, a) < n
  {
    var k := CeilLog2(n);
    LowHigh(a, k);
    if LowBits(a, k) >= n {
      FoldBack(n, LowBits(a, k));
    }
  }

  /** Each shard owns its own residue, and a second one exactly when the upper half has an orphan
      at the same offset. */
  lemma ResiduesOfShard(n: nat, s: nat, r: nat)
    requires s < n && r < Pow2(CeilLog2(n))
    ensures ShardOfResidue(n, r) == s <==>
            r == s || (CeilLog2(n) > 0 && r == s + Pow2(CeilLog2(n) - 1) && r >= n)
  {
    if r >= n {
      FoldBack(n, r);
    }
  }

  lemma {:induction false} OneMoreBit(a: nat, k: nat)
    ensures LowBits(a, k + 1) == LowBits(a, k) || LowBits(a, k + 1) == LowBits(a, k) + Pow2(k)
  {
    if k > 0 {
      OneMoreBit(a / 2, k - 1);
    }
  }

  /** The step from a power of two: every address keeps its low digits. */
  lemma GrowthPastPower(n: nat, a: nat, k: nat)
    requires n == Pow2(k) && k == CeilLog2(n) && CeilLog2(n + 1) == k + 1
    ensures ShardFor(n + 1, a) == ShardFor(n, a) || ShardFor(n + 1, a) == n
  {
    hide LowBits, CeilLog2, Pow2;
    LowHigh(a, k);
    LowHigh(a, k + 1);
    OneMoreBit(a, k);
    if LowBits(a, k + 1) >= n + 1 {
      FoldBack(n + 1, LowBits(a, k + 1));
    }
  }

  /** Growing from `n` to `n + 1` shards moves addresses to the new shard only. */
  lemma GrowthMovesOnlyToNewShard(n: nat, a: nat)
    requires n > 0
    ensures ShardFor(n + 1, a) == ShardFor(n, a) || ShardFor(n + 1, a) == n
  {
    var k := CeilLog2(n);
    LowHigh(a, k);
    assert Pow2(k + 1) == 2 * Pow2(k);
    hide LowBits, CeilLog2, Pow2;
    if n < Pow2(k) {
      CeilLog2Unique(n + 1, k);
    } else {
      CeilLog2Unique(n + 1, k + 1);
      GrowthPastPower(n, a, k);
    }
  }

  // ---------------------------------------------------------------------------------------------
  // Smart contract addresses
  // ---------------------------------------------------------------------------------------------

  const NUM_INIT_CHARACTERS_FOR_SC_ADDRESS := 10
  const VM_TYPE_LEN := 2
  const NUM_INIT_CHARACTERS_FOR_ON_METACHAIN_SC := 5
  const METACHAIN_SHARD_IDENTIFIER: Byte := 255

  predicate AllZero(bytes: seq<Byte>) {
    forall i | 0 <= i < |bytes| :: bytes[i] == 0
  }

  predicate AllOnes(bytes: seq<Byte>) {
    forall i | 0 <= i < |bytes| :: bytes[i] == METACHAIN_SHARD_IDENTIFIER
  }

  predicate IsSmartContractAddress(address: seq<Byte>) {
    && |address| > NUM_INIT_CHARACTERS_FOR_SC_ADDRESS
    && (AllZero(address) || AllZero(address[..NUM_INIT_CHARACTERS_FOR_SC_ADDRESS - VM_TYPE_LEN]))
  }

  method IsMetachainIdentifier(identifier: seq<Byte>) returns (b: bool)
    ensures b <==> AllOnes(identifier)
  {
    for i := 0 to |identifier|
      invariant AllOnes(identifier[..i])
    {
      if identifier[i] != METACHAIN_SHARD_IDENTIFIER {
        return false;
      }
    }
    return true;
  }

  method IsSmartContractOnMetachain(identifier: seq<Byte>, address: seq<Byte>) returns (b: bool)
    ensures b <==> |address| > 15 && AllOnes(identifier) && AllZero(address[..8]) && AllZero(address[10..15])
  {
    if |address| <= NUM_INIT_CHARACTERS_FOR_SC_ADDRESS + NUM_INIT_CHARACTERS_FOR_ON_METACHAIN_SC {
      return false;
    }
    var isMetachain := IsMetachainIdentifier(identifier);
    if !isMetachain {
      return false;
    }
    if !IsSmartContractAddress(address) {
      return false;
    }
    return AllZero(address[NUM_INIT_CHARACTERS_FOR_SC_ADDRESS
                           ..NUM_INIT_CHARACTERS_FOR_SC_ADDRESS + NUM_INIT_CHARACTERS_FOR_ON_METACHAIN_SC]);
  }

  /** How many trailing bytes are looked at. */
  function BytesNeeded(n: nat): nat {
    n / 256 + 1
  }

  function Tail(address: seq<Byte>, n: nat): (tail: seq<Byte>) {
    if |address| > BytesNeeded(n) then address[|address| - BytesNeeded(n)..] else address
  }

  /** The address of a contract that lives on the metachain. */
  predicate OnMetachain(n: nat, address: seq<Byte>) {
    |address| > 15 && AllOnes(Tail(address, n)) && AllZero(address[..8]) && AllZero(address[10..15])
  }

  /** Which addresses are on the metachain, byte by byte: with at least `256 * k` and fewer than
      `256 * (k + 1)` shards, those of more than fifteen bytes whose last `k + 1` bytes are 255 and whose
      bytes 0 to 7 and 10 to 14 are zero. */
  lemma OnMetachainIff(n: nat, k: nat, address: seq<Byte>)
    requires 256 * k <= n < 256 * (k + 1)
    ensures OnMetachain(n, address) <==>
            && |address| > 15
            && (forall i | 0 <= i < |address| && |address| - (k + 1) <= i :: address[i] == 255)
            && (forall i | 0 <= i < 8 :: address[i] == 0) && (forall i | 10 <= i < 15 :: address[i] == 0)
  {
    if |address| > 15 {
      var tail := Tail(address, n);
      var from := |address| - |tail|;
      assert tail == address[from..];
      assert AllOnes(tail) <==> forall i | from <= i < |address| :: address[i] == 255 by {
        assert forall i | from <= i < |address| :: address[i] == tail[i - from];
      }
      assert AllZero(address[..8]) <==> forall i | 0 <= i < 8 :: address[i] == 0;
      assert AllZero(address[10..15]) <==> forall i | 10 <= i < 15 :: address[i] == 0 by {
        assert forall i | 10 <= i < 15 :: address[i] == address[10..15][i - 10];
      }
    }
  }

  // ---------------------------------------------------------------------------------------------
  // The coordinator
  // ---------------------------------------------------------------------------------------------

  lemma Pow2Of32()
    ensures Pow2(32) == UINT32_RANGE
  {
    Pow256IsPow2(4);
    assert Pow256(1) == 256 && Pow256(2) == 65536 && Pow256(3) == 16777216;
  }

  lemma {:induction false} Pow256Grows(b: nat)
    requires b > 0
    ensures Pow256(b) >= 256 * b
  {
    if b > 1 {
      Pow256Grows(b - 1);
    }
  }

  /** The trailing bytes hold all the digits a shard needs, and so do 32 bits. */
  lemma DigitsSuffice(n: nat)
    requires 0 < n < UINT32_RANGE
    ensures CeilLog2(n) <= 8 * BytesNeeded(n) && CeilLog2(n) <= 32
  {
    Pow256Grows(BytesNeeded(n));
    Pow256IsPow2(BytesNeeded(n));
    CeilLog2Bound(n, 8 * BytesNeeded(n));
    Pow2Of32();
    CeilLog2Bound(n, 32);
  }

  /** The trailing bytes, truncated to 32 bits, have the low digits of the whole address. */
  lemma TailKeepsLowBits(address: seq<Byte>, n: nat, k: nat)
    requires 0 < n && k <= 8 * BytesNeeded(n) && k <= 32
    ensures LowBits(LowBits(BigEndianValue(Tail(address, n)), 32), k) == LowBits(BigEndianValue(address), k)
  {
    hide LowBits, HighBits, BigEndianValue, Pow256, Pow2;
    var tail := Tail(address, n);
    var t := BigEndianValue(tail);
    LowHigh(t, 32);
    LowBitsIgnoreHigh(LowBits(t, 32), HighBits(t, 32), 32, k);
    if |address| > BytesNeeded(n) {
      var front := address[..|address| - BytesNeeded(n)];
      assert address == front + tail;
      BigEndianConcat(front, tail);
      Pow256IsPow2(|tail|);
      LowBitsIgnoreHigh(t, BigEndianValue(front), 8 * |tail|, k);
    }
  }

  lemma WrapShift(l: nat, b: nat)
    ensures ((l * 256) % UINT32_RANGE + b) % UINT32_RANGE == (256 * l + b) % UINT32_RANGE
  {
  }

  lemma AccumulateByte(x: nat, b: nat)
    requires b < 256
    ensures ((LowBits(x, 32) * 256) % UINT32_RANGE + b) % UINT32_RANGE == LowBits(256 * x + b, 32)
  {
    hide LowBits, HighBits, Pow2;
    var l, h := LowBits(x, 32), HighBits(x, 32);
    Pow2Of32();
    LowHigh(x, 32);
    assert 256 * x + b == (256 * h) * Pow2(32) + (256 * l + b);
    LowBitsIgnoreHigh(256 * l + b, 256 * h, 32, 32);
    LowBitsIsMod(256 * l + b, 32);
    WrapShift(l, b);
  }

  lemma NextByte(buff: seq<Byte>, i: nat)
    requires i < |buff|
    ensures LowBits(BigEndianValue(buff[..i + 1]), 32)
         == ((LowBits(BigEndianValue(buff[..i]), 32) * 256) % UINT32_RANGE + buff[i] as nat) % UINT32_RANGE
  {
    hide LowBits, BigEndianValue;
    BigEndianPrefix(buff, i);
    AccumulateByte(BigEndianValue(buff[..i]), buff[i] as nat);
  }

  /** The accumulation loop, in 32-bit arithmetic. */
  method AddressNumber(buff: seq<Byte>) returns (addr: nat)
    ensures addr == LowBits(BigEndianValue(buff), 32)
  {
    addr := 0;
    LowBitsOfSmall(0, 32);
    assert BigEndianValue([]) == 0;
    hide LowBits, BigEndianValue;
    for i := 0 to |buff|
      invariant addr == LowBits(BigEndianValue(buff[..i]), 32)
    {
      NextByte(buff, i);
      addr := ((addr * 256) % UINT32_RANGE + buff[i] as nat) % UINT32_RANGE;
    }
    assert buff[..|buff|] == buff;
  }

  lemma {:induction false} LowBitsTwice(a: nat, k: nat, j: nat)
    requires j <= k
    ensures LowBits(LowBits(a, k), j) == LowBits(a, j)
  {
    if j > 0 {
      LowBitsTwice(a / 2, k - 1, j - 1);
      var low := LowBits(a / 2, k - 1);
      assert LowBits(a, k) == a % 2 + 2 * low;
      assert (a % 2 + 2 * low) % 2 == a % 2 && (a % 2 + 2 * low) / 2 == low;
    }
  }

  lemma MasksSelectShard(c: MultiShardCoordinator, addr: nat)
    requires c.Valid()
    ensures (if And(addr, c.maskHigh) > c.numberOfShards - 1 then And(addr, c.maskLow) else And(addr, c.maskHigh))
            == ShardFor(c.numberOfShards, addr)
  {
    var k := CeilLog2(c.numberOfShards);
    MaskSelectsLowBits(addr, k);
    LowHigh(addr, k);
    if k > 0 {
      MaskSelectsLowBits(addr, k - 1);
      LowBitsTwice(addr, k, k - 1);
    }
  }

  datatype MultiShardCoordinator = MultiShardCoordinator(maskHigh: nat, maskLow: nat, selfId: nat, numberOfShards: nat)
  {
    /** The masks fit the shard count; with a single shard the low mask may be anything. */
    ghost predicate Valid() {
      && 0 < numberOfShards < UINT32_RANGE
      && var k := CeilLog2(numberOfShards);
         maskHigh == Pow2(k) - 1 && (k > 0 ==> maskLow == Pow2(k - 1) - 1)
    }

    /** The shard of an address: the metachain for its contracts, otherwise the shard of the address
        read as one number. */
    method ComputeId(address: seq<Byte>) returns (shard: nat)
      requires Valid()
      ensures shard == METACHAIN_SHARD_ID <==> OnMetachain(numberOfShards, address)
      ensures shard != METACHAIN_SHARD_ID ==>
                shard == ShardFor(numberOfShards, BigEndianValue(address)) && shard < numberOfShards
    {
      var bytesNeed := numberOfShards / 256 + 1;
      var startingIndex := 0;
      if |address| > bytesNeed {
        startingIndex := |address| - bytesNeed;
      }
      var buffNeeded := address[startingIndex..];
      assert buffNeeded == Tail(address, numberOfShards);
      var isMeta := IsSmartContractOnMetachain(buffNeeded, address);
      if isMeta {
        return METACHAIN_SHARD_ID;
      }
      var addr := AddressNumber(buffNeeded);
      shard := And(addr, maskHigh);
      if shard > numberOfShards - 1 {
        shard := And(addr, maskLow);
      }
      MasksSelectShard(this, addr);
      DigitsSuffice(numberOfShards);
      TailKeepsLowBits(address, numberOfShards, CeilLog2(numberOfShards));
      ShardInRange(numberOfShards, BigEndianValue(address));
    }
  }

  function CalculateMasks(numberOfShards: nat): (masks: (nat, nat))
    requires numberOfShards > 0
  {
    var k := CeilLog2(numberOfShards);
    (Pow2(k) - 1, if k == 0 then UINT32_RANGE - 1 else Pow2(k - 1) - 1)
  }

  function NewMultiShardCoordinator(numberOfShards: nat, selfId: nat): (r: Result<MultiShardCoordinator, Error>)
    requires numberOfShards < UINT32_RANGE && selfId < UINT32_RANGE
    ensures r.Ok? <==> numberOfShards >= 1 && (selfId < numberOfShards || selfId == METACHAIN_SHARD_ID)
    ensures r.Ok? ==> r.value.Valid() && r.value.selfId == selfId && r.value.numberOfShards == numberOfShards
    ensures r == Err(ErrInvalidNumberOfShards) <==> numberOfShards == 0
    ensures r.Err? && numberOfShards > 0 ==> r.error == ErrInvalidShardId
  {
    if numberOfShards < 1 then Err(ErrInvalidNumberOfShards)
    else if selfId >= numberOfShards && selfId != METACHAIN_SHARD_ID then Err(ErrInvalidShardId)
    else
      var (high, low) := CalculateMasks(numberOfShards);
      Ok(MultiShardCoordinator(high, low, selfId, numberOfShards))
  }

  // ---------------------------------------------------------------------------------------------
  // Every shard is reachable
  // ---------------------------------------------------------------------------------------------

  /** An address that ends with the number of a shard belongs to it. */
  lemma LastBytesChooseShard(n: nat, s: nat, front: seq<Byte>)
    requires s < n < UINT32_RANGE
    ensures ShardFor(n, BigEndianValue(front + BigEndianBytes(s, 4))) == s
  {
    hide LowBits, Pow2, BigEndianValue, BigEndianBytes, CeilLog2;
    Pow2Of32();
    Pow256IsPow2(4);
    BigEndianRoundTrip(s, 4);
    BigEndianConcat(front, BigEndianBytes(s, 4));
    var k := CeilLog2(n);
    DigitsSuffice(n);
    LowBitsIgnoreHigh(s, BigEndianValue(front), 32, k);
    LowBitsOfSmall(s, k);
  }

  /** Every shard has an address of every length from five bytes up. */
  lemma EveryShardHasAnAddress(n: nat, s: nat, length: nat) returns (address: seq<Byte>)
    requires s < n < UINT32_RANGE && length >= 5
    ensures |address| == length && !OnMetachain(n, address) && ShardFor(n, BigEndianValue(address)) == s
  {
    hide ShardFor, BigEndianValue, BigEndianBytes;
    var front := [1 as Byte] + seq(length - 5, _ => 0 as Byte);
    address := front + BigEndianBytes(s, 4);
    LastBytesChooseShard(n, s, front);
    assert |address| > 15 ==> address[..8][0] == 1;
  }

  /** An address of a given length can be on the metachain exactly when the identifier bytes leave
      the fifteen leading bytes free; with many shards no address qualifies. */
  lemma MetachainReachableIff(n: nat, length: nat)
    requires n > 0
    ensures (exists address: seq<Byte> :: |address| == length && OnMetachain(n, address))
            <==> n / 256 + 16 <= length
  {
    if BytesNeeded(n) + 15 <= length {
      var address := seq(length - BytesNeeded(n), _ => 0 as Byte)
                     + seq(BytesNeeded(n), _ => METACHAIN_SHARD_IDENTIFIER);
      assert OnMetachain(n, address);
    }
    forall address: seq<Byte> | |address| == length && OnMetachain(n, address)
      ensures BytesNeeded(n) + 15 <= length
    {
      assert address[10..15][4] == 0;
    }
  }

  /** Addresses of 32 bytes stop qualifying for the metachain at 4352 shards. */
  lemma NoMetachainFrom4352Shards()
    ensures forall address: seq<Byte> | |address| == 32 :: !OnMetachain(4352, address)
    ensures exists address: seq<Byte> :: |address| == 32 && OnMetachain(4351, address)
  {
    hide OnMetachain;
    MetachainReachableIff(4351, 32);
    MetachainReachableIff(4352, 32);
  }

  /** The address of the staking contract (vm/factory/factory.go): byte 9 is 1, the last two are 255. */
  function StakingScAddress(): (address: seq<Byte>)
    ensures |address| == 32
  {
    seq(32, i => if i == 9 then 1 else if i >= 30 then 255 else 0)
  }

  lemma StakingOnMetachainIff(n: nat)
    ensures OnMetachain(n, StakingScAddress()) <==> n < 512
  {
    hide OnMetachain;
    var address := StakingScAddress();
    OnMetachainIff(n, n / 256, address);
    assert address[29] == 0;
  }

  /** The staking contract is on the metachain exactly as long as there are fewer than 512 shards. */
  method StakingContractShard(numberOfShards: nat) returns (shard: nat)
    requires 0 < numberOfShards < UINT32_RANGE
    ensures shard == METACHAIN_SHARD_ID <==> numberOfShards < 512
  {
    hide OnMetachain, ShardFor, StakingScAddress;
    var made := NewMultiShardCoordinator(numberOfShards, 0);
    StakingOnMetachainIff(numberOfShards);
    shard := made.value.ComputeId(StakingScAddress());
  }
}
