/** The genesis allocation of nodes to the metachain and the shards (sharding/nodesSetup.go). */
module GenesisAllocation {
  import opened Arithmetic
  import opened BigEndian
  import opened Bitmaps
  import opened Wrappers
  import opened NodesCoordination

  datatype SetupError =
    | ErrCouldNotParsePubKey | ErrCouldNotParseAddress | ErrNegativeOrZeroConsensusGroupSize
    | ErrMinNodesPerShardSmallerThanConsensusSize | ErrNodesSizeSmallerThanMinNoOfNodes

  // ---------------------------------------------------------------------------------------------
  // Hexadecimal text
  // ---------------------------------------------------------------------------------------------

  function HexDigit(c: char): (value: Option<nat>)
    ensures value.Some? ==> value.value < 16
  {
    if '0' <= c <= '9' then Some(c as int - '0' as int)
    else if 'a' <= c <= 'f' then Some(c as int - 'a' as int + 10)
    else if 'A' <= c <= 'F' then Some(c as int - 'A' as int + 10)
    else None
  }

  /** `hex.DecodeString`: the bytes before the first malformed pair, and whether there is none. */
  function HexDecode(s: string): (seq<Byte>, bool) {
    if s == [] then ([], true)
    else if |s| == 1 || HexDigit(s[0]) == None || HexDigit(s[1]) == None then ([], false)
    else
      var (rest, ok) := HexDecode(s[2..]);
      ([(16 * HexDigit(s[0]).value + HexDigit(s[1]).value) as bv8] + rest, ok)
  }

  /** The hexadecimal digits and their values. */
  lemma HexDigits(c: char)
    ensures HexDigit('0') == Some(0) && HexDigit('9') == Some(9)
    ensures HexDigit('a') == HexDigit('A') == Some(10) && HexDigit('f') == HexDigit('F') == Some(15)
    ensures '0' <= c < '9' || 'a' <= c < 'f' || 'A' <= c < 'F' ==>
              HexDigit(c).Some? && HexDigit(c + 1 as char) == Some(HexDigit(c).value + 1)
    ensures HexDigit(c).Some? <==> '0' <= c <= '9' || 'a' <= c <= 'f' || 'A' <= c <= 'F'
  {
  }

  lemma HexPair(s: string) returns (b: Byte)
    requires |s| > 1 && HexDigit(s[0]) != None && HexDigit(s[1]) != None
    ensures HexDecode(s) == ([b] + HexDecode(s[2..]).0, HexDecode(s[2..]).1)
    ensures b as nat == 16 * HexDigit(s[0]).value + HexDigit(s[1]).value
  {
    hide HexDigit;
    b := (16 * HexDigit(s[0]).value + HexDigit(s[1]).value) as bv8;
    ByteOf(16 * HexDigit(s[0]).value + HexDigit(s[1]).value);
  }

  /** Each byte is spelled by its own pair of digits, the higher one first. */
  lemma {:induction false} HexBytes(s: string, i: nat)
    requires i < |HexDecode(s).0|
    ensures 2 * i + 1 < |s| && HexDigit(s[2 * i]).Some? && HexDigit(s[2 * i + 1]).Some?
    ensures HexDecode(s).0[i] as nat == 16 * HexDigit(s[2 * i]).value + HexDigit(s[2 * i + 1]).value
  {
    var b := HexPair(s);
    hide HexDecode, HexDigit;
    if i > 0 {
      HexBytes(s[2..], i - 1);
      assert s[2..][2 * (i - 1)] == s[2 * i] && s[2..][2 * (i - 1) + 1] == s[2 * i + 1];
    }
  }

  /** Decoding succeeds exactly on pairs of digits throughout, and otherwise stops at the first pair that is
      none. */
  lemma {:induction false} HexDecodeExact(s: string)
    ensures var (bytes, ok) := HexDecode(s);
            && 2 * |bytes| <= |s| && (ok <==> |s| == 2 * |bytes|)
            && (!ok ==> |s| == 2 * |bytes| + 1 || HexDigit(s[2 * |bytes|]) == None
                        || HexDigit(s[2 * |bytes| + 1]) == None)
  {
    hide HexDigit;
    if |s| > 1 && HexDigit(s[0]) != None && HexDigit(s[1]) != None {
      var b := HexPair(s);
      HexDecodeExact(s[2..]);
    }
  }

  // ---------------------------------------------------------------------------------------------
  // The configuration
  // ---------------------------------------------------------------------------------------------

  datatype InitialNode = InitialNode(
    pubKeyText: string, addressText: string,
    assignedShard: nat, pubKey: Option<seq<Byte>>, address: Option<seq<Byte>>)

  /** A node passes the parser: both texts are present and the address decodes. Nothing is asked of
      the key's digits, because the address overwrites the key's decoding error. */
  predicate NodeAccepted(node: InitialNode) {
    node.pubKeyText != "" && node.addressText != "" && HexDecode(node.addressText).1
  }

  function Decoded(node: InitialNode): InitialNode {
    node.(pubKey := Some(HexDecode(node.pubKeyText).0), address := Some(HexDecode(node.addressText).0))
  }

  datatype Sizes = Sizes(consensusGroupSize: nat, minNodesPerShard: nat,
                         metaChainConsensusGroupSize: nat, metaChainMinNodes: nat)

  /** The checks on the sizes, with the 32-bit addition of the two minima. */
  predicate SizesAccepted(sizes: Sizes, nrOfNodes: nat) {
    && 1 <= sizes.consensusGroupSize <= sizes.minNodesPerShard <= nrOfNodes
    && 1 <= sizes.metaChainConsensusGroupSize <= sizes.metaChainMinNodes
    && (sizes.metaChainMinNodes + sizes.minNodesPerShard) % UINT32_RANGE <= nrOfNodes
  }

  /** The 32-bit addition does not wrap around. */
  predicate NoWrap(sizes: Sizes) {
    sizes.metaChainMinNodes + sizes.minNodesPerShard < UINT32_RANGE
  }

  // ---------------------------------------------------------------------------------------------
  // The allocation, as a function of the position in the list
  // ---------------------------------------------------------------------------------------------

  function ShardCount(n: nat, meta: nat, min: nat): nat
    requires meta <= n && 0 < min
  {
    (n - meta) / min
  }

  /** Metachain first, then one block of `min` nodes per shard, then the rest round robin. */
  function ShardOf(i: nat, n: nat, meta: nat, min: nat): nat
    requires meta <= n && 0 < min && ShardCount(n, meta, min) > 0
  {
    var shards := ShardCount(n, meta, min);
    if i < meta then METACHAIN_SHARD_ID
    else if i < meta + shards * min then (i - meta) / min
    else (i - (meta + shards * min)) % shards
  }

  lemma BlockNode(id: nat, start: nat, n: nat, meta: nat, min: nat, shard: nat)
    requires meta <= n && 0 < min && shard < ShardCount(n, meta, min) && start == meta + shard * min
    requires start <= id < start + min <= meta + ShardCount(n, meta, min) * min
    ensures ShardOf(id, n, meta, min) == shard
  {
    DivModUnique(id - meta, min, shard, id - start);
  }

  ghost predicate Allocated(nodes: seq<InitialNode>, base: seq<InitialNode>, upTo: nat, n: nat, meta: nat, min: nat)
    requires meta <= n && 0 < min && ShardCount(n, meta, min) > 0
  {
    && |nodes| == |base| && upTo <= |base|
    && (forall i: nat | i < upTo :: nodes[i] == base[i].(assignedShard := ShardOf(i, n, meta, min)))
    && (forall i: nat | upTo <= i < |base| :: nodes[i] == base[i])
  }

  // ---------------------------------------------------------------------------------------------
  // Counting how many of the first positions a shard receives
  // ---------------------------------------------------------------------------------------------

  /** How often `s` occurs among the first `k` values of `f`. */
  function Occurrences(f: nat -> nat, s: nat, k: nat): (c: nat)
    ensures c <= k
  {
    if k == 0 then 0 else Occurrences(f, s, k - 1) + (if f(k - 1) == s then 1 else 0)
  }

  lemma {:induction false} OccurrencesSplit(f: nat -> nat, g: nat -> nat, s: nat, a: nat, b: nat)
    requires forall i: nat | i < b :: f(a + i) == g(i)
    ensures Occurrences(f, s, a + b) == Occurrences(f, s, a) + Occurrences(g, s, b)
  {
    if b > 0 {
      OccurrencesSplit(f, g, s, a, b - 1);
      assert f(a + (b - 1)) == g(b - 1);
    }
  }

  lemma {:induction false} OccurrencesNone(f: nat -> nat, s: nat, k: nat)
    requires forall i: nat | i < k :: f(i) != s
    ensures Occurrences(f, s, k) == 0
  {
    if k > 0 {
      OccurrencesNone(f, s, k - 1);
    }
  }

  lemma {:induction false} OccurrencesAll(f: nat -> nat, s: nat, k: nat)
    requires forall i: nat | i < k :: f(i) == s
    ensures Occurrences(f, s, k) == k
  {
    if k > 0 {
      OccurrencesAll(f, s, k - 1);
    }
  }

  function Block(min: nat): nat -> nat
    requires min > 0
  {
    i => i / min
  }

  function Cycle(shards: nat): nat -> nat
    requires shards > 0
  {
    i => i % shards
  }

  lemma {:induction false} BlockRow(min: nat, row: nat, s: nat, k: nat)
    requires k <= min && 0 < min
    ensures Occurrences(Block(min), s, row * min + k)
         == Occurrences(Block(min), s, row * min) + (if s == row then k else 0)
  {
    if k > 0 {
      BlockRow(min, row, s, k - 1);
      DivModUnique(row * min + (k - 1), min, row, k - 1);
    }
  }

  /** Blocks of `min` give every shard `min` positions. */
  lemma {:induction false} BlockOccurrences(min: nat, shards: nat, s: nat)
    requires min > 0
    ensures Occurrences(Block(min), s, shards * min) == if s < shards then min else 0
  {
    if shards > 0 {
      hide Occurrences, Block;
      MulStep(shards, min);
      BlockOccurrences(min, shards - 1, s);
      BlockRow(min, shards - 1, s, min);
    }
  }

  /** The round robin gives every shard its share, rounded down or up by one. */
  lemma {:induction false} CycleOccurrences(shards: nat, s: nat, k: nat)
    requires s < shards
    ensures Occurrences(Cycle(shards), s, k) == k / shards + (if s < k % shards then 1 else 0)
  {
    if k == 0 {
      DivModUnique(0, shards, 0, 0);
    } else {
      CycleOccurrences(shards, s, k - 1);
      DivModStep(k - 1, shards);
    }
  }

  function ShardFunction(n: nat, meta: nat, min: nat): nat -> nat
    requires meta <= n && 0 < min && ShardCount(n, meta, min) > 0
  {
    i => ShardOf(i, n, meta, min)
  }

  /** Number of nodes of a shard, in closed form. */
  function ShardSize(s: nat, n: nat, meta: nat, min: nat): nat
    requires meta <= n && 0 < min && ShardCount(n, meta, min) > 0
  {
    var shards := ShardCount(n, meta, min);
    var rest := (n - meta) % min;
    min + rest / shards + (if s < rest % shards then 1 else 0)
  }

  lemma RestOf(n: nat, meta: nat, min: nat)
    requires meta <= n && 0 < min
    ensures meta + ShardCount(n, meta, min) * min + (n - meta) % min == n
  {
    var x := n - meta;
    assert x == min * (x / min) + x % min;
  }

  lemma ShardsBelowMetachain(n: nat, meta: nat, min: nat)
    requires meta <= n < UINT32_RANGE && 0 < min
    ensures ShardCount(n, meta, min) <= METACHAIN_SHARD_ID
  {
    RestOf(n, meta, min);
    var shards := ShardCount(n, meta, min);
    if shards > 0 {
      MulAtLeast(min, shards);
      assert min * shards == shards * min;
    }
  }

  lemma InBlock(i: nat, n: nat, meta: nat, min: nat)
    requires meta <= n && 0 < min && i < ShardCount(n, meta, min) * min
    ensures ShardCount(n, meta, min) > 0 && ShardFunction(n, meta, min)(meta + i) == Block(min)(i)
  {
  }

  lemma InRest(i: nat, n: nat, meta: nat, min: nat)
    requires meta <= n && 0 < min && ShardCount(n, meta, min) > 0
    ensures ShardFunction(n, meta, min)(meta + ShardCount(n, meta, min) * min + i) == Cycle(ShardCount(n, meta, min))(i)
  {
  }

  lemma OnMetachain(i: nat, n: nat, meta: nat, min: nat)
    requires meta <= n && 0 < min && ShardCount(n, meta, min) > 0 && i < meta
    ensures ShardFunction(n, meta, min)(i) == METACHAIN_SHARD_ID
  {
  }

  /** A part without occurrences, followed by two others. */
  lemma OccurrencesInParts(f: nat -> nat, g: nat -> nat, h: nat -> nat, s: nat, a: nat, b: nat, c: nat)
    requires forall i: nat | i < a :: f(i) != s
    requires forall i: nat | i < b :: f(a + i) == g(i)
    requires forall i: nat | i < c :: f(a + b + i) == h(i)
    ensures Occurrences(f, s, a + b + c) == Occurrences(g, s, b) + Occurrences(h, s, c)
  {
    hide Occurrences;
    OccurrencesNone(f, s, a);
    OccurrencesSplit(f, g, s, a, b);
    OccurrencesSplit(f, h, s, a + b, c);
  }

  /** Every shard gets exactly its closed-form number of nodes. */
  lemma ShardOccurrences(s: nat, n: nat, meta: nat, min: nat)
    requires meta <= n < UINT32_RANGE && 0 < min && s < ShardCount(n, meta, min)
    ensures Occurrences(ShardFunction(n, meta, min), s, n) == ShardSize(s, n, meta, min)
  {
    var f := ShardFunction(n, meta, min);
    var shards := ShardCount(n, meta, min);
    var rest := (n - meta) % min;
    RestOf(n, meta, min);
    ShardsBelowMetachain(n, meta, min);
    hide Occurrences, ShardFunction, Block, Cycle, ShardCount;
    forall i: nat | i < meta ensures f(i) != s {
      OnMetachain(i, n, meta, min);
    }
    var inBlocks := shards * min;
    forall i: nat | i < inBlocks ensures f(meta + i) == Block(min)(i) {
      InBlock(i, n, meta, min);
    }
    forall i: nat | i < rest ensures f(meta + inBlocks + i) == Cycle(shards)(i) {
      InRest(i, n, meta, min);
    }
    OccurrencesInParts(f, Block(min), Cycle(shards), s, meta, inBlocks, rest);
    BlockOccurrences(min, shards, s);
    CycleOccurrences(shards, s, rest);
  }

  /** A node after the metachain's goes to a real shard. */
  lemma ShardOfInRange(i: nat, n: nat, meta: nat, min: nat)
    requires meta <= i < n < UINT32_RANGE && 0 < min && ShardCount(n, meta, min) > 0
    ensures ShardOf(i, n, meta, min) < ShardCount(n, meta, min)
  {
    var shards := ShardCount(n, meta, min);
    if i < meta + shards * min {
      DivBelow(i - meta, shards, min);
    }
  }

  /** The metachain gets exactly the first `meta` nodes. */
  lemma MetachainOccurrences(n: nat, meta: nat, min: nat)
    requires meta <= n < UINT32_RANGE && 0 < min && ShardCount(n, meta, min) > 0
    ensures Occurrences(ShardFunction(n, meta, min), METACHAIN_SHARD_ID, n) == meta
  {
    hide Occurrences;
    var f := ShardFunction(n, meta, min);
    OccurrencesAll(f, METACHAIN_SHARD_ID, meta);
    ShardsBelowMetachain(n, meta, min);
    var later: nat -> nat := i => f(meta + i);
    forall i: nat | i < n - meta ensures later(i) != METACHAIN_SHARD_ID {
      ShardOfInRange(meta + i, n, meta, min);
    }
    OccurrencesNone(later, METACHAIN_SHARD_ID, n - meta);
    OccurrencesSplit(f, later, METACHAIN_SHARD_ID, meta, n - meta);
  }

  /** Who goes where: the first `meta` nodes to the metachain, the next `min` to shard 0, and so on, and the
      rest in turn. */
  lemma Placement(n: nat, meta: nat, min: nat, s: nat, j: nat)
    requires meta <= n && 0 < min && ShardCount(n, meta, min) > 0
    ensures j < meta ==> ShardOf(j, n, meta, min) == METACHAIN_SHARD_ID
    ensures s < (n - meta) / min && j < min ==> ShardOf(meta + s * min + j, n, meta, min) == s
    ensures ShardOf(meta + (n - meta) / min * min + j, n, meta, min) == j % ((n - meta) / min)
  {
    var shards := (n - meta) / min;
    if s < shards && j < min {
      MulNonNegative(s, min);
      MulNonNegative(shards - s - 1, min);
      assert shards * min == s * min + min + (shards - s - 1) * min;
      BlockNode(meta + s * min + j, meta + s * min, n, meta, min, s);
    }
    MulNonNegative(shards, min);
  }

  lemma AllocateOne(nodes: seq<InitialNode>, base: seq<InitialNode>, id: nat, n: nat, meta: nat, min: nat, shard: nat)
    requires meta <= n && 0 < min && ShardCount(n, meta, min) > 0 && |nodes| == |base| && id < |base|
    requires Allocated(nodes, base, id, n, meta, min) && ShardOf(id, n, meta, min) == shard
    ensures Allocated(nodes[id := nodes[id].(assignedShard := shard)], base, id + 1, n, meta, min)
  {
    hide ShardOf, ShardCount;
  }

  // ---------------------------------------------------------------------------------------------
  // The nodes map
  // ---------------------------------------------------------------------------------------------

  predicate Listed(node: InitialNode) {
    node.pubKey.Some? && node.address.Some?
  }

  /** The nodes of a shard, in list order. */
  function InfoFor(nodes: seq<InitialNode>, s: nat): (info: seq<Validator>) {
    if nodes == [] then []
    else
      var last := nodes[|nodes| - 1];
      InfoFor(nodes[..|nodes| - 1], s)
      + (if Listed(last) && last.assignedShard == s then [Validator(last.pubKey.value, last.address.value)] else [])
  }

  /** The map lists under every shard exactly the nodes assigned to it. */
  ghost predicate Maps(info: NodesMap, nodes: seq<InitialNode>) {
    forall s: nat :: NodesOf(info, s) == InfoFor(nodes, s)
  }

  lemma {:induction false} InfoSize(nodes: seq<InitialNode>, f: nat -> nat, s: nat)
    requires forall i: nat | i < |nodes| :: Listed(nodes[i]) && nodes[i].assignedShard == f(i)
    ensures |InfoFor(nodes, s)| == Occurrences(f, s, |nodes|)
  {
    if nodes != [] {
      InfoSize(nodes[..|nodes| - 1], f, s);
    }
  }

  /** Every node is listed under its shard with its own key and address, at the place that the number of
      earlier nodes of that shard gives it. */
  lemma {:induction false} InfoByRank(nodes: seq<InitialNode>, f: nat -> nat, i: nat)
    requires forall k: nat | k < |nodes| :: Listed(nodes[k]) && nodes[k].assignedShard == f(k)
    requires i < |nodes|
    ensures var info, rank := InfoFor(nodes, f(i)), Occurrences(f, f(i), i);
            && |info| == Occurrences(f, f(i), |nodes|) && rank < |info|
            && nodes[i].pubKey == Some(info[rank].pubKey) && nodes[i].address == Some(info[rank].address)
  {
    var n := |nodes| - 1;
    InfoSize(nodes, f, f(i));
    InfoSize(nodes[..n], f, f(i));
    if i < n {
      InfoByRank(nodes[..n], f, i);
    }
  }

  /** Distinct keys in the list stay distinct within a shard. */
  lemma {:induction false} InfoMember(nodes: seq<InitialNode>, s: nat, v: Validator)
    requires v in InfoFor(nodes, s)
    ensures exists i :: 0 <= i < |nodes| && nodes[i].pubKey == Some(v.pubKey)
  {
    var k := |nodes| - 1;
    if v in InfoFor(nodes[..k], s) {
      InfoMember(nodes[..k], s, v);
      var i :| 0 <= i < k && nodes[..k][i].pubKey == Some(v.pubKey);
      assert nodes[i].pubKey == Some(v.pubKey);
    } else {
      assert nodes[k].pubKey == Some(v.pubKey);
    }
  }

  lemma {:induction false} InfoDistinct(nodes: seq<InitialNode>, s: nat)
    requires forall i, j | 0 <= i < j < |nodes| :: nodes[i].pubKey != nodes[j].pubKey
    ensures DistinctKeys(InfoFor(nodes, s))
  {
    if nodes != [] {
      var k := |nodes| - 1;
      InfoDistinct(nodes[..k], s);
      var earlier := InfoFor(nodes[..k], s);
      forall i | 0 <= i < |earlier| ensures Some(earlier[i].pubKey) != nodes[k].pubKey {
        InfoMember(nodes[..k], s, earlier[i]);
      }
    }
  }

  function SumOccurrences(f: nat -> nat, shards: nat, k: nat): nat {
    if shards == 0 then 0 else SumOccurrences(f, shards - 1, k) + Occurrences(f, shards - 1, k)
  }

  lemma {:induction false} SumStep(f: nat -> nat, shards: nat, k: nat)
    ensures SumOccurrences(f, shards, k + 1) == SumOccurrences(f, shards, k) + (if f(k) < shards then 1 else 0)
  {
    if shards > 0 {
      SumStep(f, shards - 1, k);
    }
  }

  lemma {:induction false} SumEmpty(f: nat -> nat, shards: nat)
    ensures SumOccurrences(f, shards, 0) == 0
  {
    if shards > 0 {
      SumEmpty(f, shards - 1);
    }
  }

  /** A function into the shards and the metachain is counted once by them together. */
  lemma {:induction false} PartitionCount(f: nat -> nat, shards: nat, k: nat)
    requires shards <= METACHAIN_SHARD_ID
    requires forall i: nat | i < k :: f(i) < shards || f(i) == METACHAIN_SHARD_ID
    ensures SumOccurrences(f, shards, k) + Occurrences(f, METACHAIN_SHARD_ID, k) == k
  {
    if k == 0 {
      SumEmpty(f, shards);
    } else {
      PartitionCount(f, shards, k - 1);
      SumStep(f, shards, k - 1);
    }
  }

  /** Number of nodes the map lists under the shards below `shards`. */
  function ListedUnder(info: NodesMap, shards: nat): nat {
    if shards == 0 then 0 else ListedUnder(info, shards - 1) + |NodesOf(info, shards - 1)|
  }

  /** Every shard lists as many nodes as `f` sends to it. */
  ghost predicate Counts(info: NodesMap, f: nat -> nat, n: nat) {
    forall s: nat :: |NodesOf(info, s)| == Occurrences(f, s, n)
  }

  lemma MapsCounts(info: NodesMap, nodes: seq<InitialNode>, f: nat -> nat)
    requires Maps(info, nodes)
    requires forall i: nat | i < |nodes| :: Listed(nodes[i]) && nodes[i].assignedShard == f(i)
    ensures Counts(info, f, |nodes|)
  {
    forall s: nat ensures |NodesOf(info, s)| == Occurrences(f, s, |nodes|) {
      InfoSize(nodes, f, s);
    }
  }

  lemma {:induction false} ListedUnderCounts(info: NodesMap, f: nat -> nat, n: nat, shards: nat)
    requires Counts(info, f, n)
    ensures ListedUnder(info, shards) == SumOccurrences(f, shards, n)
  {
    if shards > 0 {
      ListedUnderCounts(info, f, n, shards - 1);
    }
  }

  /** What a genesis allocation promises. */
  ghost predicate Balanced(info: NodesMap, shards: nat, sizes: Sizes, n: nat) {
    && 1 <= shards <= METACHAIN_SHARD_ID
    && |NodesOf(info, METACHAIN_SHARD_ID)| == sizes.metaChainMinNodes
    && (forall s: nat | s < shards :: |NodesOf(info, s)| >= sizes.minNodesPerShard)
    && (forall s: nat, t: nat | s < shards && t < shards ::
          |NodesOf(info, s)| <= |NodesOf(info, t)| + 1)
    && ListedUnder(info, shards) + |NodesOf(info, METACHAIN_SHARD_ID)| == n
    && SizesSuffice(info, shards, sizes.consensusGroupSize, sizes.metaChainConsensusGroupSize)
  }

  lemma ShareNonNegative(rest: nat, shards: nat)
    requires shards > 0
    ensures rest / shards >= 0
  {
  }

  lemma CountsBalanced(info: NodesMap, sizes: Sizes, n: nat)
    requires n < UINT32_RANGE && sizes.metaChainMinNodes <= n
    requires 1 <= sizes.consensusGroupSize <= sizes.minNodesPerShard
    requires 1 <= sizes.metaChainConsensusGroupSize <= sizes.metaChainMinNodes
    requires ShardCount(n, sizes.metaChainMinNodes, sizes.minNodesPerShard) > 0
    requires Counts(info, ShardFunction(n, sizes.metaChainMinNodes, sizes.minNodesPerShard), n)
    ensures Balanced(info, ShardCount(n, sizes.metaChainMinNodes, sizes.minNodesPerShard), sizes, n)
  {
    var meta, min := sizes.metaChainMinNodes, sizes.minNodesPerShard;
    var shards := ShardCount(n, meta, min);
    var f := ShardFunction(n, meta, min);
    ShardsBelowMetachain(n, meta, min);
    var share := ((n - meta) % min) / shards;
    ShareNonNegative((n - meta) % min, shards);
    forall s: nat | s < shards ensures min + share <= |NodesOf(info, s)| <= min + share + 1 {
      ShardOccurrences(s, n, meta, min);
    }
    MetachainOccurrences(n, meta, min);
    forall i: nat | i < n ensures f(i) < shards || f(i) == METACHAIN_SHARD_ID {
      if i >= meta {
        ShardOfInRange(i, n, meta, min);
      }
    }
    PartitionCount(f, shards, n);
    ListedUnderCounts(info, f, n, shards);
  }

  /** Allocated nodes, mapped by shard, are balanced: nobody is left out or listed twice, every
      shard reaches its minimum, sizes differ by at most one, and the coordinator accepts the map. */
  lemma AllocationBalanced(info: NodesMap, nodes: seq<InitialNode>, base: seq<InitialNode>, sizes: Sizes)
    requires |nodes| < UINT32_RANGE
    requires SizesAccepted(sizes, |nodes|) && NoWrap(sizes)
    requires ShardCount(|nodes|, sizes.metaChainMinNodes, sizes.minNodesPerShard) > 0
    requires Allocated(nodes, base, |nodes|, |nodes|, sizes.metaChainMinNodes, sizes.minNodesPerShard)
    requires forall i: nat | i < |nodes| :: Listed(nodes[i])
    requires Maps(info, nodes)
    ensures Balanced(info, ShardCount(|nodes|, sizes.metaChainMinNodes, sizes.minNodesPerShard), sizes, |nodes|)
  {
    var n, meta, min := |nodes|, sizes.metaChainMinNodes, sizes.minNodesPerShard;
    MapsCounts(info, nodes, ShardFunction(n, meta, min));
    CountsBalanced(info, sizes, n);
  }

  /** Once the configuration is accepted, there is room for a shard exactly when the 32-bit addition
      of the minima did not wrap around. */
  lemma RoomForAShardIff(sizes: Sizes, n: nat)
    requires n < UINT32_RANGE && SizesAccepted(sizes, n)
    requires sizes.metaChainMinNodes < UINT32_RANGE
    ensures NoWrap(sizes) <==>
            sizes.metaChainMinNodes <= n && ShardCount(n, sizes.metaChainMinNodes, sizes.minNodesPerShard) > 0
  {
    var meta, min := sizes.metaChainMinNodes, sizes.minNodesPerShard;
    if meta <= n {
      RestOf(n, meta, min);
      if ShardCount(n, meta, min) > 0 {
        MulAtLeast(ShardCount(n, meta, min), min);
      }
    }
  }

  /** The wrap-around does get through: a configuration of one node that asks for 2^32 of them. */
  lemma WrapAccepted()
    ensures var sizes := Sizes(1, 1, 1, 0xFFFF_FFFF);
            SizesAccepted(sizes, 1) && !NoWrap(sizes)
  {
  }

  /** A key that is not hexadecimal gets through when its node's address is, and becomes the bytes
      before the first bad pair; two different texts then become the same key. */
  lemma MalformedKeysAccepted()
    ensures var a := InitialNode("zz", "00", 0, None, None);
            var b := InitialNode("xx", "00", 0, None, None);
            && NodeAccepted(a) && NodeAccepted(b)
            && !HexDecode(a.pubKeyText).1 && a.pubKeyText != b.pubKeyText
            && Decoded(a).pubKey == Decoded(b).pubKey
  {
    assert HexDecode("00").1 by { assert "00"[2..] == ""; }
    assert HexDecode("zz") == ([], false) && HexDecode("xx") == ([], false);
    assert "zz"[0] != "xx"[0];
  }

  // ---------------------------------------------------------------------------------------------
  // The setup itself
  // ---------------------------------------------------------------------------------------------

  datatype Outcome = Ready | Rejected(error: SetupError) | Panicked

  /** The first node that does not pass the parser. */
  ghost predicate FirstBad(nodes: seq<InitialNode>, i: int) {
    && 0 <= i < |nodes| && !NodeAccepted(nodes[i])
    && forall j | 0 <= j < i :: NodeAccepted(nodes[j])
  }

  lemma ShardBlockFits(current: nat, shards: nat, min: nat)
    requires current < shards
    ensures current * min + min <= shards * min
  {
    MulNonNegative(shards - current - 1, min);
    assert shards * min == current * min + min + (shards - current - 1) * min;
  }

  class NodesSetup {
    const sizes: Sizes
    var initialNodes: seq<InitialNode>
    var nrOfShards: nat
    var nrOfNodes: nat
    var nrOfMetaChainNodes: nat
    var allNodesInfo: NodesMap

    constructor (sizes: Sizes, nodes: seq<InitialNode>)
      ensures this.sizes == sizes && initialNodes == nodes
    {
      this.sizes := sizes;
      initialNodes := nodes;
      nrOfShards := 0;
      nrOfNodes := 0;
      nrOfMetaChainNodes := 0;
      allNodesInfo := map[];
    }

    method ProcessConfig() returns (err: Option<SetupError>)
      requires |initialNodes| < UINT32_RANGE
      modifies this
      ensures var texts, n := old(initialNodes), |old(initialNodes)|;
              err == None <==>
              && (forall i | 0 <= i < n ::
                    texts[i].pubKeyText != "" && texts[i].addressText != "" && HexDecode(texts[i].addressText).1)
              && 1 <= sizes.consensusGroupSize <= sizes.minNodesPerShard <= n
              && 1 <= sizes.metaChainConsensusGroupSize <= sizes.metaChainMinNodes
              && (sizes.metaChainMinNodes + sizes.minNodesPerShard) % 0x1_0000_0000 <= n
      ensures err == None ==>
              var texts := old(initialNodes);
              && |initialNodes| == |texts| == nrOfNodes
              && forall i | 0 <= i < |texts| ::
                   initialNodes[i] == texts[i].(pubKey := Some(HexDecode(texts[i].pubKeyText).0),
                                                address := Some(HexDecode(texts[i].addressText).0))
      ensures var texts := old(initialNodes);
              && (err == Some(ErrCouldNotParsePubKey) <==>
                  exists i :: FirstBad(texts, i) && (texts[i].pubKeyText == "" || !HexDecode(texts[i].addressText).1))
              && (err == Some(ErrCouldNotParseAddress) <==>
                  exists i :: FirstBad(texts, i) && texts[i].pubKeyText != "" && texts[i].addressText == "")
    {
      ghost var texts := initialNodes;
      nrOfNodes := 0;
      nrOfMetaChainNodes := 0;
      for i := 0 to |initialNodes|
        invariant |initialNodes| == |texts| && nrOfNodes == i
        invariant forall j | 0 <= j < i :: NodeAccepted(texts[j]) && initialNodes[j] == Decoded(texts[j])
        invariant forall j | i <= j < |texts| :: initialNodes[j] == texts[j]
      {
        var node := initialNodes[i];
        var (key, _) := HexDecode(node.pubKeyText);
        var (address, ok) := HexDecode(node.addressText);
        initialNodes := initialNodes[i := node.(pubKey := Some(key), address := Some(address))];
        if node.pubKeyText == "" || !ok {
          initialNodes := initialNodes[i := initialNodes[i].(pubKey := None)];
          assert FirstBad(texts, i);
          return Some(ErrCouldNotParsePubKey);
        }
        if node.addressText == "" || !ok {
          initialNodes := initialNodes[i := initialNodes[i].(address := None)];
          assert FirstBad(texts, i);
          return Some(ErrCouldNotParseAddress);
        }
        nrOfNodes := nrOfNodes + 1;
      }
      if sizes.consensusGroupSize < 1 {
        return Some(ErrNegativeOrZeroConsensusGroupSize);
      }
      if sizes.minNodesPerShard < sizes.consensusGroupSize {
        return Some(ErrMinNodesPerShardSmallerThanConsensusSize);
      }
      if nrOfNodes < sizes.minNodesPerShard {
        return Some(ErrNodesSizeSmallerThanMinNoOfNodes);
      }
      if sizes.metaChainConsensusGroupSize < 1 {
        return Some(ErrNegativeOrZeroConsensusGroupSize);
      }
      if sizes.metaChainMinNodes < sizes.metaChainConsensusGroupSize {
        return Some(ErrMinNodesPerShardSmallerThanConsensusSize);
      }
      var totalMinNodes := (sizes.metaChainMinNodes + sizes.minNodesPerShard) % UINT32_RANGE;
      if nrOfNodes < totalMinNodes {
        return Some(ErrNodesSizeSmallerThanMinNoOfNodes);
      }
      return None;
    }

    /** Gives the first nodes to the metachain; `ok` is false when the list is too short to index. */
    method ProcessMetaChainAssigment() returns (ok: bool)
      requires forall i | 0 <= i < |initialNodes| :: Listed(initialNodes[i])
      modifies this`initialNodes, this`nrOfMetaChainNodes
      ensures ok <==> sizes.metaChainMinNodes <= |initialNodes|
      ensures |initialNodes| == |old(initialNodes)|
      ensures ok ==> nrOfMetaChainNodes == sizes.metaChainMinNodes
      ensures ok ==> forall i | 0 <= i < |initialNodes| ::
                initialNodes[i] == if i < nrOfMetaChainNodes
                                   then old(initialNodes)[i].(assignedShard := METACHAIN_SHARD_ID)
                                   else old(initialNodes)[i]
    {
      nrOfMetaChainNodes := 0;
      for id := 0 to sizes.metaChainMinNodes
        invariant nrOfMetaChainNodes == id <= |initialNodes| == |old(initialNodes)|
        invariant forall i | 0 <= i < |initialNodes| ::
                    initialNodes[i] == if i < id
                                       then old(initialNodes)[i].(assignedShard := METACHAIN_SHARD_ID)
                                       else old(initialNodes)[i]
      {
        if id >= |initialNodes| {
          return false;
        }
        if initialNodes[id].pubKey.Some? {
          initialNodes := initialNodes[id := initialNodes[id].(assignedShard := METACHAIN_SHARD_ID)];
          nrOfMetaChainNodes := nrOfMetaChainNodes + 1;
        }
      }
      return true;
    }

    /** The round-robin loop. */
    method AllocateRest(ghost base: seq<InitialNode>, countSetNodes: nat) returns (ok: bool)
      requires 0 < sizes.minNodesPerShard
      requires nrOfNodes == |initialNodes| && nrOfMetaChainNodes <= nrOfNodes
      requires nrOfShards == ShardCount(nrOfNodes, nrOfMetaChainNodes, sizes.minNodesPerShard)
      requires countSetNodes == nrOfMetaChainNodes + nrOfShards * sizes.minNodesPerShard <= nrOfNodes
      requires |base| == |initialNodes|
      requires nrOfShards > 0 ==>
                 Allocated(initialNodes, base, countSetNodes, nrOfNodes, nrOfMetaChainNodes, sizes.minNodesPerShard)
      modifies this`initialNodes
      ensures |initialNodes| == |base|
      ensures ok <==> nrOfShards > 0 || nrOfNodes == countSetNodes
      ensures nrOfShards > 0 ==>
                Allocated(initialNodes, base, nrOfNodes, nrOfNodes, nrOfMetaChainNodes, sizes.minNodesPerShard)
    {
      var currentShard: nat := 0;
      for i := countSetNodes to nrOfNodes
        invariant |initialNodes| == |base|
        invariant nrOfShards == 0 ==> i == countSetNodes
        invariant nrOfShards > 0 ==> currentShard == (i - countSetNodes) % nrOfShards
        invariant nrOfShards > 0 ==>
          Allocated(initialNodes, base, i, nrOfNodes, nrOfMetaChainNodes, sizes.minNodesPerShard)
      {
        initialNodes := initialNodes[i := initialNodes[i].(assignedShard := currentShard)];
        if nrOfShards == 0 {
          return false;
        }
        DivModStep(i - countSetNodes, nrOfShards);
        WrapMod(currentShard + 1, nrOfShards);
        currentShard := (currentShard + 1) % nrOfShards;
      }
      return true;
    }

    /** The inner loop of the block phase. */
    method FillBlock(ghost base: seq<InitialNode>, currentShard: nat, start: nat) returns (countSetNodes: nat)
      requires 0 < sizes.minNodesPerShard
      requires nrOfNodes == |initialNodes| && nrOfMetaChainNodes <= nrOfNodes
      requires nrOfShards == ShardCount(nrOfNodes, nrOfMetaChainNodes, sizes.minNodesPerShard)
      requires currentShard < nrOfShards
      requires start == nrOfMetaChainNodes + currentShard * sizes.minNodesPerShard
      requires start + sizes.minNodesPerShard <= nrOfMetaChainNodes + nrOfShards * sizes.minNodesPerShard <= nrOfNodes
      requires forall i | 0 <= i < |initialNodes| :: Listed(initialNodes[i])
      requires Allocated(initialNodes, base, start, nrOfNodes, nrOfMetaChainNodes, sizes.minNodesPerShard)
      modifies this`initialNodes
      ensures countSetNodes == start + sizes.minNodesPerShard
      ensures Allocated(initialNodes, base, countSetNodes, nrOfNodes, nrOfMetaChainNodes, sizes.minNodesPerShard)
      ensures forall i | 0 <= i < |initialNodes| :: Listed(initialNodes[i])
    {
      var n, meta, min := nrOfNodes, nrOfMetaChainNodes, sizes.minNodesPerShard;
      countSetNodes := start;
      assert meta + (currentShard + 1) * min == start + min;
      assert |initialNodes| == |base|;
      hide Allocated, ShardOf;
      for id := start to meta + (currentShard + 1) * min
        invariant countSetNodes == id <= start + min && |initialNodes| == |base|
        invariant Allocated(initialNodes, base, id, n, meta, min)
        invariant forall i | 0 <= i < |initialNodes| :: Listed(initialNodes[i])
      {
        assert Listed(initialNodes[id]);
        if initialNodes[id].pubKey.Some? {
          BlockNode(id, start, n, meta, min, currentShard);
          AllocateOne(initialNodes, base, id, n, meta, min, currentShard);
          initialNodes := initialNodes[id := initialNodes[id].(assignedShard := currentShard)];
          countSetNodes := countSetNodes + 1;
        }
      }
    }

    /** One block of nodes per shard, then the rest round robin; `ok` is false when the round robin
        would divide by a shard count of zero. */
    method ProcessShardAssignment(ghost base: seq<InitialNode>) returns (ok: bool)
      requires 0 < sizes.minNodesPerShard
      requires nrOfNodes == |initialNodes| && nrOfMetaChainNodes <= nrOfNodes
      requires forall i | 0 <= i < |initialNodes| :: Listed(initialNodes[i])
      requires |base| == |initialNodes|
      requires forall i | 0 <= i < |base| ::
                 initialNodes[i] == if i < nrOfMetaChainNodes then base[i].(assignedShard := METACHAIN_SHARD_ID)
                                    else base[i]
      modifies this`initialNodes, this`nrOfShards
      ensures nrOfShards == ShardCount(nrOfNodes, nrOfMetaChainNodes, sizes.minNodesPerShard)
      ensures ok <==> nrOfShards > 0 || nrOfNodes == nrOfMetaChainNodes
      ensures nrOfShards > 0 ==>
                Allocated(initialNodes, base, nrOfNodes, nrOfNodes, nrOfMetaChainNodes, sizes.minNodesPerShard)
    {
      var currentShard := 0;
      var countSetNodes := nrOfMetaChainNodes;
      nrOfShards := (nrOfNodes - nrOfMetaChainNodes) / sizes.minNodesPerShard;
      RestOf(nrOfNodes, nrOfMetaChainNodes, sizes.minNodesPerShard);
      assert nrOfShards > 0 ==>
        Allocated(initialNodes, base, countSetNodes, nrOfNodes, nrOfMetaChainNodes, sizes.minNodesPerShard);
      hide Allocated;
      while currentShard < nrOfShards
        invariant currentShard <= nrOfShards == ShardCount(nrOfNodes, nrOfMetaChainNodes, sizes.minNodesPerShard)
        invariant countSetNodes == nrOfMetaChainNodes + currentShard * sizes.minNodesPerShard
        invariant forall i | 0 <= i < |initialNodes| :: Listed(initialNodes[i])
        invariant |initialNodes| == |base|
        invariant nrOfShards > 0 ==>
          Allocated(initialNodes, base, countSetNodes, nrOfNodes, nrOfMetaChainNodes, sizes.minNodesPerShard)
      {
        ShardBlockFits(currentShard, nrOfShards, sizes.minNodesPerShard);
        MulStep(currentShard + 1, sizes.minNodesPerShard);
        countSetNodes := FillBlock(base, currentShard, countSetNodes);
        currentShard := currentShard + 1;
      }
      ok := AllocateRest(base, countSetNodes);
    }

    method CreateInitialNodesInfo()
      modifies this`allNodesInfo
      ensures Maps(allNodesInfo, initialNodes)
    {
      allNodesInfo := map[];
      for i := 0 to |initialNodes|
        invariant Maps(allNodesInfo, initialNodes[..i])
      {
        var node := initialNodes[i];
        ghost var before := allNodesInfo;
        if node.pubKey.Some? && node.address.Some? {
          allNodesInfo := allNodesInfo[node.assignedShard :=
            NodesOf(allNodesInfo, node.assignedShard) + [Validator(node.pubKey.value, node.address.value)]];
        }
        forall s: nat ensures NodesOf(allNodesInfo, s) == InfoFor(initialNodes[..i + 1], s) {
          assert initialNodes[..i + 1][..i] == initialNodes[..i];
          assert NodesOf(before, s) == InfoFor(initialNodes[..i], s);
        }
      }
      assert initialNodes[..|initialNodes|] == initialNodes;
    }
  }

  /** Metachain, shards, and the map of both; `ok` is false when one of them panics. */
  method AssignShards(ns: NodesSetup) returns (ok: bool)
    requires 0 < ns.sizes.minNodesPerShard && ns.nrOfNodes == |ns.initialNodes|
    requires forall i | 0 <= i < |ns.initialNodes| :: Listed(ns.initialNodes[i])
    modifies ns
    ensures var n, meta, min := |old(ns.initialNodes)|, ns.sizes.metaChainMinNodes, ns.sizes.minNodesPerShard;
            && (ok <==> meta <= n && (ShardCount(n, meta, min) > 0 || n == meta))
            && (ok ==> ns.nrOfShards == ShardCount(n, meta, min) && Maps(ns.allNodesInfo, ns.initialNodes))
            && (ok && ns.nrOfShards > 0 ==> Allocated(ns.initialNodes, old(ns.initialNodes), n, n, meta, min))
  {
    hide Maps, Allocated;
    ghost var base := ns.initialNodes;
    ok := ns.ProcessMetaChainAssigment();
    if !ok {
      return false;
    }
    ok := ns.ProcessShardAssignment(base);
    if !ok {
      return false;
    }
    ns.CreateInitialNodesInfo();
  }

  predicate Accepted(sizes: Sizes, nodes: seq<InitialNode>) {
    (forall i | 0 <= i < |nodes| :: NodeAccepted(nodes[i])) && SizesAccepted(sizes, |nodes|)
  }

  /** From the first `numOfNodes` configured nodes, or all if there are fewer, to the nodes map. An
      accepted configuration whose minima add up without wrapping around yields a balanced map. One that
      wraps around gets through exactly if the metachain swallows the whole list, and then there is no
      shard; otherwise it panics. */
  method NewNodesSetup(sizes: Sizes, nodes: seq<InitialNode>, numOfNodes: nat) returns (ns: NodesSetup, r: Outcome)
    requires |nodes| < UINT32_RANGE && sizes.metaChainMinNodes < UINT32_RANGE
    ensures var n := if numOfNodes < |nodes| then numOfNodes else |nodes|;
            r.Rejected? <==> !Accepted(sizes, nodes[..n])
    ensures ns.sizes == sizes
    ensures var n := if numOfNodes < |nodes| then numOfNodes else |nodes|;
            Accepted(sizes, nodes[..n]) && NoWrap(sizes) ==>
              var meta, min := sizes.metaChainMinNodes, sizes.minNodesPerShard;
              && r == Ready && meta <= n && ns.nrOfShards == ShardCount(n, meta, min) > 0
              && Balanced(ns.allNodesInfo, ns.nrOfShards, sizes, n)
              && Maps(ns.allNodesInfo, ns.initialNodes) && |ns.initialNodes| == n
              && forall i | 0 <= i < n ::
                   ns.initialNodes[i] == Decoded(nodes[i]).(assignedShard := ShardOf(i, n, meta, min))
    ensures var n := if numOfNodes < |nodes| then numOfNodes else |nodes|;
            Accepted(sizes, nodes[..n]) && !NoWrap(sizes) ==>
              && (r == Ready <==> sizes.metaChainMinNodes == n)
              && (r == Ready ==> ns.nrOfShards == 0)
              && (r == Panicked <==> sizes.metaChainMinNodes != n)
  {
    var texts := nodes;
    if numOfNodes < |nodes| {
      texts := nodes[..numOfNodes];
    }
    assert nodes[..|texts|] == texts;
    ns := new NodesSetup(sizes, texts);
    var err := ns.ProcessConfig();
    if err != None {
      return ns, Rejected(err.value);
    }
    RoomForAShardIff(sizes, |texts|);
    ghost var decoded := ns.initialNodes;
    assert Accepted(sizes, texts) && SizesAccepted(sizes, |texts|) && 0 < sizes.minNodesPerShard;
    hide HexDecode, Balanced, Maps, ShardOf, Accepted, SizesAccepted, NoWrap;
    var ok := AssignShards(ns);
    if !ok {
      return ns, Panicked;
    }
    if NoWrap(sizes) {
      AllocationBalanced(ns.allNodesInfo, ns.initialNodes, decoded, sizes);
    }
    return ns, Ready;
  }

  /** One node, and a metachain minimum whose sum with the shard's wraps around: the sizes are
      accepted, and the setup indexes past the list. */
  method OneNodePanics() returns (r: Outcome)
    ensures r == Panicked
  {
    var node := InitialNode("00", "00", 0, None, None);
    assert HexDecode("00").1 by { assert "00"[2..] == ""; }
    assert [node][..1] == [node];
    var ns;
    ns, r := NewNodesSetup(Sizes(1, 1, 1, 0xFFFF_FFFF), [node], 1);
    WrapAccepted();
  }

  /** The validator's key is that of a configured node. */
  ghost predicate Configured(nodes: seq<InitialNode>, v: Validator) {
    exists i :: 0 <= i < |nodes| && Decoded(nodes[i]).pubKey == Some(v.pubKey)
  }

  lemma MemberIsConfigured(nodes: seq<InitialNode>, placed: seq<InitialNode>, shardId: nat, v: Validator)
    requires |placed| == |nodes| && v in InfoFor(placed, shardId)
    requires forall i | 0 <= i < |nodes| ::
               placed[i] == Decoded(nodes[i]).(assignedShard := placed[i].assignedShard)
    ensures Configured(nodes, v)
  {
    InfoMember(placed, shardId, v);
    hide Decoded, InfoFor;
    var i :| 0 <= i < |placed| && placed[i].pubKey == Some(v.pubKey);
    assert Decoded(nodes[i]).pubKey == Some(v.pubKey);
  }

  lemma SameKeys(nodes: seq<InitialNode>, placed: seq<InitialNode>)
    requires |placed| == |nodes|
    requires forall i | 0 <= i < |nodes| ::
               placed[i] == Decoded(nodes[i]).(assignedShard := placed[i].assignedShard)
    requires forall i, j | 0 <= i < j < |nodes| :: Decoded(nodes[i]).pubKey != Decoded(nodes[j]).pubKey
    ensures forall i, j | 0 <= i < j < |placed| :: placed[i].pubKey != placed[j].pubKey
  {
    hide Decoded;
    forall i, j | 0 <= i < j < |placed| ensures placed[i].pubKey != placed[j].pubKey {
      assert Decoded(nodes[i]).pubKey != Decoded(nodes[j]).pubKey;
    }
  }

  /** From configuration to consensus group: with distinct keys, the coordinator accepts the genesis
      map, and every shard and the metachain can form a full group of distinct eligible members in
      every round, whatever the hash function and the randomness. */
  method GenesisFormsGroups(sizes: Sizes, nodes: seq<InitialNode>, hasher: seq<Byte> -> seq<Byte>,
                            sourceText: (nat, seq<Byte>) -> seq<Byte>,
                            randomness: seq<Byte>, round: nat, shardId: nat)
    returns (shards: nat, group: seq<Validator>)
    requires |nodes| < UINT32_RANGE && sizes.metaChainMinNodes < UINT32_RANGE
    requires Accepted(sizes, nodes) && NoWrap(sizes)
    requires forall i, j | 0 <= i < j < |nodes| :: Decoded(nodes[i]).pubKey != Decoded(nodes[j]).pubKey
    ensures shards >= 1
    ensures shardId < shards ==> |group| == sizes.consensusGroupSize
    ensures shardId == METACHAIN_SHARD_ID ==> |group| == sizes.metaChainConsensusGroupSize
    ensures DistinctKeys(group)
    ensures forall v | v in group :: Configured(nodes, v)
  {
    assert nodes[..|nodes|] == nodes;
    var ns, r := NewNodesSetup(sizes, nodes, |nodes|);
    shards := ns.nrOfShards;
    if shardId >= shards && shardId != METACHAIN_SHARD_ID {
      return shards, [];
    }
    var made := NewIndexHashedNodesCoordinator(shards, shardId, sizes.consensusGroupSize,
                                               sizes.metaChainConsensusGroupSize, Some(ns.allNodesInfo),
                                               Some(hasher), sourceText, Some([]));
    var coordinator := made.value;
    SameKeys(nodes, ns.initialNodes);
    InfoDistinct(ns.initialNodes, shardId);
    hide Decoded, Balanced;
    KeysBounded(NodesOf(ns.allNodesInfo, shardId));
    var drawn := coordinator.ComputeValidatorsGroup(Some(randomness), round, shardId);
    group := drawn.members;
    forall v | v in group ensures Configured(nodes, v) {
      MemberIsConfigured(nodes, ns.initialNodes, shardId, v);
    }
  }
}
