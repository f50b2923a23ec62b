/** Selection of the consensus group and of the signers marked in a bitmap
    (sharding/indexHashedNodesCoordinator.go). */
module NodesCoordination {
  import opened Arithmetic
  import opened BigEndian
  import opened Bitmaps
  import opened Sets
  import opened Wrappers

  const METACHAIN_SHARD_ID: nat := 0xFFFF_FFFF

  datatype Validator = Validator(pubKey: seq<Byte>, address: seq<Byte>)

  datatype Error =
    | ErrInvalidConsensusGroupSize | ErrInvalidNumberOfShards | ErrInvalidShardId | ErrNilHasher | ErrNilPubKey
    | ErrNilInputNodesMap | ErrSmallMetachainEligibleListSize | ErrSmallShardEligibleListSize
    | ErrNilRandomness | ErrEligibleSelectionMismatch | ErrEligibleTooManySelections | ErrEligibleTooFewSelections

  function Keys(list: seq<Validator>): set<seq<Byte>> {
    set v | v in list :: v.pubKey
  }

  ghost predicate DistinctKeys(list: seq<Validator>) {
    forall i, j | 0 <= i < j < |list| :: list[i].pubKey != list[j].pubKey
  }

  lemma {:induction false} KeysBounded(list: seq<Validator>)
    ensures |Keys(list)| <= |list|
    ensures DistinctKeys(list) ==> |Keys(list)| == |list|
  {
    if list != [] {
      var k := |list| - 1;
      KeysBounded(list[..k]);
      assert list == list[..k] + [list[k]];
      assert Keys(list) == Keys(list[..k]) + {list[k].pubKey};
    }
  }

  /** A list with more distinct keys than there are selected entries has an unselected entry. */
  lemma UnselectedExists(eligible: seq<Validator>, selected: seq<Validator>)
    requires |selected| < |Keys(eligible)|
    ensures exists i :: 0 <= i < |eligible| && eligible[i].pubKey !in Keys(selected)
  {
    KeysBounded(selected);
    if forall i | 0 <= i < |eligible| :: eligible[i].pubKey in Keys(selected) {
      assert Keys(eligible) <= Keys(selected);
      SubsetSize(Keys(eligible), Keys(selected));
      assert false;
    }
  }

  lemma AllSelected(eligible: seq<Validator>, selected: seq<Validator>)
    requires forall i: nat | i < |eligible| :: eligible[i].pubKey in Keys(selected)
    ensures |Keys(eligible)| <= |selected|
  {
    KeysBounded(selected);
    SubsetSize(Keys(eligible), Keys(selected));
  }

  lemma GroupFits(eligible: seq<Validator>, group: seq<Validator>)
    requires DistinctKeys(group) && forall v | v in group :: v in eligible
    ensures |group| <= |Keys(eligible)|
  {
    KeysBounded(group);
    SubsetSize(Keys(group), Keys(eligible));
  }

  /** The index `d` places after `start` in a list of `n` entries, cyclically. */
  function Ahead(n: nat, start: nat, d: nat): (index: nat)
    requires start < n && d < n
    ensures index < n
  {
    if start + d < n then start + d else start + d - n
  }

  /** Walking `d` steps from `start` leads to `index` over selected entries only. */
  ghost predicate Reaches(eligible: seq<Validator>, selected: seq<Validator>, start: nat, index: nat, d: nat)
    requires start < |eligible|
  {
    && d < |eligible|
    && index == Ahead(|eligible|, start, d)
    && forall e: nat | e < d :: eligible[Ahead(|eligible|, start, e)].pubKey in Keys(selected)
  }

  /** `index` is the first entry at or after `start`, cyclically, whose key is not selected yet. */
  ghost predicate FirstUnselected(eligible: seq<Validator>, selected: seq<Validator>, start: nat, index: nat) {
    && start < |eligible| && index < |eligible|
    && eligible[index].pubKey !in Keys(selected)
    && exists d: nat :: Reaches(eligible, selected, start, index, d)
  }

  lemma FirstUnselectedUnique(eligible: seq<Validator>, selected: seq<Validator>, start: nat, a: nat, b: nat)
    requires FirstUnselected(eligible, selected, start, a)
    requires FirstUnselected(eligible, selected, start, b)
    ensures a == b
  {
    var d: nat :| Reaches(eligible, selected, start, a, d);
    var e: nat :| Reaches(eligible, selected, start, b, e);
    assert !(d < e) && !(e < d);
  }

  /** `v` is the first entry at or after the start index whose key is not selected. */
  ghost predicate DrawnAs(eligible: seq<Validator>, selected: seq<Validator>, start: nat, v: Validator) {
    exists index: nat :: FirstUnselected(eligible, selected, start, index) && v == eligible[index]
  }

  /** Every member of the group is the first entry at or after its own start index that was not
      already chosen by an earlier draw. */
  ghost predicate DrawnFrom(eligible: seq<Validator>, starts: nat -> nat, group: seq<Validator>) {
    forall i: nat | i < |group| :: DrawnAs(eligible, group[..i], starts(i), group[i])
  }

  lemma DrawnPrefix(eligible: seq<Validator>, starts: nat -> nat, group: seq<Validator>, k: nat)
    requires DrawnFrom(eligible, starts, group) && k <= |group|
    ensures DrawnFrom(eligible, starts, group[..k])
  {
    hide DrawnAs;
    forall i: nat | i < k ensures DrawnAs(eligible, group[..k][..i], starts(i), group[..k][i]) {
      assert group[..k][..i] == group[..i];
    }
  }

  lemma Draw(eligible: seq<Validator>, starts: nat -> nat, group: seq<Validator>, k: nat) returns (index: nat)
    requires DrawnFrom(eligible, starts, group) && k < |group|
    ensures FirstUnselected(eligible, group[..k], starts(k), index) && index < |eligible| && group[k] == eligible[index]
  {
    assert DrawnAs(eligible, group[..k], starts(k), group[k]);
    index :| FirstUnselected(eligible, group[..k], starts(k), index) && group[k] == eligible[index];
  }

  /** The draws determine the group. */
  lemma {:induction false} DrawnFromUnique(eligible: seq<Validator>, starts: nat -> nat,
                                           a: seq<Validator>, b: seq<Validator>)
    requires DrawnFrom(eligible, starts, a) && DrawnFrom(eligible, starts, b) && |a| == |b|
    ensures a == b
  {
    if a != [] {
      var k := |a| - 1;
      hide DrawnFrom, FirstUnselected;
      DrawnPrefix(eligible, starts, a, k);
      DrawnPrefix(eligible, starts, b, k);
      DrawnFromUnique(eligible, starts, a[..k], b[..k]);
      var ia := Draw(eligible, starts, a, k);
      var ib := Draw(eligible, starts, b, k);
      FirstUnselectedUnique(eligible, a[..k], starts(k), ia, ib);
      assert a == a[..k] + [a[k]] && b == b[..k] + [b[k]];
    }
  }

  /** A drawn group has pairwise distinct keys, all of them eligible. */
  lemma DrawnGroupIsValid(eligible: seq<Validator>, starts: nat -> nat, group: seq<Validator>)
    requires DrawnFrom(eligible, starts, group)
    ensures DistinctKeys(group)
    ensures forall v | v in group :: v in eligible
  {
    forall i: nat, j: nat | i < j < |group| ensures group[i].pubKey != group[j].pubKey {
      var index := Draw(eligible, starts, group, j);
      assert group[i] in group[..j];
    }
    forall i: nat | i < |group| ensures group[i] in eligible {
      var index := Draw(eligible, starts, group, i);
    }
  }

  /** Cyclic distance from one index to another. */
  function Steps(n: nat, from: nat, to: nat): (d: nat)
    requires from < n && to < n
    ensures d < n && Ahead(n, from, d) == to
  {
    if from <= to then to - from else to - from + n
  }

  /** From any start, some entry is the first unselected one, as soon as any entry is unselected. */
  lemma {:induction false} ProbeFinds(eligible: seq<Validator>, selected: seq<Validator>, start: nat, d: nat, free: nat)
    returns (index: nat)
    requires start < |eligible| && free < |eligible| && eligible[free].pubKey !in Keys(selected)
    requires d < |eligible| && d <= Steps(|eligible|, start, free)
    requires forall e: nat | e < d :: eligible[Ahead(|eligible|, start, e)].pubKey in Keys(selected)
    ensures FirstUnselected(eligible, selected, start, index)
    decreases |eligible| - d
  {
    index := Ahead(|eligible|, start, d);
    if eligible[index].pubKey in Keys(selected) {
      assert index != free;
      index := ProbeFinds(eligible, selected, start, d + 1, free);
    } else {
      assert Reaches(eligible, selected, start, index, d);
    }
  }

  lemma DrawnFromStep(eligible: seq<Validator>, starts: nat -> nat, group: seq<Validator>, index: nat)
    requires DrawnFrom(eligible, starts, group)
    requires FirstUnselected(eligible, group, starts(|group|), index)
    ensures DrawnFrom(eligible, starts, group + [eligible[index]])
  {
    var longer := group + [eligible[index]];
    assert DrawnAs(eligible, group, starts(|group|), eligible[index]);
    hide DrawnAs, FirstUnselected;
    forall i: nat | i < |longer| ensures DrawnAs(eligible, longer[..i], starts(i), longer[i]) {
      if i < |group| {
        assert longer[..i] == group[..i];
      } else {
        assert longer[..i] == group;
      }
    }
  }

  lemma {:induction false} DrawGroup(eligible: seq<Validator>, starts: nat -> nat, size: nat)
    returns (group: seq<Validator>)
    requires size <= |Keys(eligible)|
    requires forall i :: starts(i) < |eligible|
    ensures |group| == size && DrawnFrom(eligible, starts, group)
  {
    if size == 0 {
      group := [];
    } else {
      group := DrawGroup(eligible, starts, size - 1);
      UnselectedExists(eligible, group);
      var free :| 0 <= free < |eligible| && eligible[free].pubKey !in Keys(group);
      var index := ProbeFinds(eligible, group, starts(size - 1), 0, free);
      DrawnFromStep(eligible, starts, group, index);
      group := group + [eligible[index]];
    }
  }

  /** The draws can fill a group of the wanted size exactly when the eligible list has that many
      distinct keys; with fewer, some draw finds every entry taken. */
  lemma DrawsCompleteIff(eligible: seq<Validator>, starts: nat -> nat, size: nat)
    requires forall i :: starts(i) < |eligible|
    ensures (exists group :: |group| == size && DrawnFrom(eligible, starts, group)) <==> size <= |Keys(eligible)|
  {
    if size <= |Keys(eligible)| {
      var group := DrawGroup(eligible, starts, size);
    }
    forall group | |group| == size && DrawnFrom(eligible, starts, group)
      ensures size <= |Keys(eligible)|
    {
      DrawnGroupIsValid(eligible, starts, group);
      GroupFits(eligible, group);
    }
  }

  /** What is hashed for one draw: the draw's number on eight bytes, then the random source. */
  function DrawInput(currentIndex: nat, randomSource: seq<Byte>): seq<Byte> {
    BigEndianBytes(currentIndex, 8) + randomSource
  }

  /** No two draws of one selection hash the same input. */
  lemma DrawInputsDiffer(i: nat, j: nat, randomSource: seq<Byte>)
    requires i < Pow256(8) && j < Pow256(8) && i != j
    ensures DrawInput(i, randomSource) != DrawInput(j, randomSource)
  {
    BigEndianRoundTrip(i, 8);
    BigEndianRoundTrip(j, 8);
    assert DrawInput(i, randomSource)[..8] == BigEndianBytes(i, 8);
    assert DrawInput(j, randomSource)[..8] == BigEndianBytes(j, 8);
  }

  function ComputeListIndex(hasher: seq<Byte> -> seq<Byte>, currentIndex: nat,
                            lenList: nat, randomSource: seq<Byte>): (index: nat)
    requires lenList > 0
    ensures index < lenList
  {
    BigEndianValue(hasher(DrawInput(currentIndex, randomSource))) % lenList
  }

  /** The hashed start index of every draw. */
  function Starts(hasher: seq<Byte> -> seq<Byte>, lenList: nat, randomSource: seq<Byte>): nat -> nat
    requires lenList > 0
  {
    i => ComputeListIndex(hasher, i, lenList, randomSource)
  }

  lemma Pow256Of8()
    ensures Pow256(8) == 0x1_0000_0000_0000_0000
  {
    assert Pow256(2) == 65536 && Pow256(4) == 0x1_0000_0000 && Pow256(6) == 0x1_0000_0000_0000;
  }

  lemma InputParts(i: nat, randomSource: seq<Byte>)
    requires i < 0x1_0000_0000_0000_0000
    ensures var input := DrawInput(i, randomSource);
            |input| == 8 + |randomSource| && BigEndianValue(input[..8]) == i && input[8..] == randomSource
  {
    Pow256Of8();
    BigEndianRoundTrip(i, 8);
    hide BigEndianValue, BigEndianBytes;
    assert DrawInput(i, randomSource)[..8] == BigEndianBytes(i, 8);
  }

  lemma Decompose(x: nat, n: nat)
    requires n > 0
    ensures x == (x / n) * n + x % n
  {
  }

  /** The start index of a draw is what the hash leaves when divided by the length of the list; hashed are
      the number of the draw, on eight bytes, and the random source. */
  lemma StartIsHash(hasher: seq<Byte> -> seq<Byte>, lenList: nat, randomSource: seq<Byte>, i: nat)
    returns (input: seq<Byte>, q: nat)
    requires lenList > 0 && i < 0x1_0000_0000_0000_0000
    ensures |input| == 8 + |randomSource| && BigEndianValue(input[..8]) == i && input[8..] == randomSource
    ensures Starts(hasher, lenList, randomSource)(i) < lenList
    ensures BigEndianValue(hasher(input)) == q * lenList + Starts(hasher, lenList, randomSource)(i)
  {
    input := DrawInput(i, randomSource);
    InputParts(i, randomSource);
    hide BigEndianValue, DrawInput;
    var large := BigEndianValue(hasher(input));
    q := large / lenList;
    Decompose(large, lenList);
  }

  /** The cyclic distance to an index from a number and from its remainder is the same. */
  lemma StepsMod(large: nat, q: int, n: nat, start: nat, x: nat)
    requires start < n && x < n && large == q * n + start
    ensures (x - large) % n == Steps(n, start, x)
  {
    var below := -q - 1;
    assert -q * n == -(q * n) && below * n == -(q * n) - n;
    if start <= x {
      DivModUnique(x - large, n, -q, x - start);
    } else {
      DivModUnique(x - large, n, below, x - start + n);
    }
  }

  lemma DrawnUnselected(eligible: seq<Validator>, selected: seq<Validator>, start: nat, index: nat)
    requires FirstUnselected(eligible, selected, start, index)
    ensures index < |eligible| && eligible[index].pubKey !in Keys(selected)
  {
  }

  /** Everything on the way to the first unselected entry is selected. */
  lemma OnTheWay(eligible: seq<Validator>, selected: seq<Validator>, start: nat, index: nat, x: nat)
    requires FirstUnselected(eligible, selected, start, index) && x < |eligible|
    requires Steps(|eligible|, start, x) < Steps(|eligible|, start, index)
    ensures eligible[x].pubKey in Keys(selected)
  {
    hide Keys;
    var n := |eligible|;
    var d: nat :| Reaches(eligible, selected, start, index, d);
    assert eligible[Ahead(n, start, Steps(n, start, x))].pubKey in Keys(selected);
  }

  /** A draw, spelled out: the hash of its number and of the random source, as a number, says where in the
      list it starts, and it takes the first entry from there on, cyclically, whose key no earlier member
      of the group has. */
  lemma DrawByHash(eligible: seq<Validator>, hasher: seq<Byte> -> seq<Byte>, randomSource: seq<Byte>,
                   group: seq<Validator>, i: nat) returns (input: seq<Byte>, index: nat)
    requires eligible != [] && DrawnFrom(eligible, Starts(hasher, |eligible|, randomSource), group)
    requires i < |group| && i < 0x1_0000_0000_0000_0000
    ensures |input| == 8 + |randomSource| && BigEndianValue(input[..8]) == i && input[8..] == randomSource
    ensures var n, large := |eligible|, BigEndianValue(hasher(input));
            && index < n && group[i] == eligible[index] && group[i].pubKey !in Keys(group[..i])
            && forall x: nat | x < n && (x - large) % n < (index - large) % n :: eligible[x].pubKey in Keys(group[..i])
  {
    hide BigEndianValue, DrawnFrom, Keys, FirstUnselected;
    var n, starts := |eligible|, Starts(hasher, |eligible|, randomSource);
    var q;
    input, q := StartIsHash(hasher, n, randomSource, i);
    var large, start := BigEndianValue(hasher(input)), starts(i);
    index := Draw(eligible, starts, group, i);
    DrawnUnselected(eligible, group[..i], start, index);
    hide Starts;
    StepsMod(large, q, n, start, index);
    forall x: nat | x < n && (x - large) % n < (index - large) % n ensures eligible[x].pubKey in Keys(group[..i]) {
      StepsMod(large, q, n, start, x);
      OnTheWay(eligible, group[..i], start, index, x);
    }
  }

  method ValidatorIsInList(v: Validator, list: seq<Validator>) returns (found: bool)
    ensures found <==> v.pubKey in Keys(list)
  {
    for i := 0 to |list|
      invariant v.pubKey !in Keys(list[..i])
    {
      if v.pubKey == list[i].pubKey {
        assert list[i] in list;
        return true;
      }
      assert list[..i + 1] == list[..i] + [list[i]];
    }
    assert list[..|list|] == list;
    return false;
  }

  /** The index the probing loop looks at after `k` turns. */
  function Probed(n: nat, start: nat, k: nat): (index: nat)
    requires n > 0
    ensures index < n
  {
    (start + k) % n
  }

  /** If a whole round of probing has met selected entries only, every later probe does. */
  lemma ProbeRepeats(eligible: seq<Validator>, selected: seq<Validator>, start: nat)
    requires start < |eligible|
    requires forall e: nat | e < |eligible| :: eligible[Ahead(|eligible|, start, e)].pubKey in Keys(selected)
    ensures forall i: nat | i < |eligible| :: eligible[i].pubKey in Keys(selected)
    ensures forall k: nat :: eligible[Probed(|eligible|, start, k)].pubKey in Keys(selected)
  {
    var n := |eligible|;
    forall i: nat | i < n ensures eligible[i].pubKey in Keys(selected) {
      assert i == Ahead(n, start, Steps(n, start, i));
    }
  }

  /** Every entry is probed at some time. */
  lemma ProbeStops(n: nat, start: nat, index: nat)
    requires start < n && index < n
    ensures Probed(n, start, Steps(n, start, index)) == index
  {
    WrapMod(start + Steps(n, start, index), n);
  }

  /** Linear probing: the first unselected entry at or after the proposed one. When a whole round has
      found none, no number of further probes would, and the loop of the code never ends. */
  method CheckIndex(proposed: nat, eligible: seq<Validator>, selected: seq<Validator>) returns (r: Option<nat>)
    requires proposed < |eligible|
    ensures r.Some? ==> FirstUnselected(eligible, selected, proposed, r.value)
    ensures r == None <==> forall k: nat :: eligible[Probed(|eligible|, proposed, k)].pubKey in Keys(selected)
    ensures r == None <==> forall i: nat | i < |eligible| :: eligible[i].pubKey in Keys(selected)
  {
    var n := |eligible|;
    var index := proposed;
    for d := 0 to n
      invariant d < n ==> index == Ahead(n, proposed, d)
      invariant forall e: nat | e < d :: eligible[Ahead(n, proposed, e)].pubKey in Keys(selected)
    {
      var taken := ValidatorIsInList(eligible[index], selected);
      if !taken {
        assert Reaches(eligible, selected, proposed, index, d);
        ProbeStops(n, proposed, index);
        return Some(index);
      }
      WrapMod(index + 1, n);
      index := index + 1;
      index := index % n;
    }
    ProbeRepeats(eligible, selected, proposed);
    return None;
  }

  type NodesMap = map<nat, seq<Validator>>

  function NodesOf(nodes: NodesMap, shardId: nat): seq<Validator> {
    if shardId in nodes then nodes[shardId] else []
  }

  /** Every shard below `nbShards` has at least a shard group's worth of nodes, and so has the
      metachain if the map mentions it. */
  predicate SizesSuffice(nodes: NodesMap, nbShards: nat, shardSize: int, metaSize: int) {
    && (METACHAIN_SHARD_ID in nodes ==> |nodes[METACHAIN_SHARD_ID]| >= metaSize)
    && forall s: nat | s < nbShards :: |NodesOf(nodes, s)| >= shardSize
  }

  /** What becomes of the draws: the group, an error, a division by the length of an empty list, or
      probing without end among entries that are all selected. */
  datatype Drawing = Group(members: seq<Validator>) | Declined(error: Error) | DivisionByZero | NeverEnds

  datatype Selection = Selected(keys: seq<seq<Byte>>) | Refused(error: Error) | IndexPanic

  /** A Go `uint16` conversion. */
  function Uint16(n: nat): (r: nat)
    ensures r <= n && r < 65536 && (n - r) % 65536 == 0
    ensures n < 65536 ==> r == n
  {
    n % 65536
  }

  /** The keys of the listed entries whose bit is set, in list order. */
  function MarkedKeys(list: seq<Validator>, selection: seq<Byte>, n: nat): (keys: seq<seq<Byte>>)
    requires n <= |list| && n <= 8 * |selection|
  {
    if n == 0 then []
    else MarkedKeys(list, selection, n - 1)
         + (if BitAt(selection, n - 1) then [list[n - 1].pubKey] else [])
  }

  /** The marked keys of the whole list, its length truncated to 16 bits. */
  function Marked(list: seq<Validator>, selection: seq<Byte>): seq<seq<Byte>>
    requires Uint16(|list|) <= Uint16(8 * |selection|)
  {
    MarkedKeys(list, selection, Uint16(|list|))
  }

  lemma MarkedKeysStep(list: seq<Validator>, selection: seq<Byte>, i: nat)
    requires i < |list| && i < 8 * |selection|
    ensures MarkedKeys(list, selection, i + 1)
         == MarkedKeys(list, selection, i) + (if BitAt(selection, i) then [list[i].pubKey] else [])
  {
  }

  lemma {:induction false} MarkedKeysGrow(list: seq<Validator>, selection: seq<Byte>, m: nat, n: nat)
    requires m <= n <= |list| && n <= 8 * |selection|
    ensures MarkedKeys(list, selection, m) <= MarkedKeys(list, selection, n)
  {
    if m < n {
      MarkedKeysGrow(list, selection, m, n - 1);
    }
  }

  /** As many keys as marks, each mark's key at the rank of the mark: the result is exactly the marked
      part of the list, in order. */
  lemma {:induction false} MarkedKeysByRank(list: seq<Validator>, selection: seq<Byte>, n: nat)
    requires n <= |list| && n <= 8 * |selection|
    ensures |MarkedKeys(list, selection, n)| == CountTrue(Flags(selection)[..n])
    ensures forall i: nat | i < n && BitAt(selection, i) ::
              var rank := CountTrue(Flags(selection)[..i]);
              rank < |MarkedKeys(list, selection, n)| && MarkedKeys(list, selection, n)[rank] == list[i].pubKey
  {
    hide BitAt;
    if n > 0 {
      MarkedKeysByRank(list, selection, n - 1);
      assert Flags(selection)[..n][..n - 1] == Flags(selection)[..n - 1];
      assert Flags(selection)[n - 1] == BitAt(selection, n - 1);
    }
  }

  method Put(keys: array<seq<Byte>>, cnt: nat, key: seq<Byte>)
    requires cnt < keys.Length
    modifies keys
    ensures keys[..cnt + 1] == old(keys[..cnt]) + [key]
  {
    keys[cnt] := key;
  }

  /** The scan of `GetSelectedPublicKeys`. */
  method CollectMarked(list: seq<Validator>, selection: seq<Byte>, n: nat, consensusSize: nat) returns (r: Selection)
    requires n <= |list| && n <= 8 * |selection|
    ensures var marked := MarkedKeys(list, selection, n);
            r == if |marked| == consensusSize then Selected(marked)
                 else if |marked| < consensusSize then Refused(ErrEligibleTooFewSelections)
                 else IndexPanic
  {
    assert MarkedKeys(list, selection, 0) == [];
    hide MarkedKeys, BitAt;
    var keys: array<seq<Byte>> := new seq<Byte>[consensusSize](_ => []);
    var cnt := 0;
    for i := 0 to n
      invariant cnt <= consensusSize
      invariant keys[..cnt] == MarkedKeys(list, selection, i)
    {
      MarkedKeysStep(list, selection, i);
      if !BitAt(selection, i) {
        continue;
      }
      if cnt >= keys.Length {
        MarkedKeysGrow(list, selection, i + 1, n);
        return IndexPanic;
      }
      Put(keys, cnt, list[i].pubKey);
      cnt := cnt + 1;
      if cnt > consensusSize {
        return Refused(ErrEligibleTooManySelections);
      }
    }
    if cnt < consensusSize {
      return Refused(ErrEligibleTooFewSelections);
    }
    assert keys[..] == keys[..cnt];
    return Selected(keys[..]);
  }

  class NodesCoordinator {
    const nbShards: nat
    const shardConsensusGroupSize: int
    const metaConsensusGroupSize: int
    // the hash function, and the text of round and randomness that is hashed after the draw number
    const hasher: seq<Byte> -> seq<Byte>
    const sourceText: (nat, seq<Byte>) -> seq<Byte>
    var nodesMap: NodesMap

    ghost predicate Valid()
      reads this
    {
      && 1 <= shardConsensusGroupSize && 1 <= metaConsensusGroupSize && 1 <= nbShards
      && SizesSuffice(nodesMap, nbShards, shardConsensusGroupSize, metaConsensusGroupSize)
    }

    predicate ShardExists(shardId: nat) {
      shardId < nbShards || shardId == METACHAIN_SHARD_ID
    }

    function ConsensusGroupSize(shardId: nat): int {
      if shardId == METACHAIN_SHARD_ID then metaConsensusGroupSize else shardConsensusGroupSize
    }

    constructor (nbShards: nat, shardSize: int, metaSize: int,
                 hasher: seq<Byte> -> seq<Byte>, sourceText: (nat, seq<Byte>) -> seq<Byte>)
      ensures this.nbShards == nbShards && this.hasher == hasher && this.sourceText == sourceText
      ensures shardConsensusGroupSize == shardSize && metaConsensusGroupSize == metaSize && nodesMap == map[]
    {
      this.nbShards := nbShards;
      this.hasher := hasher;
      this.sourceText := sourceText;
      shardConsensusGroupSize := shardSize;
      metaConsensusGroupSize := metaSize;
      nodesMap := map[];
    }

    /** Loads the nodes exactly when the sizes suffice; a refused map leaves the old one in place. */
    method SetNodesPerShards(nodes: Option<NodesMap>) returns (err: Option<Error>)
      modifies this
      ensures old(Valid()) ==> Valid()
      ensures err == None <==>
              nodes.Some? && SizesSuffice(nodes.value, nbShards, shardConsensusGroupSize, metaConsensusGroupSize)
      ensures nodesMap == if err == None then nodes.value else old(nodesMap)
      ensures nodes == None <==> err == Some(ErrNilInputNodesMap)
      ensures err == None || err == Some(ErrNilInputNodesMap) || err == Some(ErrSmallMetachainEligibleListSize)
              || err == Some(ErrSmallShardEligibleListSize)
      ensures err == Some(ErrSmallMetachainEligibleListSize) <==>
              nodes.Some? && METACHAIN_SHARD_ID in nodes.value
              && |nodes.value[METACHAIN_SHARD_ID]| < metaConsensusGroupSize
      ensures err == Some(ErrSmallShardEligibleListSize) <==>
              && nodes.Some? && err != Some(ErrSmallMetachainEligibleListSize)
              && exists s: nat :: s < nbShards && |NodesOf(nodes.value, s)| < shardConsensusGroupSize
    {
      if nodes == None {
        return Some(ErrNilInputNodesMap);
      }
      if METACHAIN_SHARD_ID in nodes.value && |nodes.value[METACHAIN_SHARD_ID]| < metaConsensusGroupSize {
        return Some(ErrSmallMetachainEligibleListSize);
      }
      for shardId := 0 to nbShards
        invariant forall s: nat | s < shardId :: |NodesOf(nodes.value, s)| >= shardConsensusGroupSize
      {
        if |NodesOf(nodes.value, shardId)| < shardConsensusGroupSize {
          return Some(ErrSmallShardEligibleListSize);
        }
      }
      nodesMap := nodes.value;
      return None;
    }

    /** The consensus group of a round: as many members as the group size, each drawn by hash and
        linear probing, hence pairwise distinct and eligible. It comes about exactly if the list has
        that many distinct keys; from fewer the draws never end, and an empty list, which only the
        metachain can have, fails at once. */
    method ComputeValidatorsGroup(randomness: Option<seq<Byte>>, round: nat, shardId: nat) returns (r: Drawing)
      requires Valid()
      ensures r == Declined(ErrNilRandomness) <==> randomness == None
      ensures r == Declined(ErrInvalidShardId) <==>
              randomness.Some? && shardId >= nbShards && shardId != METACHAIN_SHARD_ID
      ensures randomness.Some? && (shardId < nbShards || shardId == METACHAIN_SHARD_ID) ==>
                var eligible := NodesOf(nodesMap, shardId);
                var size := if shardId == METACHAIN_SHARD_ID then metaConsensusGroupSize else shardConsensusGroupSize;
                && (r == DivisionByZero <==> eligible == [])
                && (r == NeverEnds <==> eligible != [] && |Keys(eligible)| < size)
                && (r.Group? <==> size <= |Keys(eligible)|)
                && (r.Group? ==>
                      && |r.members| == size && eligible != []
                      && DrawnFrom(eligible, Starts(hasher, |eligible|, sourceText(round, randomness.value)), r.members)
                      && DistinctKeys(r.members) && forall v | v in r.members :: v in eligible)
      ensures r == DivisionByZero ==> shardId == METACHAIN_SHARD_ID
    {
      if randomness == None {
        return Declined(ErrNilRandomness);
      }
      if shardId >= nbShards && shardId != METACHAIN_SHARD_ID {
        return Declined(ErrInvalidShardId);
      }
      var group: seq<Validator> := [];
      var consensusSize := ConsensusGroupSize(shardId);
      var source := sourceText(round, randomness.value);
      var expanded := NodesOf(nodesMap, shardId);
      KeysBounded(expanded);
      if |expanded| == 0 {
        return DivisionByZero;
      }
      ghost var starts := Starts(hasher, |expanded|, source);
      for startIdx := 0 to consensusSize
        invariant |group| == startIdx
        invariant DrawnFrom(expanded, starts, group)
      {
        var proposed := ComputeListIndex(hasher, startIdx, |expanded|, source);
        var checked := CheckIndex(proposed, expanded, group);
        if checked == None {
          AllSelected(expanded, group);
          return NeverEnds;
        }
        DrawnFromStep(expanded, starts, group, checked.value);
        group := group + [expanded[checked.value]];
      }
      DrawnGroupIsValid(expanded, starts, group);
      GroupFits(expanded, group);
      return Group(group);
    }

    /** Reads a selection bitmap against the eligible list. Lengths are truncated to 16 bits. With
        exactly a group's worth of marks the marked keys come back in list order, with fewer the
        selection is refused; with more, the slot after the last is written before the count is
        compared, so the too-many error is never the outcome. */
    method GetSelectedPublicKeys(selection: seq<Byte>, shardId: nat) returns (r: Selection)
      requires ConsensusGroupSize(shardId) >= 0
      ensures r == Refused(ErrInvalidShardId) <==> shardId >= nbShards && shardId != METACHAIN_SHARD_ID
      ensures r == Refused(ErrEligibleSelectionMismatch) <==>
              ShardExists(shardId) && Uint16(8 * |selection|) < Uint16(|NodesOf(nodesMap, shardId)|)
      ensures ShardExists(shardId) && Uint16(|NodesOf(nodesMap, shardId)|) <= Uint16(8 * |selection|) ==>
                var marked := Marked(NodesOf(nodesMap, shardId), selection);
                r == if |marked| == ConsensusGroupSize(shardId) then Selected(marked)
                     else if |marked| < ConsensusGroupSize(shardId) then Refused(ErrEligibleTooFewSelections)
                     else IndexPanic
      ensures r != Refused(ErrEligibleTooManySelections)
    {
      if shardId >= nbShards && shardId != METACHAIN_SHARD_ID {
        return Refused(ErrInvalidShardId);
      }
      var list := NodesOf(nodesMap, shardId);
      if Uint16(8 * |selection|) < Uint16(|list|) {
        return Refused(ErrEligibleSelectionMismatch);
      }
      r := CollectMarked(list, selection, Uint16(|list|), ConsensusGroupSize(shardId));
    }
  }

  /** Checks the arguments, then loads the nodes: a coordinator comes about exactly if both succeed,
      and then every shard has a group's worth of nodes. */
  method NewIndexHashedNodesCoordinator(nbShards: nat, shardId: nat, shardSize: int, metaSize: int,
                                        nodes: Option<NodesMap>, hasher: Option<seq<Byte> -> seq<Byte>>,
                                        sourceText: (nat, seq<Byte>) -> seq<Byte>, selfPubKey: Option<seq<Byte>>)
    returns (r: Result<NodesCoordinator, Error>)
    ensures r.Ok? <==>
            && 1 <= shardSize && 1 <= metaSize && 1 <= nbShards
            && (shardId < nbShards || shardId == METACHAIN_SHARD_ID) && hasher.Some? && selfPubKey.Some?
            && nodes.Some? && SizesSuffice(nodes.value, nbShards, shardSize, metaSize)
    ensures r.Ok? ==>
              var c := r.value;
              && fresh(c) && c.Valid() && c.nbShards == nbShards && c.nodesMap == nodes.value
              && c.shardConsensusGroupSize == shardSize && c.metaConsensusGroupSize == metaSize
              && c.hasher == hasher.value && c.sourceText == sourceText
    ensures r == Err(ErrInvalidConsensusGroupSize) <==> shardSize < 1 || metaSize < 1
    ensures r == Err(ErrInvalidNumberOfShards) <==> 1 <= shardSize && 1 <= metaSize && nbShards == 0
  {
    if shardSize < 1 || metaSize < 1 {
      return Err(ErrInvalidConsensusGroupSize);
    }
    if nbShards < 1 {
      return Err(ErrInvalidNumberOfShards);
    }
    if shardId >= nbShards && shardId != METACHAIN_SHARD_ID {
      return Err(ErrInvalidShardId);
    }
    if hasher.None? {
      return Err(ErrNilHasher);
    }
    if selfPubKey.None? {
      return Err(ErrNilPubKey);
    }
    var c := new NodesCoordinator(nbShards, shardSize, metaSize, hasher.value, sourceText);
    var err := c.SetNodesPerShards(nodes);
    if err.Some? {
      return Err(err.value);
    }
    return Ok(c);
  }

  lemma BothMarked(a: Validator, b: Validator)
    ensures |Marked([a, b], [3])| == 2
  {
    assert Uint16(2) == 2;
    assert BitAt([3], 0) && BitAt([3], 1) by {
      assert Mask(0) == 1 && Mask(1) == 2;
    }
    MarkedKeysStep([a, b], [3], 0);
    MarkedKeysStep([a, b], [3], 1);
  }

  /** A list that repeats a key is loaded, but a group of two cannot be drawn from it: whatever the
      hash function, the second draw never ends. Of a metachain without nodes no group is drawn. */
  method RepeatedKeyNeverEnds(v: Validator, hasher: seq<Byte> -> seq<Byte>, sourceText: (nat, seq<Byte>) -> seq<Byte>,
                              randomness: seq<Byte>, round: nat) returns (shard: Drawing, meta: Drawing)
    ensures shard == NeverEnds && meta == DivisionByZero
  {
    var nodes: NodesMap := map[0 := [v, v]];
    var made := NewIndexHashedNodesCoordinator(1, 0, 2, 1, Some(nodes), Some(hasher), sourceText, Some([]));
    var c := made.value;
    assert Keys([v, v]) == {v.pubKey};
    shard := c.ComputeValidatorsGroup(Some(randomness), round, 0);
    meta := c.ComputeValidatorsGroup(Some(randomness), round, METACHAIN_SHARD_ID);
  }

  /** Two marks for a group of one: the second key has no place, and the error for too many marks is
      not reached. */
  method TwoMarksPanic(a: Validator, b: Validator, hasher: seq<Byte> -> seq<Byte>,
                       sourceText: (nat, seq<Byte>) -> seq<Byte>) returns (r: Selection)
    ensures r == IndexPanic
  {
    var c := new NodesCoordinator(1, 1, 1, hasher, sourceText);
    var nodes: NodesMap := map[0 := [a, b]];
    var err := c.SetNodesPerShards(Some(nodes));
    r := c.GetSelectedPublicKeys([3], 0);
    BothMarked(a, b);
  }
}
