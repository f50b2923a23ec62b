/** Splitting data into packets (core/partitioning/simpleDataPacker.go, sizeDataPacker.go). */
module Packers {
  import opened Bitmaps
  import opened Wrappers

  type Element = seq<Byte>
  type Chunk = seq<Element>

  datatype PackError = ErrInvalidValue | ErrNilInputData

  const MINIMUM_MAX_PACKET_SIZE_IN_BYTES := 1

  // ---------------------------------------------------------------------------------------------
  // Splits and the best split
  // ---------------------------------------------------------------------------------------------

  function Concat(chunks: seq<Chunk>): Chunk {
    if chunks == [] then [] else Concat(chunks[..|chunks| - 1]) + chunks[|chunks| - 1]
  }

  lemma ConcatAppend(chunks: seq<Chunk>, c: Chunk)
    ensures Concat(chunks + [c]) == Concat(chunks) + c
  {
    assert (chunks + [c])[..|chunks|] == chunks;
  }

  /** Where the `k`-th chunk starts. */
  function Start(chunks: seq<Chunk>, k: nat): nat
    requires k <= |chunks|
  {
    |Concat(chunks[..k])|
  }

  lemma {:induction false} ConcatPrefix(chunks: seq<Chunk>, k: nat)
    requires k <= |chunks|
    ensures Concat(chunks[..k]) <= Concat(chunks)
  {
    if k < |chunks| {
      var n := |chunks| - 1;
      ConcatPrefix(chunks[..n], k);
      assert chunks[..n][..k] == chunks[..k];
    } else {
      assert chunks[..k] == chunks;
    }
  }

  /** A chunk is a contiguous stretch of the concatenation. */
  lemma ChunkIsStretch(chunks: seq<Chunk>, k: nat)
    requires k < |chunks|
    ensures Start(chunks, k + 1) == Start(chunks, k) + |chunks[k]| <= |Concat(chunks)|
    ensures Concat(chunks)[Start(chunks, k)..Start(chunks, k + 1)] == chunks[k]
  {
    ConcatPrefix(chunks, k + 1);
    assert chunks[..k + 1][..k] == chunks[..k];
    assert Concat(chunks[..k + 1]) == Concat(chunks[..k]) + chunks[k];
  }

  /** The rule a packet has to keep: it is a single element, or it fits. */
  ghost predicate Allowed(fits: Chunk -> bool, chunks: seq<Chunk>) {
    forall k | 0 <= k < |chunks| :: chunks[k] != [] && (|chunks[k]| == 1 || fits(chunks[k]))
  }

  /** A chunk and the first element of the next one. */
  function Extended(chunks: seq<Chunk>, k: nat): Chunk
    requires k < |chunks| - 1
  {
    if chunks[k + 1] == [] then chunks[k] else chunks[k] + [chunks[k + 1][0]]
  }

  /** No chunk could have taken the next element as well. */
  ghost predicate Greedy(fits: Chunk -> bool, chunks: seq<Chunk>) {
    forall k: nat | k < |chunks| - 1 :: !fits(Extended(chunks, k))
  }

  /** Whatever fits still fits after elements are dropped at either end. */
  ghost predicate Shrinkable(fits: Chunk -> bool) {
    forall c, i, j | 0 <= i <= j <= |c| && fits(c) :: fits(c[i..j])
  }

  lemma NotTheLast(chunks: seq<Chunk>, k: nat)
    requires k < |chunks| && Start(chunks, k + 1) < |Concat(chunks)|
    ensures k + 1 < |chunks|
  {
    assert chunks[..|chunks|] == chunks;
  }

  lemma ExtendedIsStretch(chunks: seq<Chunk>, k: nat)
    requires k < |chunks| - 1 && chunks[k + 1] != []
    ensures Start(chunks, k) <= Start(chunks, k + 1) < |Concat(chunks)|
    ensures Concat(chunks)[Start(chunks, k)..Start(chunks, k + 1) + 1] == Extended(chunks, k)
  {
    ChunkIsStretch(chunks, k);
    ChunkIsStretch(chunks, k + 1);
    var data, a, b := Concat(chunks), Start(chunks, k), Start(chunks, k + 1);
    assert data[b] == data[b..Start(chunks, k + 2)][0];
    assert data[a..b + 1] == data[a..b] + [data[b]];
  }

  lemma StretchFits(fits: Chunk -> bool, data: Chunk, o: nat, e: nat, a: nat, b: nat)
    requires Shrinkable(fits) && o <= a <= b <= e <= |data| && fits(data[o..e])
    ensures fits(data[a..b])
  {
    var c := data[o..e];
    forall i | 0 <= i < b - a ensures c[a - o..b - o][i] == data[a..b][i] {
      assert c[a - o + i] == data[a + i];
    }
    assert c[a - o..b - o] == data[a..b];
  }

  /** A chunk that reached past the greedy one would contain it and the element that broke it. */
  lemma OvertakenDoesNotFit(fits: Chunk -> bool, greedy: seq<Chunk>, other: seq<Chunk>, k: nat)
    requires Shrinkable(fits) && Greedy(fits, greedy) && Allowed(fits, greedy) && Allowed(fits, other)
    requires Concat(greedy) == Concat(other)
    requires k < |greedy| && k < |other|
    requires Start(other, k) <= Start(greedy, k)
    ensures Start(other, k + 1) <= Start(greedy, k + 1)
  {
    ChunkIsStretch(greedy, k);
    ChunkIsStretch(other, k);
    if Start(other, k + 1) > Start(greedy, k + 1) {
      NotTheLast(greedy, k);
      ExtendedIsStretch(greedy, k);
      StretchFits(fits, Concat(other), Start(other, k), Start(other, k + 1),
                  Start(greedy, k), Start(greedy, k + 1) + 1);
    }
  }

  /** After any number of packets the greedy split has covered at least as much as any other. */
  lemma {:induction false} GreedyStaysAhead(fits: Chunk -> bool, greedy: seq<Chunk>, other: seq<Chunk>, k: nat)
    requires Shrinkable(fits) && Greedy(fits, greedy) && Allowed(fits, greedy) && Allowed(fits, other)
    requires Concat(greedy) == Concat(other)
    requires k <= |greedy| && k <= |other|
    ensures Start(other, k) <= Start(greedy, k)
  {
    if k > 0 {
      GreedyStaysAhead(fits, greedy, other, k - 1);
      ChunkIsStretch(greedy, k - 1);
      ChunkIsStretch(other, k - 1);
      if Start(other, k) > Start(greedy, k) {
        OvertakenDoesNotFit(fits, greedy, other, k - 1);
      }
    }
  }

  /** No split that keeps the rule uses fewer packets than a greedy one. */
  lemma GreedyIsOptimal(fits: Chunk -> bool, greedy: seq<Chunk>, other: seq<Chunk>)
    requires Shrinkable(fits) && Greedy(fits, greedy) && Allowed(fits, greedy) && Allowed(fits, other)
    requires Concat(greedy) == Concat(other)
    ensures |greedy| <= |other|
  {
    if |other| < |greedy| {
      GreedyStaysAhead(fits, greedy, other, |other|);
      assert other[..|other|] == other;
      ChunkIsStretch(greedy, |other|);
    }
  }

  // ---------------------------------------------------------------------------------------------
  // Packets
  // ---------------------------------------------------------------------------------------------

  /** The marshalizer; both directions are total. */
  datatype Codec = Codec(marshal: Chunk -> seq<Byte>, unmarshal: seq<Byte> -> Chunk)

  /** Unmarshalling undoes marshalling, and a non-empty list does not marshal to an empty buffer. */
  ghost predicate Sound(codec: Codec) {
    && (forall c :: codec.unmarshal(codec.marshal(c)) == c)
    && (forall c :: codec.marshal(c) == [] ==> c == [])
  }

  function Encoded(codec: Codec, chunks: seq<Chunk>): (packets: seq<seq<Byte>>)
    ensures |packets| == |chunks|
  {
    seq(|chunks|, k requires 0 <= k < |chunks| => codec.marshal(chunks[k]))
  }

  /** What a receiver reads from the packets; an empty buffer carries nothing. */
  function Decoded(codec: Codec, packets: seq<seq<Byte>>): Chunk {
    if packets == [] then []
    else
      var last := packets[|packets| - 1];
      Decoded(codec, packets[..|packets| - 1]) + (if last == [] then [] else codec.unmarshal(last))
  }

  lemma {:induction false} DecodedEncoded(codec: Codec, chunks: seq<Chunk>)
    requires Sound(codec)
    ensures Decoded(codec, Encoded(codec, chunks)) == Concat(chunks)
  {
    if chunks != [] {
      var n := |chunks| - 1;
      DecodedEncoded(codec, chunks[..n]);
      assert Encoded(codec, chunks)[..n] == Encoded(codec, chunks[..n]);
      assert codec.unmarshal(codec.marshal(chunks[n])) == chunks[n];
    }
  }

  // ---------------------------------------------------------------------------------------------
  // Packing by raw length
  // ---------------------------------------------------------------------------------------------

  /** Raw length of a chunk. */
  function Total(c: Chunk): nat {
    if c == [] then 0 else Total(c[..|c| - 1]) + |c[|c| - 1]|
  }

  function BelowRaw(limit: int): Chunk -> bool {
    c => Total(c) < limit
  }

  lemma {:induction false} TotalPrefix(c: Chunk, j: nat)
    requires j <= |c|
    ensures Total(c[..j]) <= Total(c)
  {
    if j < |c| {
      TotalPrefix(c[..|c| - 1], j);
      assert c[..|c| - 1][..j] == c[..j];
    } else {
      assert c[..j] == c;
    }
  }

  lemma {:induction false} TotalSuffix(c: Chunk, i: nat)
    requires i <= |c|
    ensures Total(c[i..]) <= Total(c)
  {
    if i < |c| {
      TotalSuffix(c[..|c| - 1], i);
      assert c[i..][..|c| - 1 - i] == c[..|c| - 1][i..];
    }
  }

  lemma RawIsShrinkable(limit: int)
    ensures Shrinkable(BelowRaw(limit))
  {
    forall c: Chunk, i, j | 0 <= i <= j <= |c| && BelowRaw(limit)(c) ensures BelowRaw(limit)(c[i..j]) {
      TotalPrefix(c, j);
      TotalSuffix(c[..j], i);
      assert c[..j][i..] == c[i..j];
    }
  }

  /** Closing the current chunk: it was as full as it could be. */
  lemma GreedyAppend(fits: Chunk -> bool, chunks: seq<Chunk>, c: Chunk)
    requires Greedy(fits, chunks)
    requires chunks != [] ==> !fits(Extended([chunks[|chunks| - 1], c], 0))
    ensures Greedy(fits, chunks + [c])
  {
    var longer := chunks + [c];
    forall k: nat | k < |longer| - 1 ensures !fits(Extended(longer, k)) {
      if k == |chunks| - 1 {
        assert Extended(longer, k) == Extended([chunks[k], c], 0);
      } else {
        assert Extended(longer, k) == Extended(chunks, k);
      }
    }
  }

  /** The state of a packer: `chunks` are closed, `current` is open, `done` is what they hold. */
  ghost predicate Packing(fits: Chunk -> bool, done: Chunk, chunks: seq<Chunk>, current: Chunk) {
    && Concat(chunks) + current == done
    && (current == [] ==> chunks == [])
    && Allowed(fits, chunks) && (|current| <= 1 || fits(current))
    && Greedy(fits, chunks)
    && (chunks != [] ==> !fits(Extended([chunks[|chunks| - 1], current], 0)))
  }

  /** The open chunk takes one more element. */
  lemma TakeElement(fits: Chunk -> bool, done: Chunk, chunks: seq<Chunk>, current: Chunk, element: Element)
    requires Packing(fits, done, chunks, current)
    requires current == [] || fits(current + [element])
    ensures Packing(fits, done + [element], chunks, current + [element])
  {
    assert Concat(chunks) + (current + [element]) == (Concat(chunks) + current) + [element];
    if chunks != [] {
      var last := chunks[|chunks| - 1];
      assert Extended([last, current + [element]], 0) == Extended([last, current], 0);
    }
  }

  /** The open chunk is closed because the element does not fit, and the element opens the next. */
  lemma CloseChunk(fits: Chunk -> bool, done: Chunk, chunks: seq<Chunk>, current: Chunk, element: Element)
    requires Packing(fits, done, chunks, current)
    requires current != [] && !fits(current + [element])
    ensures Packing(fits, done + [element], chunks + [current], [element])
  {
    ConcatAppend(chunks, current);
    GreedyAppend(fits, chunks, current);
    assert Extended([current, [element]], 0) == current + [element];
  }

  /** All chunks of a packer's state, the open one included. */
  function AllChunks(chunks: seq<Chunk>, current: Chunk): seq<Chunk> {
    if current == [] then chunks else chunks + [current]
  }

  lemma FinishPacking(fits: Chunk -> bool, done: Chunk, chunks: seq<Chunk>, current: Chunk)
    requires Packing(fits, done, chunks, current)
    ensures Concat(AllChunks(chunks, current)) == done
    ensures Allowed(fits, AllChunks(chunks, current)) && Greedy(fits, AllChunks(chunks, current))
  {
    if current != [] {
      ConcatAppend(chunks, current);
      GreedyAppend(fits, chunks, current);
    }
  }

  lemma TotalAppend(c: Chunk, element: Element)
    ensures Total(c + [element]) == Total(c) + |element|
  {
    assert (c + [element])[..|c|] == c;
  }

  lemma TotalOne(element: Element)
    ensures Total([element]) == |element|
  {
    TotalAppend([], element);
    assert [] + [element] == [element];
  }

  /** The packets so far and the chunks they stand for. */
  ghost predicate RawState(codec: Codec, limit: int, done: Chunk,
                           packets: seq<seq<Byte>>, chunks: seq<Chunk>, current: Chunk)
  {
    packets == Encoded(codec, chunks) && Packing(BelowRaw(limit), done, chunks, current)
  }

  lemma RawTake(codec: Codec, limit: int, data: Chunk, i: nat,
                packets: seq<seq<Byte>>, chunks: seq<Chunk>, current: Chunk)
    requires i < |data| && RawState(codec, limit, data[..i], packets, chunks, current)
    requires current == [] || Total(current) + |data[i]| < limit
    ensures RawState(codec, limit, data[..i + 1], packets, chunks, current + [data[i]])
    ensures Total(current + [data[i]]) == Total(current) + |data[i]|
  {
    hide Encoded, Packing, Total;
    assert data[..i + 1] == data[..i] + [data[i]];
    TotalAppend(current, data[i]);
    TakeElement(BelowRaw(limit), data[..i], chunks, current, data[i]);
  }

  lemma EncodedAppend(codec: Codec, chunks: seq<Chunk>, c: Chunk)
    ensures Encoded(codec, chunks + [c]) == Encoded(codec, chunks) + [codec.marshal(c)]
  {
  }

  lemma RawClose(codec: Codec, limit: int, data: Chunk, i: nat,
                 packets: seq<seq<Byte>>, chunks: seq<Chunk>, current: Chunk)
    requires i < |data| && RawState(codec, limit, data[..i], packets, chunks, current)
    requires current != [] && Total(current) + |data[i]| >= limit
    ensures RawState(codec, limit, data[..i + 1], packets + [codec.marshal(current)], chunks + [current], [data[i]])
    ensures Total([data[i]]) == |data[i]|
  {
    TotalOne(data[i]);
    hide Encoded, Packing, Total;
    assert data[..i + 1] == data[..i] + [data[i]];
    TotalAppend(current, data[i]);
    CloseChunk(BelowRaw(limit), data[..i], chunks, current, data[i]);
    EncodedAppend(codec, chunks, current);
  }

  lemma RawFinish(codec: Codec, limit: int, data: Chunk, packets: seq<seq<Byte>>, chunks: seq<Chunk>, current: Chunk)
    requires RawState(codec, limit, data[..|data|], packets, chunks, current)
    ensures Concat(AllChunks(chunks, current)) == data
    ensures Allowed(BelowRaw(limit), AllChunks(chunks, current)) && Greedy(BelowRaw(limit), AllChunks(chunks, current))
    ensures Encoded(codec, AllChunks(chunks, current))
         == packets + (if current == [] then [] else [codec.marshal(current)])
  {
    hide Encoded, Packing, Allowed, Greedy;
    assert data[..|data|] == data;
    FinishPacking(BelowRaw(limit), data, chunks, current);
    if current == [] {
      assert packets + [] == packets;
    } else {
      EncodedAppend(codec, chunks, current);
    }
  }

  /** The packing loop. */
  method PackRaw(codec: Codec, data: Chunk, limit: int)
    returns (returningBuff: seq<seq<Byte>>, ghost chunks: seq<Chunk>)
    ensures returningBuff == Encoded(codec, chunks) && Concat(chunks) == data
    ensures Allowed(BelowRaw(limit), chunks) && Greedy(BelowRaw(limit), chunks)
  {
    chunks := [];
    returningBuff := [];
    var currentChunk: Chunk := [];
    var lenChunk := 0;
    assert RawState(codec, limit, data[..0], returningBuff, chunks, currentChunk);
    assert Total([]) == 0;
    hide RawState, Encoded, Total, Allowed, Greedy, Concat;
    for i := 0 to |data|
      invariant lenChunk == Total(currentChunk)
      invariant RawState(codec, limit, data[..i], returningBuff, chunks, currentChunk)
    {
      var element := data[i];
      var isBuffToLarge := lenChunk + |element| >= limit;
      var chunkNotEmpty := |currentChunk| > 0;
      if isBuffToLarge && chunkNotEmpty {
        RawClose(codec, limit, data, i, returningBuff, chunks, currentChunk);
        returningBuff := returningBuff + [codec.marshal(currentChunk)];
        chunks := chunks + [currentChunk];
        currentChunk := [];
        lenChunk := 0;
        assert currentChunk + [element] == [element];
      } else {
        RawTake(codec, limit, data, i, returningBuff, chunks, currentChunk);
      }
      currentChunk := currentChunk + [element];
      lenChunk := lenChunk + |element|;
    }
    RawFinish(codec, limit, data, returningBuff, chunks, currentChunk);
    chunks := AllChunks(chunks, currentChunk);
    if |currentChunk| > 0 {
      returningBuff := returningBuff + [codec.marshal(currentChunk)];
    }
  }

  /** Packs by raw length. The packets carry the data in order, each is a single element or stays
      below the limit, and no other such split needs fewer packets. */
  method SimplePackDataInChunks(codec: Codec, input: Option<Chunk>, limit: int)
    returns (r: Result<seq<seq<Byte>>, PackError>, ghost chunks: seq<Chunk>)
    ensures r == Err(ErrInvalidValue) <==> limit < 1
    ensures r == Err(ErrNilInputData) <==> limit >= 1 && input == None
    ensures r.Ok? ==>
              && |r.value| == |chunks| && (forall k | 0 <= k < |chunks| :: r.value[k] == codec.marshal(chunks[k]))
              && Concat(chunks) == input.value
              && (forall k | 0 <= k < |chunks| ::
                    chunks[k] != [] && (|chunks[k]| == 1 || Total(chunks[k]) < limit))
              && (Sound(codec) ==> Decoded(codec, r.value) == input.value)
              && (forall other | Allowed(BelowRaw(limit), other) && Concat(other) == input.value ::
                    |r.value| <= |other|)
  {
    if limit < MINIMUM_MAX_PACKET_SIZE_IN_BYTES {
      return Err(ErrInvalidValue), [];
    }
    if input == None {
      return Err(ErrNilInputData), [];
    }
    var packets;
    packets, chunks := PackRaw(codec, input.value, limit);
    if Sound(codec) {
      DecodedEncoded(codec, chunks);
    }
    RawIsShrinkable(limit);
    forall other | Allowed(BelowRaw(limit), other) && Concat(other) == input.value ensures |packets| <= |other| {
      GreedyIsOptimal(BelowRaw(limit), chunks, other);
    }
    r := Ok(packets);
  }

  /** What a packet of the raw packer may hold: one element, or less than the limit in all. */
  lemma RawRule(limit: int, chunks: seq<Chunk>)
    ensures Allowed(BelowRaw(limit), chunks) <==>
            forall k | 0 <= k < |chunks| :: chunks[k] != [] && (|chunks[k]| == 1 || Total(chunks[k]) < limit)
  {
  }

  // ---------------------------------------------------------------------------------------------
  // Packing by marshalled length
  // ---------------------------------------------------------------------------------------------

  function BelowMarshalled(codec: Codec, limit: int): Chunk -> bool {
    c => |codec.marshal(c)| < limit
  }

  /** What a packet of the size packer may hold: one element, or less than the limit when marshalled. */
  lemma SizeRule(codec: Codec, limit: int, chunks: seq<Chunk>)
    ensures Allowed(BelowMarshalled(codec, limit), chunks) <==>
            forall k | 0 <= k < |chunks| :: chunks[k] != [] && (|chunks[k]| == 1 || |codec.marshal(chunks[k])| < limit)
  {
  }

  /** Closed chunks and the open one. */
  datatype Split = Split(closed: seq<Chunk>, open: Chunk)

  function NextSplit(fits: Chunk -> bool, before: Split, e: Element): Split {
    if fits(before.open + [e]) then Split(before.closed, before.open + [e])
    else
      var closed := AllChunks(before.closed, before.open);
      if fits([e]) then Split(closed, [e]) else Split(closed + [[e]], [])
  }

  /** The intended packing: an element joins the open chunk if that still fits, otherwise the open
      chunk is closed; an element that does not even fit alone is a chunk of its own. */
  function SplitBySize(fits: Chunk -> bool, data: Chunk): (s: Split) {
    if data == [] then Split([], [])
    else NextSplit(fits, SplitBySize(fits, data[..|data| - 1]), data[|data| - 1])
  }

  function ChunksBySize(fits: Chunk -> bool, data: Chunk): seq<Chunk> {
    var s := SplitBySize(fits, data);
    AllChunks(s.closed, s.open)
  }

  /** Either the chunk is too large by itself, or the next element would have made it so. */
  ghost predicate Breaks(fits: Chunk -> bool, a: Chunk, b: Chunk) {
    !fits(a) || !fits(Extended([a, b], 0))
  }

  ghost predicate BreaksAt(fits: Chunk -> bool, chunks: seq<Chunk>, k: nat)
    requires k < |chunks| - 1
  {
    Breaks(fits, chunks[k], chunks[k + 1])
  }

  ghost predicate Chained(fits: Chunk -> bool, chunks: seq<Chunk>) {
    forall k: nat | k < |chunks| - 1 :: BreaksAt(fits, chunks, k)
  }

  lemma ChainedAppend(fits: Chunk -> bool, chunks: seq<Chunk>, c: Chunk)
    requires Chained(fits, chunks) && (chunks != [] ==> Breaks(fits, chunks[|chunks| - 1], c))
    ensures Chained(fits, chunks + [c])
  {
    var longer := chunks + [c];
    forall k: nat | k < |longer| - 1 ensures BreaksAt(fits, longer, k) {
      if k < |chunks| - 1 {
        assert BreaksAt(fits, chunks, k);
      }
    }
  }

  ghost predicate SplitInvariant(fits: Chunk -> bool, data: Chunk, s: Split) {
    && Concat(s.closed) + s.open == data
    && Allowed(fits, s.closed)
    && (s.open != [] ==> fits(s.open))
    && Chained(fits, s.closed)
    && (s.closed != [] && s.open != [] ==> Breaks(fits, s.closed[|s.closed| - 1], s.open))
    && (s.closed != [] && s.open == [] ==> !fits(s.closed[|s.closed| - 1]))
  }

  lemma SplitJoin(fits: Chunk -> bool, data: Chunk, before: Split, e: Element)
    requires SplitInvariant(fits, data, before) && fits(before.open + [e])
    ensures SplitInvariant(fits, data + [e], Split(before.closed, before.open + [e]))
  {
    assert Concat(before.closed) + (before.open + [e]) == data + [e];
    if before.closed != [] && before.open != [] {
      var last := before.closed[|before.closed| - 1];
      assert Extended([last, before.open + [e]], 0) == Extended([last, before.open], 0);
    }
  }

  /** Closing the open chunk, if there is one. */
  lemma CloseOpen(fits: Chunk -> bool, data: Chunk, before: Split, e: Element)
    requires SplitInvariant(fits, data, before) && !fits(before.open + [e])
    ensures var closed := AllChunks(before.closed, before.open);
            && Concat(closed) == data && Allowed(fits, closed) && Chained(fits, closed)
            && (closed != [] ==> Breaks(fits, closed[|closed| - 1], [e]))
  {
    if before.open != [] {
      ConcatAppend(before.closed, before.open);
      ChainedAppend(fits, before.closed, before.open);
      assert Extended([before.open, [e]], 0) == before.open + [e];
    }
  }

  lemma SplitClose(fits: Chunk -> bool, data: Chunk, before: Split, e: Element)
    requires SplitInvariant(fits, data, before) && !fits(before.open + [e])
    ensures var closed := AllChunks(before.closed, before.open);
            SplitInvariant(fits, data + [e], if fits([e]) then Split(closed, [e]) else Split(closed + [[e]], []))
  {
    var closed := AllChunks(before.closed, before.open);
    CloseOpen(fits, data, before, e);
    if !fits([e]) {
      ConcatAppend(closed, [e]);
      ChainedAppend(fits, closed, [e]);
      assert Concat(closed + [[e]]) + [] == data + [e];
    }
  }

  lemma SplitStep(fits: Chunk -> bool, data: Chunk, before: Split, e: Element)
    requires SplitInvariant(fits, data, before)
    ensures SplitInvariant(fits, data + [e], NextSplit(fits, before, e))
  {
    if fits(before.open + [e]) {
      SplitJoin(fits, data, before, e);
    } else {
      SplitClose(fits, data, before, e);
    }
  }

  lemma {:induction false} SplitBySizeInvariant(fits: Chunk -> bool, data: Chunk)
    ensures SplitInvariant(fits, data, SplitBySize(fits, data))
  {
    if data != [] {
      var n := |data| - 1;
      var e := data[n];
      var before := SplitBySize(fits, data[..n]);
      SplitBySizeInvariant(fits, data[..n]);
      assert data == data[..n] + [e];
      SplitStep(fits, data[..n], before, e);
    }
  }

  /** The intended chunks hold the data in order; every chunk of several elements fits. */
  lemma ChunksBySizeHoldData(fits: Chunk -> bool, data: Chunk)
    ensures Concat(ChunksBySize(fits, data)) == data
    ensures Allowed(fits, ChunksBySize(fits, data))
  {
    SplitBySizeInvariant(fits, data);
    var s := SplitBySize(fits, data);
    ConcatAppend(s.closed, s.open);
  }

  /** If shrinking never lengthens a marshalled list, no split with such packets needs fewer of them. */
  lemma ChunksBySizeOptimal(fits: Chunk -> bool, data: Chunk, other: seq<Chunk>)
    requires Shrinkable(fits) && Allowed(fits, other) && Concat(other) == data
    ensures |ChunksBySize(fits, data)| <= |other|
  {
    var chunks := ChunksBySize(fits, data);
    ChunksBySizeHoldData(fits, data);
    SplitBySizeInvariant(fits, data);
    var s := SplitBySize(fits, data);
    if s.open != [] {
      ChainedAppend(fits, s.closed, s.open);
    }
    forall k: nat | k < |chunks| - 1 ensures !fits(Extended(chunks, k)) {
      assert BreaksAt(fits, chunks, k);
      var longer := Extended(chunks, k);
      assert longer == Extended([chunks[k], chunks[k + 1]], 0);
      assert longer[0..|chunks[k]|] == chunks[k];
    }
    GreedyIsOptimal(fits, chunks, other);
  }

  /** A chunk that is sent as an empty buffer: a lone element that fits, that was put aside because
      it overflowed the chunk before it, and that the very next element overflows in turn. */
  predicate Blanked(fits: Chunk -> bool, chunks: seq<Chunk>, k: nat)
    requires k < |chunks|
  {
    0 < k < |chunks| - 1 && |chunks[k]| == 1 && fits(chunks[k]) && fits(chunks[k - 1])
  }

  /** What goes out for the intended chunks. */
  function Sent(codec: Codec, limit: int, chunks: seq<Chunk>): (packets: seq<seq<Byte>>)
    ensures |packets| == |chunks|
  {
    seq(|chunks|, k requires 0 <= k < |chunks| =>
      if Blanked(BelowMarshalled(codec, limit), chunks, k) then [] else codec.marshal(chunks[k]))
  }

  /** The elements that are not blanked, in order. */
  function Kept(fits: Chunk -> bool, chunks: seq<Chunk>, n: nat): Chunk
    requires n <= |chunks|
  {
    if n == 0 then [] else Kept(fits, chunks, n - 1) + (if Blanked(fits, chunks, n - 1) then [] else chunks[n - 1])
  }

  lemma {:induction false} DecodedSent(codec: Codec, limit: int, chunks: seq<Chunk>, n: nat)
    requires Sound(codec) && n <= |chunks| && (forall k | 0 <= k < |chunks| :: chunks[k] != [])
    ensures Decoded(codec, Sent(codec, limit, chunks)[..n]) == Kept(BelowMarshalled(codec, limit), chunks, n)
  {
    if n > 0 {
      DecodedSent(codec, limit, chunks, n - 1);
      var packets := Sent(codec, limit, chunks);
      assert packets[..n][..n - 1] == packets[..n - 1];
      assert codec.unmarshal(codec.marshal(chunks[n - 1])) == chunks[n - 1];
    }
  }

  /** Blanking shortens, by exactly the blanked elements. */
  lemma {:induction false} KeptLength(fits: Chunk -> bool, chunks: seq<Chunk>, n: nat)
    requires n <= |chunks|
    ensures |Kept(fits, chunks, n)| <= |Concat(chunks[..n])|
    ensures (forall k: nat | k < n :: !Blanked(fits, chunks, k)) ==> Kept(fits, chunks, n) == Concat(chunks[..n])
    ensures (exists k: nat :: k < n && Blanked(fits, chunks, k)) ==> |Kept(fits, chunks, n)| < |Concat(chunks[..n])|
  {
    if n > 0 {
      KeptLength(fits, chunks, n - 1);
      assert chunks[..n][..n - 1] == chunks[..n - 1];
    }
  }

  /** The receiver gets the data back exactly when no chunk is blanked. */
  lemma LosslessIff(codec: Codec, limit: int, data: Chunk)
    requires Sound(codec)
    ensures var fits := BelowMarshalled(codec, limit);
            var chunks := ChunksBySize(fits, data);
            && Decoded(codec, Sent(codec, limit, chunks)) == Kept(fits, chunks, |chunks|)
            && (Decoded(codec, Sent(codec, limit, chunks)) == data <==>
                forall k: nat | k < |chunks| :: !Blanked(fits, chunks, k))
  {
    var fits := BelowMarshalled(codec, limit);
    var chunks := ChunksBySize(fits, data);
    ChunksBySizeHoldData(fits, data);
    DecodedSent(codec, limit, chunks, |chunks|);
    assert Sent(codec, limit, chunks)[..|chunks|] == Sent(codec, limit, chunks);
    assert chunks[..|chunks|] == chunks;
    KeptLength(fits, chunks, |chunks|);
  }

  lemma SplitThree(fits: Chunk -> bool, e: Element)
    requires fits([e]) && !fits([e, e])
    ensures ChunksBySize(fits, [e, e, e]) == [[e], [e], [e]]
  {
    assert [e][..0] == [] && [e, e][..1] == [e] && [e, e, e][..2] == [e, e];
    assert [e] + [e] == [e, e] && [] + [e] == [e];
    assert SplitBySize(fits, []) == Split([], []);
    assert SplitBySize(fits, [e]) == Split([], [e]);
    assert SplitBySize(fits, [e, e]) == Split([[e]], [e]);
    assert SplitBySize(fits, [e, e, e]) == Split([[e], [e]], [e]);
  }

  lemma KeptOfThree(fits: Chunk -> bool, e: Element)
    requires fits([e])
    ensures Kept(fits, [[e], [e], [e]], 3) == [e, e]
  {
    var chunks := [[e], [e], [e]];
    assert Kept(fits, chunks, 0) == [];
    assert Kept(fits, chunks, 1) == [e];
    assert Kept(fits, chunks, 2) == [e];
  }

  /** Three equal elements that fit alone but not in pairs: the one in the middle is lost. */
  lemma MiddleElementLost(codec: Codec, limit: int, e: Element)
    requires Sound(codec)
    requires |codec.marshal([e])| < limit <= |codec.marshal([e, e])|
    ensures var fits := BelowMarshalled(codec, limit);
            && ChunksBySize(fits, [e, e, e]) == [[e], [e], [e]]
            && Sent(codec, limit, [[e], [e], [e]]) == [codec.marshal([e]), [], codec.marshal([e])]
            && Decoded(codec, Sent(codec, limit, [[e], [e], [e]])) == [e, e]
  {
    var fits := BelowMarshalled(codec, limit);
    SplitThree(fits, e);
    KeptOfThree(fits, e);
    hide ChunksBySize, Kept, Decoded;
    var chunks := [[e], [e], [e]];
    var packets := Sent(codec, limit, chunks);
    assert Blanked(fits, chunks, 1);
    DecodedSent(codec, limit, chunks, 3);
    assert packets[..3] == packets;
  }

  /** Whether a chunk would be blanked if it were closed right after `closed`. */
  predicate BlankAfter(fits: Chunk -> bool, closed: seq<Chunk>, c: Chunk) {
    closed != [] && |c| == 1 && fits(c) && fits(closed[|closed| - 1])
  }

  /** What has gone out for the closed chunks. */
  function SentClosed(codec: Codec, limit: int, closed: seq<Chunk>): seq<seq<Byte>> {
    if closed == [] then []
    else
      var before, c := closed[..|closed| - 1], closed[|closed| - 1];
      SentClosed(codec, limit, before)
      + [if BlankAfter(BelowMarshalled(codec, limit), before, c) then [] else codec.marshal(c)]
  }

  lemma SentClosedAppend(codec: Codec, limit: int, closed: seq<Chunk>, c: Chunk)
    ensures SentClosed(codec, limit, closed + [c]) == SentClosed(codec, limit, closed)
              + [if BlankAfter(BelowMarshalled(codec, limit), closed, c) then [] else codec.marshal(c)]
  {
    assert (closed + [c])[..|closed|] == closed;
  }

  lemma {:induction false} SentClosedAt(codec: Codec, limit: int, closed: seq<Chunk>)
    ensures |SentClosed(codec, limit, closed)| == |closed|
    ensures forall k | 0 <= k < |closed| ::
              SentClosed(codec, limit, closed)[k]
              == if BlankAfter(BelowMarshalled(codec, limit), closed[..k], closed[k]) then []
                 else codec.marshal(closed[k])
  {
    if closed != [] {
      var n := |closed| - 1;
      SentClosedAt(codec, limit, closed[..n]);
      forall k | 0 <= k < n ensures closed[..n][..k] == closed[..k] { }
    }
  }

  lemma BlankedIsBlankAfter(fits: Chunk -> bool, data: Chunk, s: Split, k: nat)
    requires SplitInvariant(fits, data, s) && k < |s.closed|
    ensures |s.closed| <= |AllChunks(s.closed, s.open)| && AllChunks(s.closed, s.open)[k] == s.closed[k]
    ensures Blanked(fits, AllChunks(s.closed, s.open), k) == BlankAfter(fits, s.closed[..k], s.closed[k])
  {
  }

  /** Sending what is still open completes the packets of the intended chunks. */
  lemma SentAtTheEnd(codec: Codec, limit: int, data: Chunk, s: Split)
    requires SplitInvariant(BelowMarshalled(codec, limit), data, s)
    ensures Sent(codec, limit, AllChunks(s.closed, s.open))
         == SentClosed(codec, limit, s.closed) + (if s.open == [] then [] else [codec.marshal(s.open)])
  {
    var fits := BelowMarshalled(codec, limit);
    var chunks := AllChunks(s.closed, s.open);
    var expected := SentClosed(codec, limit, s.closed) + (if s.open == [] then [] else [codec.marshal(s.open)]);
    SentClosedAt(codec, limit, s.closed);
    assert s.open != [] ==> !Blanked(fits, chunks, |s.closed|);
    hide SplitInvariant, Blanked, BlankAfter, SentClosed;
    forall k: nat | k < |s.closed| ensures Sent(codec, limit, chunks)[k] == expected[k] {
      BlankedIsBlankAfter(fits, data, s, k);
    }
    assert Sent(codec, limit, chunks) == expected;
  }

  /** The cache: what the code would emit if the open chunk were closed now. */
  ghost predicate CacheFor(codec: Codec, limit: int, s: Split, cache: seq<Byte>) {
    s.open != [] ==>
      cache == if BlankAfter(BelowMarshalled(codec, limit), s.closed, s.open) then [] else codec.marshal(s.open)
  }

  /** The body of the loop. */
  method PackElement(codec: Codec, limit: int, element: Element,
                     buff: seq<seq<Byte>>, open: Chunk, cache: seq<Byte>, ghost done: Chunk, ghost before: Split)
    returns (returningBuff: seq<seq<Byte>>, elements: Chunk, lastMarshalized: seq<Byte>)
    requires SplitInvariant(BelowMarshalled(codec, limit), done, before)
    requires open == before.open && buff == SentClosed(codec, limit, before.closed)
    requires CacheFor(codec, limit, before, cache)
    ensures var after := NextSplit(BelowMarshalled(codec, limit), before, element);
            && elements == after.open && returningBuff == SentClosed(codec, limit, after.closed)
            && CacheFor(codec, limit, after, lastMarshalized)
  {
    returningBuff, lastMarshalized := buff, cache;
    elements := open + [element];
    var marshaledElements := codec.marshal(elements);
    var isSingleElement := |elements| == 1;
    var isMarshaledBuffTooLarge := |marshaledElements| >= limit;
    if isMarshaledBuffTooLarge {
      SentClosedAppend(codec, limit, before.closed, before.open);
      SentClosedAppend(codec, limit, AllChunks(before.closed, before.open), [element]);
      if isSingleElement {
        assert elements == [element];
        returningBuff := returningBuff + [marshaledElements];
        elements := [];
      } else {
        returningBuff := returningBuff + [lastMarshalized];
        elements := [element];
        marshaledElements := codec.marshal(elements);
        isMarshaledBuffTooLarge := |marshaledElements| >= limit;
        if isMarshaledBuffTooLarge {
          returningBuff := returningBuff + [marshaledElements];
          elements := [];
        }
      }
      lastMarshalized := [];
      return;
    }
    lastMarshalized := marshaledElements;
  }

  /** The packing loop, with the cached marshalling of the open chunk. */
  method PackBySize(codec: Codec, data: Chunk, limit: int) returns (returningBuff: seq<seq<Byte>>)
    ensures returningBuff == Sent(codec, limit, ChunksBySize(BelowMarshalled(codec, limit), data))
  {
    ghost var fits := BelowMarshalled(codec, limit);
    returningBuff := [];
    var elements: Chunk := [];
    var lastMarshalized: seq<Byte> := [];
    ghost var split := Split([], []);
    for i := 0 to |data|
      invariant split == SplitBySize(fits, data[..i])
      invariant elements == split.open
      invariant returningBuff == SentClosed(codec, limit, split.closed)
      invariant CacheFor(codec, limit, split, lastMarshalized)
    {
      SplitBySizeInvariant(fits, data[..i]);
      assert data[..i + 1][..i] == data[..i];
      returningBuff, elements, lastMarshalized :=
        PackElement(codec, limit, data[i], returningBuff, elements, lastMarshalized, data[..i], split);
      split := NextSplit(fits, split, data[i]);
    }
    assert data[..|data|] == data;
    SplitBySizeInvariant(fits, data);
    SentAtTheEnd(codec, limit, data, split);
    if |elements| > 0 {
      returningBuff := returningBuff + [codec.marshal(elements)];
    }
  }

  /** Packs by marshalled length. Exactly the blanked chunks go out as empty buffers, so the data
      comes back whole exactly when there are none. */
  method SizePackDataInChunks(codec: Codec, input: Option<Chunk>, limit: int)
    returns (r: Result<seq<seq<Byte>>, PackError>)
    ensures r == Err(ErrInvalidValue) <==> limit < 1
    ensures r == Err(ErrNilInputData) <==> limit >= 1 && input == None
    ensures r.Ok? ==>
              var fits := BelowMarshalled(codec, limit);
              var chunks := ChunksBySize(fits, input.value);
              && r.value == Sent(codec, limit, chunks) && Concat(chunks) == input.value
              && (forall k | 0 <= k < |chunks| ::
                    chunks[k] != [] && (|chunks[k]| == 1 || |codec.marshal(chunks[k])| < limit))
              && (Sound(codec) ==>
                    (Decoded(codec, r.value) == input.value <==>
                     forall k: nat | k < |chunks| :: !Blanked(fits, chunks, k)))
  {
    if limit < MINIMUM_MAX_PACKET_SIZE_IN_BYTES {
      return Err(ErrInvalidValue);
    }
    if input == None {
      return Err(ErrNilInputData);
    }
    var packets := PackBySize(codec, input.value, limit);
    ChunksBySizeHoldData(BelowMarshalled(codec, limit), input.value);
    if Sound(codec) {
      LosslessIff(codec, limit, input.value);
    }
    return Ok(packets);
  }
}
