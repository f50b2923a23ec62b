/** Votes of a consensus round: who has done the job of which subround
    (consensus/spos/roundState.go, roundStatus.go, roundConsensus.go, consensusState.go). */
module RoundVotes {
  import opened Bitmaps
  import opened Wrappers

  datatype VoteError = ErrInvalidKey | ErrNotFoundInConsensus

  lemma SomeKey(keys: set<int>)
    requires keys != {}
    ensures exists k :: k in keys
  {
    if forall k :: k !in keys {
      assert false;
    }
  }

  /** The jobs one validator has done, per subround; an absent subround counts as not done. */
  class RoundState {
    var jobDone: map<int, bool>

    predicate JobDone(subroundId: int)
      reads this
    {
      subroundId in jobDone && jobDone[subroundId]
    }

    constructor ()
      ensures forall s :: !JobDone(s)
    {
      jobDone := map[];
    }

    method SetJobDone(subroundId: int, value: bool)
      modifies this
      ensures forall s :: JobDone(s) == if s == subroundId then value else old(JobDone(s))
    {
      jobDone := jobDone[subroundId := value];
    }

    method ResetJobsDone()
      modifies this
      ensures jobDone.Keys == old(jobDone.Keys)
      ensures forall s :: !JobDone(s)
    {
      var keys := jobDone.Keys;
      while keys != {}
        invariant keys <= jobDone.Keys == old(jobDone.Keys)
        invariant forall s | s in jobDone :: jobDone[s] ==> s in keys
      {
        SomeKey(keys);
        var k :| k in keys;
        jobDone := jobDone[k := false];
        keys := keys - {k};
      }
    }
  }

  datatype SubroundStatus = SsNotFinished | SsFinished

  class RoundStatus {
    var status: map<int, SubroundStatus>

    function Status(subroundId: int): SubroundStatus
      reads this
    {
      if subroundId in status then status[subroundId] else SsNotFinished
    }

    constructor ()
      ensures forall s :: Status(s) == SsNotFinished
    {
      status := map[];
    }

    method SetStatus(subroundId: int, subroundStatus: SubroundStatus)
      modifies this
      ensures forall s :: Status(s) == if s == subroundId then subroundStatus else old(Status(s))
    {
      status := status[subroundId := subroundStatus];
    }

    method ResetRoundStatus()
      modifies this
      ensures forall s :: Status(s) == SsNotFinished
    {
      var keys := status.Keys;
      while keys != {}
        invariant keys <= status.Keys
        invariant forall s | s in status :: status[s] == SsFinished ==> s in keys
      {
        SomeKey(keys);
        var k :| k in keys;
        status := status[k := SsNotFinished];
        keys := keys - {k};
      }
    }
  }

  class RoundConsensus {
    var eligibleList: seq<string>
    var consensusGroup: seq<string>
    var selfPubKey: string
    var validatorRoundStates: map<string, RoundState>

    /** There is one round state per group member, none for anybody else, and no two members share one. */
    ghost predicate Valid()
      reads this
    {
      && validatorRoundStates.Keys == (set k | k in consensusGroup)
      && forall a, b | a in validatorRoundStates && b in validatorRoundStates && a != b ::
           validatorRoundStates[a] != validatorRoundStates[b]
    }

    /** Whether `key` is a member whose job in the subround is done. */
    predicate Done(key: string, subroundId: int)
      reads this, validatorRoundStates.Values
    {
      key in validatorRoundStates && validatorRoundStates[key].JobDone(subroundId)
    }

    method JobDone(key: string, subroundId: int) returns (r: Result<bool, VoteError>)
      ensures r == if key in validatorRoundStates then Ok(Done(key, subroundId)) else Err(ErrInvalidKey)
    {
      if key !in validatorRoundStates {
        return Err(ErrInvalidKey);
      }
      return Ok(validatorRoundStates[key].JobDone(subroundId));
    }

    /** The votes of a subround, in group order. */
    ghost function Votes(subroundId: int): (v: seq<bool>)
      reads this, validatorRoundStates.Values
    {
      seq(|consensusGroup|, i requires 0 <= i < |consensusGroup| reads this, validatorRoundStates.Values
        => Done(consensusGroup[i], subroundId))
    }

    constructor (eligible: seq<string>, selfId: string)
      ensures Valid() && consensusGroup == [] && eligibleList == eligible && selfPubKey == selfId
    {
      eligibleList := eligible;
      selfPubKey := selfId;
      consensusGroup := [];
      validatorRoundStates := map[];
    }

    method ConsensusGroupIndex(pubKey: string) returns (r: Result<nat, VoteError>)
      ensures r.Ok? ==> r.value < |consensusGroup| && consensusGroup[r.value] == pubKey
                        && pubKey !in consensusGroup[..r.value]
      ensures r.Err? ==> r.error == ErrNotFoundInConsensus && pubKey !in consensusGroup
    {
      for i := 0 to |consensusGroup|
        invariant pubKey !in consensusGroup[..i]
      {
        if consensusGroup[i] == pubKey {
          return Ok(i);
        }
      }
      return Err(ErrNotFoundInConsensus);
    }

    /** Whether the member at a position has done its job; an error of `JobDone` counts as no. */
    method VoteOf(i: nat, subroundId: int) returns (done: bool)
      requires i < |consensusGroup|
      ensures |Votes(subroundId)| == |consensusGroup| && done == Votes(subroundId)[i]
    {
      var isJobDone := JobDone(consensusGroup[i], subroundId);
      if isJobDone.Err? {
        return false;
      }
      return isJobDone.value;
    }

    /** Starts the vote over for a new group: nobody has done anything, whatever the group was before. */
    method SetConsensusGroup(group: seq<string>)
      modifies this
      ensures Valid() && consensusGroup == group
      ensures eligibleList == old(eligibleList) && selfPubKey == old(selfPubKey)
      ensures fresh(validatorRoundStates.Values)
      ensures forall k, s :: !Done(k, s)
    {
      consensusGroup := group;
      validatorRoundStates := map[];
      for i := 0 to |consensusGroup|
        invariant consensusGroup == group
        invariant eligibleList == old(eligibleList) && selfPubKey == old(selfPubKey)
        invariant validatorRoundStates.Keys == (set k | k in consensusGroup[..i])
        invariant forall k | k in validatorRoundStates :: fresh(validatorRoundStates[k])
        invariant forall a, b | a in validatorRoundStates && b in validatorRoundStates && a != b ::
                    validatorRoundStates[a] != validatorRoundStates[b]
        invariant forall k, s :: !Done(k, s)
      {
        label before:
        var state := new RoundState();
        validatorRoundStates := validatorRoundStates[consensusGroup[i] := state];
        forall k, s ensures !Done(k, s) {
          assert k != consensusGroup[i] ==> !old@before(Done(k, s));
        }
      }
    }

    /** Records one vote and touches no other; a key outside the group is refused and changes nothing. */
    method SetJobDone(key: string, subroundId: int, value: bool) returns (r: Result<(), VoteError>)
      requires Valid()
      modifies validatorRoundStates.Values
      ensures Valid()
      ensures r == if key in consensusGroup then Ok(()) else Err(ErrInvalidKey)
      ensures forall k, s :: Done(k, s) ==
                if k == key && s == subroundId && key in consensusGroup then value else old(Done(k, s))
    {
      if key !in validatorRoundStates {
        return Err(ErrInvalidKey);
      }
      validatorRoundStates[key].SetJobDone(subroundId, value);
      return Ok(());
    }

    /** The number of votes of a subround. */
    method ComputeSize(subroundId: int) returns (n: nat)
      requires Valid()
      ensures n == CountTrue(Votes(subroundId))
    {
      n := 0;
      for i := 0 to |consensusGroup|
        invariant n == CountTrue(Votes(subroundId)[..i])
      {
        assert Votes(subroundId)[..i + 1][..i] == Votes(subroundId)[..i];
        var done := JobDone(consensusGroup[i], subroundId);
        if done.Err? {
          continue;
        }
        if done.value {
          n := n + 1;
        }
      }
      assert Votes(subroundId)[..|consensusGroup|] == Votes(subroundId);
    }

    method ResetRoundState()
      requires Valid()
      modifies validatorRoundStates.Values
      ensures Valid()
      ensures forall k, s :: !Done(k, s)
    {
      for i := 0 to |consensusGroup|
        invariant forall j, s | 0 <= j < i :: !Done(consensusGroup[j], s)
      {
        if consensusGroup[i] !in validatorRoundStates {
          continue;
        }
        var state := validatorRoundStates[consensusGroup[i]];
        label Before:
        state.ResetJobsDone();
        forall j, s | 0 <= j <= i ensures !Done(consensusGroup[j], s) {
          assert validatorRoundStates[consensusGroup[j]] == state || !old@Before(Done(consensusGroup[j], s));
        }
      }
    }
  }

  /** The fields of a consensus message that the round state looks at. */
  datatype Vote = Vote(pubKey: string, blockHeaderHash: seq<Byte>, roundIndex: int)

  class ConsensusState {
    const roundConsensus: RoundConsensus
    const roundStatus: RoundStatus
    var data: Option<seq<Byte>>
    var blockBody: Option<seq<Byte>>
    var header: Option<seq<Byte>>
    var roundIndex: int
    var roundCanceled: bool
    var threshold: map<int, int>

    ghost predicate Valid()
      reads this, roundConsensus
    {
      roundConsensus.Valid()
    }

    ghost function Repr(): set<object>
      reads this, roundConsensus
    {
      {this, roundConsensus, roundStatus} + roundConsensus.validatorRoundStates.Values
    }

    /** A new round starts with no data, nobody's job done and no subround finished. */
    method ResetConsensusState()
      requires Valid()
      modifies this`data, this`blockBody, this`header, this`roundCanceled
      modifies roundStatus, roundConsensus.validatorRoundStates.Values
      ensures Valid()
      ensures data == None && blockBody == None && header == None && !roundCanceled
      ensures forall s :: roundStatus.Status(s) == SsNotFinished
      ensures forall k, s :: !roundConsensus.Done(k, s)
      ensures forall s :: CountTrue(roundConsensus.Votes(s)) == 0
    {
      blockBody := None;
      header := None;
      data := None;
      roundCanceled := false;
      roundStatus.ResetRoundStatus();
      roundConsensus.ResetRoundState();
      forall s ensures CountTrue(roundConsensus.Votes(s)) == 0 {
        CountTrueExtremes(roundConsensus.Votes(s));
      }
    }

    constructor (rcns: RoundConsensus, rstatus: RoundStatus)
      requires rcns.Valid()
      modifies rstatus, rcns.validatorRoundStates.Values
      ensures Valid() && roundConsensus == rcns && roundStatus == rstatus && data == None
      ensures forall k, s :: !roundConsensus.Done(k, s)
    {
      roundConsensus := rcns;
      roundStatus := rstatus;
      data := None;
      blockBody := None;
      header := None;
      roundIndex := 0;
      roundCanceled := false;
      threshold := map[];
      new;
      ResetConsensusState();
    }

    predicate IsSelfLeaderInCurrentRound()
      reads this, roundConsensus
    {
      roundConsensus.consensusGroup != [] && roundConsensus.consensusGroup[0] == roundConsensus.selfPubKey
    }

    predicate CanProcessReceivedMessage(vote: Vote, currentRoundIndex: int, currentSubroundId: int)
      reads Repr()
    {
      && vote.pubKey != roundConsensus.selfPubKey
      && currentRoundIndex == vote.roundIndex
      && !roundConsensus.Done(vote.pubKey, currentSubroundId)
      && roundStatus.Status(currentSubroundId) != SsFinished
    }

    /** The signer bitmap: bit `i` tells whether member `i` has done its job, every further bit is zero,
        and the ones are as many as `ComputeSize` reports. */
    method GenerateBitmap(subroundId: int) returns (bitmap: array<Byte>)
      requires Valid()
      ensures fresh(bitmap)
      ensures bitmap.Length == |roundConsensus.consensusGroup| / 8 + 1
      ensures Encodes(bitmap[..], roundConsensus.Votes(subroundId))
      ensures forall i | 0 <= i < |roundConsensus.consensusGroup| ::
                BitAt(bitmap[..], i) <==> roundConsensus.Done(roundConsensus.consensusGroup[i], subroundId)
      ensures PopCount(bitmap[..]) == CountTrue(roundConsensus.Votes(subroundId))
    {
      var sizeConsensus := |roundConsensus.consensusGroup|;
      bitmap := new Byte[sizeConsensus / 8 + 1](_ => 0);
      ghost var votes := roundConsensus.Votes(subroundId);
      ZeroEncodes(bitmap[..], Prefix(votes, 0));
      hide Encodes, Prefix, CountTrue, PopCount, SetBit;
      for i := 0 to sizeConsensus
        invariant Encodes(bitmap[..], Prefix(votes, i)) && roundConsensus.Votes(subroundId) == votes
      {
        PrefixStep(bitmap[..], votes, i);
        var done := roundConsensus.VoteOf(i, subroundId);
        if done {
          SetBitInPlace(bitmap, i);
        }
      }
      PrefixAll(votes);
      PopCountOfEncoding(bitmap[..], votes);
    }
  }

  ghost predicate Distinct(group: seq<string>) {
    forall i, j | 0 <= i < j < |group| :: group[i] != group[j]
  }

  lemma {:induction false} CountTrueRaise(flags: seq<bool>, i: nat)
    requires i < |flags| && !flags[i]
    ensures CountTrue(flags[i := true]) == CountTrue(flags) + 1
  {
    var raised := flags[i := true];
    if i < |flags| - 1 {
      CountTrueRaise(flags[..|flags| - 1], i);
      assert raised[..|flags| - 1] == flags[..|flags| - 1][i := true];
    } else {
      assert raised[..|flags| - 1] == flags[..|flags| - 1];
    }
  }

  /** When one member of a group without repetitions votes, the tally rises by one. */
  lemma OneMoreVote(group: seq<string>, before: seq<bool>, after: seq<bool>, index: nat)
    requires Distinct(group) && |before| == |after| == |group| && index < |group| && !before[index]
    requires forall i | 0 <= i < |group| :: after[i] == (before[i] || group[i] == group[index])
    ensures CountTrue(after) == CountTrue(before) + 1
  {
    assert after == before[index := true];
    CountTrueRaise(before, index);
  }

  const SR_SIGNATURE := 2

  /** A received signature is counted at most once per member and only while it can still matter:
      a vote that is counted raises the tally by one, a vote that is not leaves the state as it was.
      Storing the share in the multi-signer is reported by `stored`. */
  method ReceivedSignature(cns: ConsensusState, vote: Vote, rounderIndex: int, stored: bool) returns (counted: bool)
    requires cns.Valid()
    modifies cns.roundConsensus.validatorRoundStates.Values
    ensures cns.Valid()
    ensures var group := cns.roundConsensus.consensusGroup;
            counted <==>
            && stored && cns.data == Some(vote.blockHeaderHash) && vote.roundIndex == rounderIndex
            && vote.pubKey in group && vote.pubKey != cns.roundConsensus.selfPubKey
            && old(!cns.roundConsensus.Done(vote.pubKey, SR_SIGNATURE))
            && cns.roundStatus.Status(SR_SIGNATURE) == SsNotFinished
            && (group[0] == cns.roundConsensus.selfPubKey ==>
                  old(CountTrue(cns.roundConsensus.Votes(SR_SIGNATURE)))
                  < if SR_SIGNATURE in cns.threshold then cns.threshold[SR_SIGNATURE] else 0)
    ensures counted ==> !cns.CanProcessReceivedMessage(vote, rounderIndex, SR_SIGNATURE)
    ensures forall k, s :: cns.roundConsensus.Done(k, s) <==>
              old(cns.roundConsensus.Done(k, s)) || (counted && k == vote.pubKey && s == SR_SIGNATURE)
    ensures Distinct(cns.roundConsensus.consensusGroup) ==>
              CountTrue(cns.roundConsensus.Votes(SR_SIGNATURE))
              == old(CountTrue(cns.roundConsensus.Votes(SR_SIGNATURE))) + (if counted then 1 else 0)
  {
    hide CountTrue, Distinct;
    ghost var votes := cns.roundConsensus.Votes(SR_SIGNATURE);
    if cns.data == None || cns.data.value != vote.blockHeaderHash {
      return false;
    }
    if !cns.CanProcessReceivedMessage(vote, rounderIndex, SR_SIGNATURE) {
      return false;
    }
    if cns.IsSelfLeaderInCurrentRound() {
      var n := cns.roundConsensus.ComputeSize(SR_SIGNATURE);
      if n >= (if SR_SIGNATURE in cns.threshold then cns.threshold[SR_SIGNATURE] else 0) {
        return false;
      }
    }
    var index := cns.roundConsensus.ConsensusGroupIndex(vote.pubKey);
    if index.Err? || !stored {
      return false;
    }
    var recorded := cns.roundConsensus.SetJobDone(vote.pubKey, SR_SIGNATURE, true);
    if recorded.Err? {
      return false;
    }
    if Distinct(cns.roundConsensus.consensusGroup) {
      OneMoreVote(cns.roundConsensus.consensusGroup, votes, cns.roundConsensus.Votes(SR_SIGNATURE), index.value);
    }
    return true;
  }

  // ---------------------------------------------------------------------------------------------
  // Whole histories
  // ---------------------------------------------------------------------------------------------

  datatype VoteOp = NewGroup(group: seq<string>) | Job(key: string, subroundId: int, done: bool) | Reset

  /** The plain account of a vote: the group, and who has done what. */
  datatype Board = Board(group: seq<string>, done: set<(string, int)>)

  /** What the board says after a history. */
  function BoardAfter(ops: seq<VoteOp>): Board {
    if ops == [] then Board([], {})
    else
      var before := BoardAfter(ops[..|ops| - 1]);
      match ops[|ops| - 1]
      case NewGroup(group) => Board(group, {})
      case Job(key, subroundId, done) =>
        if key !in before.group then before
        else if done then before.(done := before.done + {(key, subroundId)})
        else before.(done := before.done - {(key, subroundId)})
      case Reset => before.(done := {})
  }

  ghost function BoardVotes(b: Board, subroundId: int): seq<bool> {
    seq(|b.group|, i requires 0 <= i < |b.group| => (b.group[i], subroundId) in b.done)
  }

  /** After any history of new groups, votes, withdrawn votes, votes of strangers and resets, the
      bitmap shows the board, and its ones are as many as the computed size. */
  method ReplayVotes(ops: seq<VoteOp>, subroundId: int) returns (bitmap: seq<Byte>, size: nat)
    ensures |bitmap| == |BoardAfter(ops).group| / 8 + 1
    ensures Encodes(bitmap, BoardVotes(BoardAfter(ops), subroundId))
    ensures forall i | 0 <= i < |BoardAfter(ops).group| ::
              BitAt(bitmap, i) <==> (BoardAfter(ops).group[i], subroundId) in BoardAfter(ops).done
    ensures size == PopCount(bitmap)
  {
    hide Encodes, CountTrue, PopCount;
    var rcns := new RoundConsensus([], "");
    var rstatus := new RoundStatus();
    var cns := new ConsensusState(rcns, rstatus);
    for i := 0 to |ops|
      invariant fresh(cns) && fresh(rcns) && fresh(rstatus) && fresh(rcns.validatorRoundStates.Values)
      invariant cns.roundConsensus == rcns && cns.roundStatus == rstatus && rcns.Valid()
      invariant rcns.consensusGroup == BoardAfter(ops[..i]).group
      invariant forall k, s :: rcns.Done(k, s) <==> (k, s) in BoardAfter(ops[..i]).done
    {
      assert ops[..i + 1][..i] == ops[..i];
      match ops[i] {
        case NewGroup(group) =>
          rcns.SetConsensusGroup(group);
        case Job(key, s, done) =>
          var _ := rcns.SetJobDone(key, s, done);
        case Reset =>
          cns.ResetConsensusState();
      }
    }
    assert ops[..|ops|] == ops;
    var bits := cns.GenerateBitmap(subroundId);
    bitmap := bits[..];
    assert rcns.Votes(subroundId) == BoardVotes(BoardAfter(ops), subroundId);
    size := rcns.ComputeSize(subroundId);
  }
}
