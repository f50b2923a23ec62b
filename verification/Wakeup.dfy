/** Waiting for the consensus state to change (consensus/spos/subround.go, worker.go): a subround
    parks on a channel of capacity one; the message handler and the sync listener put a token there
    after a change, unless they see one already. */
module Wakeups {

  /** A producer, between a change it reports and its return to idleness. Having seen the channel
      empty it sends, and blocks while another token is in the way. */
  datatype Producer = Idle | Reported | Sending

  /** Where `DoWork` is. `Working` and `Woken` are about to check; `seen` is how many changes had
      been reported when the latest check began. */
  datatype Subround = Outside | Working | Checking(seen: nat) | Parked(seen: nat) | Woken

  /** Changes reported so far, whether the channel holds a token, the producers, and the subround. */
  datatype State = State(changes: nat, token: bool, producers: map<nat, Producer>, subround: Subround)

  datatype Step =
    | Report(p: nat)      // a handler returns true, or the node becomes synchronized
    | Look(p: nat)        // the producer reads the length of the channel
    | Send(p: nat)        // the producer's token goes in
    | Begin               // DoWork starts with its job
    | Check               // a check starts
    | Answer(ok: bool)    // the check ends
    | Wake                // the parked subround takes the token
    | TimeOut             // the parked subround gives up

  function ProducerOf(s: State, p: nat): Producer {
    if p in s.producers then s.producers[p] else Idle
  }

  predicate Enabled(s: State, step: Step) {
    match step
    case Report(p) => ProducerOf(s, p) == Idle
    case Look(p) => ProducerOf(s, p) == Reported
    case Send(p) => ProducerOf(s, p) == Sending && !s.token
    case Begin => s.subround == Outside
    case Check => s.subround == Working || s.subround == Woken
    case Answer(_) => s.subround.Checking?
    case Wake => s.subround.Parked? && s.token
    case TimeOut => s.subround.Parked?
  }

  function Next(s: State, step: Step): State
    requires Enabled(s, step)
  {
    match step
    case Report(p) => s.(changes := s.changes + 1, producers := s.producers[p := Reported])
    case Look(p) => s.(producers := s.producers[p := if s.token then Idle else Sending])
    case Send(p) => s.(token := true, producers := s.producers[p := Idle])
    case Begin => s.(subround := Working)
    case Check => s.(subround := Checking(s.changes))
    case Answer(ok) => s.(subround := if ok then Outside else Parked(s.subround.seen))
    case Wake => s.(token := false, subround := Woken)
    case TimeOut => s.(subround := Outside)
  }

  const INITIAL := State(0, false, map[], Outside)

  /** The state after a run; a step that is not possible does not happen. */
  function Run(steps: seq<Step>): State {
    if steps == [] then INITIAL
    else
      var s := Run(steps[..|steps| - 1]);
      if Enabled(s, steps[|steps| - 1]) then Next(s, steps[|steps| - 1]) else s
  }

  /** The latest check may have missed a change. */
  predicate Stale(s: State) {
    (s.subround.Checking? || s.subround.Parked?) && s.subround.seen < s.changes
  }

  /** A producer has still to look or to send. */
  ghost predicate Underway(s: State) {
    exists p: nat :: ProducerOf(s, p) != Idle
  }

  ghost predicate Covered(s: State) {
    && (s.subround.Checking? || s.subround.Parked? ==> s.subround.seen <= s.changes)
    && (Stale(s) ==> s.token || Underway(s))
  }

  lemma NextCovered(s: State, step: Step)
    requires Covered(s) && Enabled(s, step)
    ensures Covered(Next(s, step))
  {
    var s' := Next(s, step);
    if Stale(s') && !s'.token {
      if step.Report? {
        assert ProducerOf(s', step.p) == Reported;
      } else if step.Look? {
        assert ProducerOf(s', step.p) == Sending;
      } else {
        assert Stale(s) && !s.token;
        var p: nat :| ProducerOf(s, p) != Idle;
        assert ProducerOf(s', p) != Idle;
      }
    }
  }

  lemma {:induction false} RunCovered(steps: seq<Step>)
    ensures Covered(Run(steps))
  {
    if steps != [] {
      var n := |steps| - 1;
      RunCovered(steps[..n]);
      if Enabled(Run(steps[..n]), steps[n]) {
        NextCovered(Run(steps[..n]), steps[n]);
      }
    }
  }

  /** Step `i` of a run does happen. */
  predicate Happens(steps: seq<Step>, i: nat)
    requires i < |steps|
  {
    Enabled(Run(steps[..i]), steps[i])
  }

  /** The check whose result the subround has or waits for. */
  lemma {:induction false} LatestCheck(steps: seq<Step>) returns (i: nat)
    requires Run(steps).subround.Checking? || Run(steps).subround.Parked?
    ensures i < |steps| && steps[i] == Check && Happens(steps, i)
    ensures Run(steps[..i]).changes == Run(steps).subround.seen
    ensures forall j: nat | i < j < |steps| && Happens(steps, j) :: steps[j] != Check
  {
    var n := |steps| - 1;
    var s := Run(steps[..n]);
    if steps[n] == Check && Happens(steps, n) {
      i := n;
    } else {
      assert s.subround == Run(steps).subround || (s.subround.Checking? && s.subround.seen == Run(steps).subround.seen);
      hide Run, Enabled;
      i := LatestCheck(steps[..n]);
      forall j: nat | j < n ensures steps[..n][..j] == steps[..j] { }
    }
  }

  /** Every change that is reported counts. */
  lemma {:induction false} ChangesCount(steps: seq<Step>, i: nat, j: nat)
    requires i < |steps| && i <= j <= |steps|
    ensures Run(steps[..i]).changes <= Run(steps[..j]).changes
    ensures i < j && steps[i].Report? && Happens(steps, i) ==> Run(steps[..i]).changes < Run(steps[..j]).changes
    decreases j
  {
    if i < j {
      ChangesCount(steps, i, j - 1);
      assert steps[..j][..j - 1] == steps[..j - 1];
    }
  }

  /** No wake-up is lost: in every interleaving, a subround parked before an empty channel, with no
      producer between its report and its token, has checked after the last reported change. */
  lemma NoLostWakeUp(steps: seq<Step>, s: State) returns (i: nat)
    requires s == Run(steps)
    requires s.subround.Parked? && !s.token && forall p: nat :: ProducerOf(s, p) == Idle
    ensures i < |steps| && steps[i] == Check && Happens(steps, i)
    ensures forall j: nat | i < j < |steps| && Happens(steps, j) :: !steps[j].Report? && steps[j] != Check
  {
    RunCovered(steps);
    i := LatestCheck(steps);
    assert s.subround.seen == s.changes && steps[..|steps|] == steps;
    hide Run, Happens;
    forall j: nat | i < j < |steps| && Happens(steps, j) ensures !steps[j].Report? {
      ChangesCount(steps, i, j);
      ChangesCount(steps, j, |steps|);
    }
  }

  /** Tokens that went in during a run. */
  function TokensIn(steps: seq<Step>): nat {
    if steps == [] then 0
    else
      var n := |steps| - 1;
      TokensIn(steps[..n]) + (if steps[n].Send? && Happens(steps, n) then 1 else 0)
  }

  /** Tokens that woke the subround. */
  function TokensOut(steps: seq<Step>): nat {
    if steps == [] then 0
    else
      var n := |steps| - 1;
      TokensOut(steps[..n]) + (if steps[n] == Wake && Happens(steps, n) then 1 else 0)
  }

  /** Every token wakes the subround once or is still there, and there is never more than one. */
  lemma {:induction false} TokensConserved(steps: seq<Step>)
    ensures TokensIn(steps) == TokensOut(steps) + (if Run(steps).token then 1 else 0)
  {
    if steps != [] {
      TokensConserved(steps[..|steps| - 1]);
    }
  }

  /** A producer that is the only one never blocks: when it sends, the channel has room. */
  lemma {:induction false} SoleProducerNeverBlocks(steps: seq<Step>, p: nat)
    requires forall i | 0 <= i < |steps| && (steps[i].Report? || steps[i].Look? || steps[i].Send?) :: steps[i].p == p
    ensures ProducerOf(Run(steps), p) == Sending ==> Enabled(Run(steps), Send(p))
  {
    if steps != [] {
      SoleProducerNeverBlocks(steps[..|steps| - 1], p);
    }
  }

  /** A parked subround that has missed a change is woken without its help or a further change:
      either the token is there, or some producer needs at most two more steps of its own, both
      possible, to put it there. */
  lemma WakeUpOnItsWay(steps: seq<Step>, s: State)
    requires s == Run(steps) && s.subround.Parked? && Stale(s)
    ensures Enabled(s, Wake) || exists p: nat ::
              if ProducerOf(s, p) == Sending then Enabled(s, Send(p)) && Enabled(Next(s, Send(p)), Wake)
              else && Enabled(s, Look(p)) && Enabled(Next(s, Look(p)), Send(p))
                   && Enabled(Next(Next(s, Look(p)), Send(p)), Wake)
  {
    RunCovered(steps);
    if !s.token {
      var p: nat :| ProducerOf(s, p) != Idle;
      assert if ProducerOf(s, p) == Sending then Enabled(s, Send(p)) && Enabled(Next(s, Send(p)), Wake)
             else && Enabled(s, Look(p)) && Enabled(Next(s, Look(p)), Send(p))
                  && Enabled(Next(Next(s, Look(p)), Send(p)), Wake);
    }
  }

  // ---------------------------------------------------------------------------------------------
  // DoWork
  // ---------------------------------------------------------------------------------------------

  function Act(s: State, step: Step): State {
    if Enabled(s, step) then Next(s, step) else s
  }

  lemma RunSnoc(steps: seq<Step>, step: Step)
    ensures Run(steps + [step]) == Act(Run(steps), step)
  {
    assert (steps + [step])[..|steps|] == steps;
  }

  /** Steps of handlers and listeners only. */
  predicate ByOthers(steps: seq<Step>) {
    forall i | 0 <= i < |steps| :: steps[i].Report? || steps[i].Look? || steps[i].Send?
  }

  ghost predicate Bystanders(others: nat -> seq<Step>, meanwhile: nat -> seq<Step>) {
    forall k: nat :: ByOthers(others(k)) && ByOthers(meanwhile(k))
  }

  /** The others go on for a while. */
  method OthersAct(s0: State, ghost run0: seq<Step>, steps: seq<Step>) returns (s: State, ghost run: seq<Step>)
    requires s0 == Run(run0) && ByOthers(steps)
    ensures s == Run(run) && run == run0 + steps && s.subround == s0.subround
  {
    s, run := s0, run0;
    for i := 0 to |steps|
      invariant s == Run(run) && run == run0 + steps[..i] && s.subround == s0.subround
    {
      RunSnoc(run, steps[i]);
      s := Act(s, steps[i]);
      run := run + [steps[i]];
    }
  }

  /** The subround itself takes a step it can take. */
  method Take(s0: State, ghost run0: seq<Step>, step: Step) returns (s: State, ghost run: seq<Step>)
    requires s0 == Run(run0) && Enabled(s0, step)
    ensures s == Run(run) && s == Next(s0, step) && run == run0 + [step]
  {
    RunSnoc(run0, step);
    s, run := Next(s0, step), run0 + [step];
  }

  /** The steps of one check, the others acting while it goes on. */
  function CheckSteps(meanwhile: seq<Step>, answer: bool): seq<Step> {
    [Check] + meanwhile + [Answer(answer)]
  }

  /** One check of the subround. */
  method DoCheck(s0: State, ghost run0: seq<Step>, meanwhile: seq<Step>, answer: bool)
    returns (s: State, ghost run: seq<Step>)
    requires s0 == Run(run0) && (s0.subround == Working || s0.subround == Woken) && ByOthers(meanwhile)
    ensures s == Run(run) && run == run0 + CheckSteps(meanwhile, answer)
    ensures if answer then s.subround == Outside else s.subround.Parked?
  {
    s, run := Take(s0, run0, Check);
    s, run := OthersAct(s, run, meanwhile);
    s, run := Take(s, run, Answer(answer));
  }

  method FirstCheck(s0: State, ghost run0: seq<Step>, meanwhile: seq<Step>, answer: bool)
    returns (s: State, ghost run: seq<Step>)
    requires s0 == Run(run0) && s0.subround == Outside && ByOthers(meanwhile)
    ensures s == Run(run) && run == run0 + [Begin, Check] + meanwhile + [Answer(answer)]
    ensures if answer then s.subround == Outside else s.subround.Parked?
  {
    hide Run, ByOthers;
    s, run := Take(s0, run0, Begin);
    s, run := DoCheck(s, run, meanwhile, answer);
  }

  method WakeUp(s0: State, ghost run0: seq<Step>, meanwhile: seq<Step>, answer: bool)
    returns (s: State, ghost run: seq<Step>)
    requires s0 == Run(run0) && s0.subround.Parked? && s0.token && ByOthers(meanwhile)
    ensures s == Run(run) && run == run0 + ([Wake] + CheckSteps(meanwhile, answer))
    ensures if answer then s.subround == Outside else s.subround.Parked?
  {
    hide Run, ByOthers;
    s, run := Take(s0, run0, Wake);
    s, run := DoCheck(s, run, meanwhile, answer);
  }

  /** The run ends with the subround giving up, and it has given up nothing: a token is there, or one
      is on its way, or its last check began after the last reported change. */
  ghost predicate GaveUp(run: seq<Step>) {
    && run != [] && run[|run| - 1] == TimeOut
    && var s := Run(run[..|run| - 1]);
       s.subround.Parked? && (s.token || Underway(s) || s.subround.seen == s.changes)
  }

  /** The subround's time is over. */
  method GiveUp(s0: State, ghost run0: seq<Step>) returns (s: State, ghost run: seq<Step>)
    requires s0 == Run(run0) && s0.subround.Parked?
    ensures s == Run(run) && run == run0 + [TimeOut] && s.subround == Outside && GaveUp(run)
  {
    RunCovered(run0);
    hide Run, Underway;
    s, run := Take(s0, run0, TimeOut);
    assert run[..|run| - 1] == run0;
  }

  /** One look of the waiting subround at its channel and its timer that finds time left: what the
      others did before it is `run[start..at]`, and what comes of it is `run[at..stop]`. */
  datatype Glance = Glance(start: nat, at: nat, stop: nat)

  ghost predicate Within(run: seq<Step>, looks: seq<Glance>) {
    forall k | 0 <= k < |looks| :: looks[k].start <= looks[k].at <= looks[k].stop <= |run|
  }

  /** How many of the first `n` looks found a token. */
  ghost function WakeUps(run: seq<Step>, looks: seq<Glance>, n: nat): nat
    requires Within(run, looks) && n <= |looks|
  {
    if n == 0 then 0 else WakeUps(run, looks, n - 1) + (if Run(run[..looks[n - 1].at]).token then 1 else 0)
  }

  /** Look `k` follows the one before and the steps of the others; a token makes the subround wake up
      and check. */
  ghost predicate Looked(run0: seq<Step>, run: seq<Step>, looks: seq<Glance>, k: nat, others: nat -> seq<Step>,
                         meanwhile: nat -> seq<Step>, answers: nat -> bool)
    requires k < |looks| && Within(run, looks)
  {
    && looks[k].start == (if k == 0 then |run0| else looks[k - 1].stop)
    && run[looks[k].start..looks[k].at] == others(k)
    && run[looks[k].at..looks[k].stop] ==
         if Run(run[..looks[k].at]).token then
           var j := WakeUps(run, looks, k) + 1;
           [Wake] + CheckSteps(meanwhile(j), answers(j))
         else []
  }

  ghost predicate Looking(run0: seq<Step>, run: seq<Step>, looks: seq<Glance>, others: nat -> seq<Step>,
                          meanwhile: nat -> seq<Step>, answers: nat -> bool)
  {
    && run0 <= run && Within(run, looks)
    && forall k: nat | k < |looks| :: Looked(run0, run, looks, k, others, meanwhile, answers)
  }

  /** Where the last look ends. */
  function EndOf(run0: seq<Step>, looks: seq<Glance>): nat {
    if looks == [] then |run0| else looks[|looks| - 1].stop
  }

  /** What happens later does not change what the looks have found. */
  lemma {:induction false} WakeUpsKept(run: seq<Step>, looks: seq<Glance>, run': seq<Step>, looks': seq<Glance>, n: nat)
    requires Within(run, looks) && Within(run', looks') && run <= run' && looks <= looks' && n <= |looks|
    ensures WakeUps(run', looks', n) == WakeUps(run, looks, n)
  {
    if n > 0 {
      WakeUpsKept(run, looks, run', looks', n - 1);
      assert run'[..looks[n - 1].at] == run[..looks[n - 1].at];
    }
  }

  lemma LookedKept(run0: seq<Step>, run: seq<Step>, looks: seq<Glance>, run': seq<Step>, looks': seq<Glance>, k: nat,
                   others: nat -> seq<Step>, meanwhile: nat -> seq<Step>, answers: nat -> bool)
    requires Within(run, looks) && Within(run', looks') && run <= run' && looks <= looks' && k < |looks|
    requires Looked(run0, run, looks, k, others, meanwhile, answers)
    ensures Looked(run0, run', looks', k, others, meanwhile, answers)
  {
    WakeUpsKept(run, looks, run', looks', k);
    hide WakeUps, Run, CheckSteps;
    var l := looks[k];
    assert run'[..l.at] == run[..l.at];
    assert run'[l.start..l.at] == run[l.start..l.at] && run'[l.at..l.stop] == run[l.at..l.stop];
  }

  /** The looks so far, when more steps follow. */
  lemma LookingKept(run0: seq<Step>, run: seq<Step>, looks: seq<Glance>, run': seq<Step>,
                    others: nat -> seq<Step>, meanwhile: nat -> seq<Step>, answers: nat -> bool)
    requires Looking(run0, run, looks, others, meanwhile, answers) && run <= run'
    ensures Looking(run0, run', looks, others, meanwhile, answers) && Within(run, looks) && Within(run', looks)
    ensures WakeUps(run', looks, |looks|) == WakeUps(run, looks, |looks|)
  {
    hide Looked;
    forall k: nat | k < |looks| ensures Looked(run0, run', looks, k, others, meanwhile, answers) {
      LookedKept(run0, run, looks, run', looks, k, others, meanwhile, answers);
    }
    WakeUpsKept(run, looks, run', looks, |looks|);
  }

  lemma ThreeParts(a: seq<Step>, b: seq<Step>, c: seq<Step>)
    ensures (a + b + c)[..|a + b|] == a + b && (a + b + c)[|a|..|a + b|] == b && (a + b + c)[|a + b|..] == c
    ensures (a + b + c)[|a + b|..|a + b + c|] == c
  {
  }

  lemma OneMoreLook(run0: seq<Step>, run: seq<Step>, looks: seq<Glance>, steps: seq<Step>, run': seq<Step>,
                    others: nat -> seq<Step>, meanwhile: nat -> seq<Step>, answers: nat -> bool)
    requires Looking(run0, run, looks, others, meanwhile, answers) && EndOf(run0, looks) == |run|
    requires var j := WakeUps(run, looks, |looks|) + 1;
             steps == if Run(run + others(|looks|)).token then [Wake] + CheckSteps(meanwhile(j), answers(j)) else []
    requires run' == run + others(|looks|) + steps
    ensures var looks' := looks + [Glance(|run|, |run + others(|looks|)|, |run'|)];
            && Looking(run0, run', looks', others, meanwhile, answers) && EndOf(run0, looks') == |run'|
            && Within(run', looks')
            && WakeUps(run', looks', |looks'|)
               == WakeUps(run, looks, |looks|) + (if Run(run + others(|looks|)).token then 1 else 0)
  {
    hide CheckSteps, Run;
    var n := |looks|;
    var l := Glance(|run|, |run + others(n)|, |run'|);
    var looks' := looks + [l];
    ThreeParts(run, others(n), steps);
    WakeUpsKept(run, looks, run', looks', n);
    assert Looked(run0, run', looks', n, others, meanwhile, answers);
    hide Looked;
    forall k: nat | k < n ensures Looked(run0, run', looks', k, others, meanwhile, answers) {
      LookedKept(run0, run, looks, run', looks', k, others, meanwhile, answers);
    }
  }

  /** The first `n` checks have answered false, and the next one has answered `last`. */
  ghost predicate Answered(answers: nat -> bool, n: nat, last: bool) {
    answers(n) == last && forall j: nat | j < n :: !answers(j)
  }

  lemma NextAnswer(answers: nat -> bool, n: nat)
    requires Answered(answers, n, false)
    ensures Answered(answers, n + 1, answers(n + 1))
  {
  }

  /** The subround has looked for a while, and checked once and once more for every token it found. */
  ghost predicate Waits(first: seq<Step>, run: seq<Step>, looks: seq<Glance>, checks: nat, others: nat -> seq<Step>,
                        meanwhile: nat -> seq<Step>, answers: nat -> bool)
  {
    && Looking(first, run, looks, others, meanwhile, answers) && EndOf(first, looks) == |run|
    && checks == 1 + WakeUps(run, looks, |looks|)
  }

  lemma WaitsMeans(first: seq<Step>, run: seq<Step>, looks: seq<Glance>, checks: nat, others: nat -> seq<Step>,
                   meanwhile: nat -> seq<Step>, answers: nat -> bool)
    requires Waits(first, run, looks, checks, others, meanwhile, answers)
    ensures Looking(first, run, looks, others, meanwhile, answers) && Within(run, looks)
    ensures EndOf(first, looks) == |run| && checks == 1 + WakeUps(run, looks, |looks|)
  {
  }

  /** One look that finds time left: with a token the subround wakes up and checks. */
  method LookOnce(s0: State, ghost first: seq<Step>, ghost run0: seq<Step>, ghost looks0: seq<Glance>, k: nat,
                  checks: nat, others: nat -> seq<Step>, meanwhile: nat -> seq<Step>, answers: nat -> bool)
    returns (found: bool, s: State, ghost run: seq<Step>, ghost looks: seq<Glance>)
    requires s0 == Run(run0) && s0.subround.Parked? && Bystanders(others, meanwhile)
    requires k == |looks0| && Waits(first, run0, looks0, checks, others, meanwhile, answers)
    ensures s == Run(run) && if found && answers(checks) then s.subround == Outside else s.subround.Parked?
    ensures |looks| == k + 1
    ensures Waits(first, run, looks, checks + (if found then 1 else 0), others, meanwhile, answers)
  {
    hide Run, ByOthers, Looked, CheckSteps, WakeUps;
    s, run := OthersAct(s0, run0, others(k));
    ghost var steps: seq<Step> := [];
    ghost var at := |run|;
    found := s.token;
    if found {
      steps := [Wake] + CheckSteps(meanwhile(checks), answers(checks));
      s, run := WakeUp(s, run, meanwhile(checks), answers(checks));
    }
    assert run == run0 + others(k) + steps;
    OneMoreLook(first, run0, looks0, steps, run, others, meanwhile, answers);
    looks := looks0 + [Glance(|run0|, at, |run|)];
  }

  /** After the last look that found time left, the others act once more and the subround gives up. */
  ghost predicate TooLate(first: seq<Step>, run: seq<Step>, looks: seq<Glance>, others: nat -> seq<Step>) {
    EndOf(first, looks) <= |run| && run[EndOf(first, looks)..] == others(|looks|) + [TimeOut]
  }

  /** The last look finds the time over. */
  method LookTooLate(s0: State, ghost first: seq<Step>, ghost run0: seq<Step>, ghost looks: seq<Glance>, k: nat,
                     ghost checks: nat, others: nat -> seq<Step>,
                     ghost meanwhile: nat -> seq<Step>, ghost answers: nat -> bool)
    returns (s: State, ghost run: seq<Step>)
    requires s0 == Run(run0) && s0.subround.Parked? && Bystanders(others, meanwhile) && k == |looks|
    requires Waits(first, run0, looks, checks, others, meanwhile, answers)
    ensures s == Run(run) && s.subround == Outside && GaveUp(run)
    ensures Looking(first, run, looks, others, meanwhile, answers) && Within(run, looks)
    ensures checks == 1 + WakeUps(run, looks, k)
    ensures TooLate(first, run, looks, others)
  {
    hide Run, ByOthers, Looked, CheckSteps, WakeUps, GaveUp;
    s, run := OthersAct(s0, run0, others(k));
    s, run := GiveUp(s, run);
    assert run == run0 + (others(k) + [TimeOut]);
    LookingKept(first, run0, looks, run, others, meanwhile, answers);
  }

  /** The waiting loop: it looks until a check succeeds or the time is over. */
  method Wait(s0: State, ghost run0: seq<Step>, others: nat -> seq<Step>, meanwhile: nat -> seq<Step>,
              answers: nat -> bool, timeIsOut: nat -> bool)
    returns (done: bool, checks: nat, s: State, ghost run: seq<Step>, ghost looks: seq<Glance>)
    requires s0 == Run(run0) && s0.subround.Parked? && Answered(answers, 0, false) && Bystanders(others, meanwhile)
    requires exists k: nat :: timeIsOut(k)
    ensures s == Run(run) && s.subround == Outside
    ensures Looking(run0, run, looks, others, meanwhile, answers) && Within(run, looks)
    ensures forall k: nat | k < |looks| :: !timeIsOut(k)
    ensures checks == 1 + WakeUps(run, looks, |looks|) && Answered(answers, checks - 1, done)
    ensures done ==> EndOf(run0, looks) == |run|
    ensures !done ==> timeIsOut(|looks|) && GaveUp(run) && TooLate(run0, run, looks, others)
  {
    s, run, checks, looks := s0, run0, 1, [];
    assert Waits(run0, run, looks, 1, others, meanwhile, answers);
    ghost var end: nat :| timeIsOut(end);
    var k := 0;
    hide Run, Answered, Bystanders, Waits, Looking, WakeUps, Within, GaveUp, EndOf, TooLate;
    while !timeIsOut(k)
      invariant k == |looks| <= end && Answered(answers, checks - 1, false) && forall i: nat | i < k :: !timeIsOut(i)
      invariant s == Run(run) && s.subround.Parked? && checks > 0
      invariant Waits(run0, run, looks, checks, others, meanwhile, answers)
      decreases end - k
    {
      var found;
      found, s, run, looks := LookOnce(s, run0, run, looks, k, checks, others, meanwhile, answers);
      if found {
        NextAnswer(answers, checks - 1);
        checks := checks + 1;
        if answers(checks - 1) {
          WaitsMeans(run0, run, looks, checks, others, meanwhile, answers);
          return true, checks, s, run, looks;
        }
      }
      k := k + 1;
    }
    s, run := LookTooLate(s, run0, run, looks, k, checks, others, meanwhile, answers);
    return false, checks, s, run, looks;
  }

  /** A look, step by step: it comes after the one before and the steps of the others; if the run's state
      then holds a token, the subround wakes up and checks, and if not, nothing comes of it. */
  lemma LookSpelledOut(run0: seq<Step>, run: seq<Step>, looks: seq<Glance>, k: nat, others: nat -> seq<Step>,
                       meanwhile: nat -> seq<Step>, answers: nat -> bool)
    requires Looking(run0, run, looks, others, meanwhile, answers) && k < |looks|
    ensures run0 <= run && Within(run, looks)
    ensures looks[k].start == (if k == 0 then |run0| else looks[k - 1].stop)
    ensures run[looks[k].start..looks[k].at] == others(k)
    ensures run[looks[k].at..looks[k].stop] ==
              if !Run(run[..looks[k].at]).token then []
              else
                var j := WakeUps(run, looks, k) + 1;
                [Wake, Check] + meanwhile(j) + [Answer(answers(j))]
    ensures WakeUps(run, looks, k + 1)
         == WakeUps(run, looks, k) + (if Run(run[..looks[k].at]).token then 1 else 0)
  {
    hide Run;
    assert Looked(run0, run, looks, k, others, meanwhile, answers);
    var j := WakeUps(run, looks, k) + 1;
    assert [Wake] + CheckSteps(meanwhile(j), answers(j)) == [Wake, Check] + meanwhile(j) + [Answer(answers(j))];
  }

  /** `DoWork` as a part of any run. `others(k)` are the steps of the others before its `k`-th look at
      its channel and its timer, `meanwhile(j)` those during its `j`-th check, which answers
      `answers(j)`; `timeIsOut(k)` tells whether the `k`-th look finds its time over, and `looks` are the
      looks that find time left. It checks once at the beginning and then once for every look that finds
      a token, see `LookSpelledOut`, until a check succeeds or the time is over; only giving up calls
      `Extend`. */
  method DoWork(hasJobAndCheck: bool, hasExtend: bool, s0: State, ghost history: seq<Step>,
                others: nat -> seq<Step>, meanwhile: nat -> seq<Step>, answers: nat -> bool, timeIsOut: nat -> bool)
    returns (done: bool, extended: bool, checks: nat, s: State, ghost run: seq<Step>, ghost looks: seq<Glance>)
    requires s0 == Run(history) && s0.subround == Outside && Bystanders(others, meanwhile)
    requires exists k: nat :: timeIsOut(k)
    ensures s == Run(run) && s.subround == Outside && Within(run, looks)
    ensures !hasJobAndCheck ==> !done && !extended && checks == 0 && run == history
    ensures hasJobAndCheck ==>
              var first := history + [Begin, Check] + meanwhile(0) + [Answer(answers(0))];
              && Looking(first, run, looks, others, meanwhile, answers) && EndOf(first, looks) <= |run|
              && (answers(0) ==> looks == [])
              && (forall k: nat | k < |looks| :: !timeIsOut(k))
              && (done ==> EndOf(first, looks) == |run|)
              && (!done ==> timeIsOut(|looks|) && GaveUp(run)
                            && run[EndOf(first, looks)..] == others(|looks|) + [TimeOut])
    ensures hasJobAndCheck ==>
              && checks == 1 + WakeUps(run, looks, |looks|) && extended == (!done && hasExtend)
              && answers(checks - 1) == done && forall j: nat | j < checks - 1 :: !answers(j)
  {
    s, run, checks, looks := s0, history, 0, [];
    hide Run, ByOthers, GaveUp;
    if !hasJobAndCheck {
      return false, false, checks, s, run, looks;
    }
    s, run := FirstCheck(s, run, meanwhile(0), answers(0));
    if answers(0) {
      return true, false, 1, s, run, looks;
    }
    hide Looking, WakeUps, EndOf;
    done, checks, s, run, looks := Wait(s, run, others, meanwhile, answers, timeIsOut);
    extended := !done && hasExtend;
  }
}
