/** The driver of the rounds: which subround works when (consensus/chronology/chronology.go). */
module Chronologies {
  import opened Rounds
  import opened Sets
  import opened Wrappers

  const SR_BEFORE_START_ROUND := -1

  /** A subround handler, as far as the driver can see it. */
  datatype Handler = Handler(current: int, next: int)

  /** One call of `DoWork`: in which round, on which handler, with which answer. `began` is the
      identifier the round began at, `table` the handlers registered at the time of the call, and
      `position` that of the called one among them. */
  datatype Event = Event(round: int, handler: Handler, result: bool, began: int, table: seq<Handler>, position: nat)

  /** The driver's fields, the rounder's index, the identifier the present round began at, and the calls
      of `DoWork` made so far. */
  datatype State = State(subroundId: int, subrounds: map<int, nat>, handlers: seq<Handler>,
                         index: int, began: int, trace: seq<Event>)

  /** What can happen, in any order: handlers come and go, and the main loop first brings the round up
      to date and then calls the present subround; should `DoWork` be called, `result` is its answer. */
  datatype Op = Add(handler: Handler) | RemoveAll | Update(now: int) | Call(result: bool)

  /** A turn of the main loop without interference. */
  datatype Turn = Turn(now: int, result: bool)

  function Initial(index: int): State {
    State(SR_BEFORE_START_ROUND, map[], [], index, SR_BEFORE_START_ROUND, [])
  }

  // ---------------------------------------------------------------------------------------------
  // Steps
  // ---------------------------------------------------------------------------------------------

  function InitRound(c: State): State {
    var first := if c.index > 0 && c.handlers != [] then c.handlers[0].current else SR_BEFORE_START_ROUND;
    c.(subroundId := first, began := first)
  }

  function UpdateRound(roundAt: int -> int, c: State, now: int): State {
    if roundAt(now) == c.index then c else InitRound(c.(index := roundAt(now)))
  }

  function UpdateStep(roundAt: int -> int, c: State, now: int): State {
    if c.subroundId == SR_BEFORE_START_ROUND then UpdateRound(roundAt, c, now) else c
  }

  function LoadSubroundHandler(c: State): Option<Handler> {
    if c.subroundId !in c.subrounds then None
    else if c.subrounds[c.subroundId] >= |c.handlers| then None
    else Some(c.handlers[c.subrounds[c.subroundId]])
  }

  function Work(c: State, result: bool): State {
    if c.index <= 0 then c
    else
      match LoadSubroundHandler(c)
      case None => c
      case Some(sr) =>
        c.(subroundId := if result then sr.next else SR_BEFORE_START_ROUND,
           trace := c.trace + [Event(c.index, sr, result, c.began, c.handlers, c.subrounds[c.subroundId])])
  }

  function StartRound(roundAt: int -> int, c: State, now: int, result: bool): State {
    Work(UpdateStep(roundAt, c, now), result)
  }

  function Step(roundAt: int -> int, c: State, op: Op): State {
    match op
    case Add(h) => c.(subrounds := c.subrounds[h.current := |c.handlers|], handlers := c.handlers + [h])
    case RemoveAll => c.(subrounds := map[], handlers := [])
    case Update(now) => UpdateStep(roundAt, c, now)
    case Call(result) => Work(c, result)
  }

  function Run(roundAt: int -> int, c: State, ops: seq<Op>): State {
    if ops == [] then c else Step(roundAt, Run(roundAt, c, ops[..|ops| - 1]), ops[|ops| - 1])
  }

  lemma RunSnoc(roundAt: int -> int, c: State, ops: seq<Op>, op: Op)
    ensures Run(roundAt, c, []) == c
    ensures Run(roundAt, c, ops + [op]) == Step(roundAt, Run(roundAt, c, ops), op)
  {
    assert (ops + [op])[..|ops|] == ops;
  }

  /** The main loop alone. */
  function Loop(roundAt: int -> int, c: State, turns: seq<Turn>): State {
    if turns == [] then c
    else
      var last := turns[|turns| - 1];
      StartRound(roundAt, Loop(roundAt, c, turns[..|turns| - 1]), last.now, last.result)
  }

  function Ops(turns: seq<Turn>): seq<Op> {
    if turns == [] then []
    else
      var last := turns[|turns| - 1];
      Ops(turns[..|turns| - 1]) + [Update(last.now)] + [Call(last.result)]
  }

  /** The main loop is one of the things that can happen. */
  lemma {:induction false} LoopIsRun(roundAt: int -> int, c: State, turns: seq<Turn>)
    ensures Loop(roundAt, c, turns) == Run(roundAt, c, Ops(turns))
  {
    if turns != [] {
      var n := |turns| - 1;
      LoopIsRun(roundAt, c, turns[..n]);
      RunSnoc(roundAt, c, Ops(turns[..n]), Update(turns[n].now));
      RunSnoc(roundAt, c, Ops(turns[..n]) + [Update(turns[n].now)], Call(turns[n].result));
    }
  }

  lemma LoopSnoc(roundAt: int -> int, c: State, turns: seq<Turn>, turn: Turn)
    ensures Loop(roundAt, c, []) == c
    ensures Loop(roundAt, c, turns + [turn]) == StartRound(roundAt, Loop(roundAt, c, turns), turn.now, turn.result)
  {
    assert (turns + [turn])[..|turns|] == turns;
  }

  // ---------------------------------------------------------------------------------------------
  // What every trace looks like
  // ---------------------------------------------------------------------------------------------

  /** Call `i` carries on the segment of the call before: same round, the handler it named as next. */
  predicate Continues(t: seq<Event>, i: nat)
    requires 0 < i < |t|
  {
    && t[i - 1].result && t[i - 1].handler.next != SR_BEFORE_START_ROUND
    && t[i].handler.current == t[i - 1].handler.next && t[i].round == t[i - 1].round
  }

  /** Call `i` opens a segment, after a segment that is over: at the identifier its round began at, or
      at a handler registered under the reserved identifier, which no new round is needed for. */
  predicate Opens(t: seq<Event>, i: nat)
    requires i < |t|
  {
    && (t[i].handler.current == t[i].began || t[i].handler.current == SR_BEFORE_START_ROUND)
    && (i > 0 ==> !t[i - 1].result || t[i - 1].handler.next == SR_BEFORE_START_ROUND)
  }

  /** The call goes to the handler registered last under its identifier. */
  ghost predicate OnLatest(e: Event) {
    && e.position < |e.table| && e.handler == e.table[e.position]
    && forall k | e.position < k < |e.table| :: e.table[k].current != e.handler.current
  }

  ghost predicate WellCalled(t: seq<Event>, i: nat)
    requires i < |t|
  {
    t[i].round > 0 && OnLatest(t[i]) && (Opens(t, i) || (i > 0 && Continues(t, i)))
  }

  /** The trace is a concatenation of segments, each in a round above zero. */
  ghost predicate Segmented(t: seq<Event>) {
    forall i: nat | i < |t| :: WellCalled(t, i)
  }

  /** Call `i` is in a later round than the one before, or carries on its segment, or is in no
      earlier round and at the reserved identifier. */
  predicate GoesUp(t: seq<Event>, i: nat)
    requires 0 < i < |t|
  {
    || t[i - 1].round < t[i].round || Continues(t, i)
    || (t[i].handler.current == SR_BEFORE_START_ROUND && t[i - 1].round == t[i].round)
  }

  ghost predicate RoundsIncrease(t: seq<Event>) {
    forall i: nat | 0 < i < |t| :: GoesUp(t, i)
  }

  /** Every segment after the first is in a later round than the one before. */
  ghost predicate SegmentsIncrease(t: seq<Event>) {
    forall i: nat | 0 < i < |t| :: t[i - 1].round < t[i].round || Continues(t, i)
  }

  /** The handler table finds, for every registered identifier, the handler registered last under it. */
  ghost predicate Registry(c: State) {
    && (forall id | id in c.subrounds :: c.subrounds[id] < |c.handlers| && c.handlers[c.subrounds[id]].current == id)
    && (forall k | 0 <= k < |c.handlers| :: c.handlers[k].current in c.subrounds)
    && (forall k | 0 <= k < |c.handlers| && c.handlers[k].current in c.subrounds ::
          k <= c.subrounds[c.handlers[k].current])
  }

  /** A subround is pending only because the last call asked for it, in the round still running. */
  ghost predicate Pending(c: State) {
    if c.trace == [] then c.subroundId == SR_BEFORE_START_ROUND
    else
      var last := c.trace[|c.trace| - 1];
      && c.subroundId == (if last.result then last.handler.next else SR_BEFORE_START_ROUND)
      && (c.subroundId != SR_BEFORE_START_ROUND ==> last.round == c.index)
  }

  /** A new round has begun, and nobody has been called in it yet. */
  ghost predicate Opening(c: State) {
    && c.index > 0 && c.subroundId == c.began
    && (c.trace != [] ==>
          var last := c.trace[|c.trace| - 1];
          !last.result || last.handler.next == SR_BEFORE_START_ROUND)
  }

  ghost predicate Safe(c: State) {
    Registry(c) && (Pending(c) || Opening(c)) && Segmented(c.trace)
  }

  lemma SegmentedAppend(t: seq<Event>, e: Event)
    requires Segmented(t) && WellCalled(t + [e], |t|)
    ensures Segmented(t + [e])
  {
    hide OnLatest;
    var longer := t + [e];
    forall i: nat | i < |longer| ensures WellCalled(longer, i) {
      if i < |t| {
        assert WellCalled(t, i);
      }
    }
  }

  lemma WorkWellCalled(c: State, result: bool)
    requires Registry(c) && (Pending(c) || Opening(c)) && c.index > 0 && c.subroundId in c.subrounds
    ensures var t := Work(c, result).trace;
            |t| == |c.trace| + 1 && t == c.trace + [t[|c.trace|]] && WellCalled(t, |c.trace|)
  {
    var e := Work(c, result).trace[|c.trace|];
    assert OnLatest(e);
  }

  /** Calling `DoWork` where the driver stands extends the trace correctly. */
  lemma WorkSafe(c: State, result: bool)
    requires Safe(c)
    ensures Safe(Work(c, result))
  {
    var d := Work(c, result);
    if c.index > 0 && c.subroundId in c.subrounds {
      WorkWellCalled(c, result);
      hide Segmented, WellCalled;
      SegmentedAppend(c.trace, d.trace[|c.trace|]);
    }
  }

  lemma UpdateSafe(roundAt: int -> int, c: State, now: int)
    requires Safe(c)
    ensures Safe(UpdateStep(roundAt, c, now))
  {
    hide Segmented;
  }

  lemma AddSafe(c: State, h: Handler)
    requires Safe(c)
    ensures Safe(c.(subrounds := c.subrounds[h.current := |c.handlers|], handlers := c.handlers + [h]))
  {
    hide Segmented;
  }

  lemma StepSafe(roundAt: int -> int, c: State, op: Op)
    requires Safe(c)
    ensures Safe(Step(roundAt, c, op))
  {
    match op
    case Add(h) => AddSafe(c, h);
    case RemoveAll =>
    case Update(now) => UpdateSafe(roundAt, c, now);
    case Call(result) => WorkSafe(c, result);
  }

  lemma TurnSafe(roundAt: int -> int, c: State, now: int, result: bool)
    requires Safe(c)
    ensures Safe(StartRound(roundAt, c, now, result))
  {
    hide Safe, Work, UpdateStep;
    UpdateSafe(roundAt, c, now);
    WorkSafe(UpdateStep(roundAt, c, now), result);
  }

  /** Over every run, registrations at any time included, the calls of `DoWork` form segments: each
      opens at the identifier that was first in the table when its round began, or at the reserved one,
      follows `next` only after a true answer, stays in its round, and ends at the first false answer or
      at the last subround. Every call goes to the handler registered last under its identifier. */
  lemma {:induction false} RunSafe(roundAt: int -> int, index: int, ops: seq<Op>)
    ensures Safe(Run(roundAt, Initial(index), ops))
  {
    if ops != [] {
      RunSafe(roundAt, index, ops[..|ops| - 1]);
      hide Safe;
      StepSafe(roundAt, Run(roundAt, Initial(index), ops[..|ops| - 1]), ops[|ops| - 1]);
    }
  }

  /** A turn that begins a round calls a handler with the identifier of the first one, and the first one
      itself exactly if no later handler has been registered under that identifier. */
  lemma FirstHandlerOpensIff(roundAt: int -> int, c: State, now: int, result: bool)
    requires Safe(c) && c.subroundId == SR_BEFORE_START_ROUND && c.handlers != []
    requires roundAt(now) > 0 && roundAt(now) != c.index
    ensures var t := StartRound(roundAt, c, now, result).trace;
            && |t| == |c.trace| + 1
            && var e := t[|c.trace|];
               && e.round == roundAt(now) && e.table == c.handlers && e.handler.current == c.handlers[0].current
               && (e.position == 0 <==>
                   forall k | 0 < k < |c.handlers| :: c.handlers[k].current != c.handlers[0].current)
  {
    hide Segmented;
    var first := c.handlers[0].current;
    assert first in c.subrounds && c.handlers[c.subrounds[first]].current == first;
  }

  /** A handler registered under the identifier of the first one is called in its place. */
  lemma FirstHandlerShadowed()
    ensures var a, b := Handler(1, 7), Handler(1, 8);
            var t := Run((now: int) => now, Initial(0), [Add(a), Add(b), Update(1), Call(true)]).trace;
            |t| == 1 && t[0].table == [a, b] && t[0].position == 1 && t[0].handler == b
  {
    var roundAt: int -> int := (now: int) => now;
    var a, b := Handler(1, 7), Handler(1, 8);
    assert [Add(a), Add(b), Update(1), Call(true)] == [] + [Add(a)] + [Add(b)] + [Update(1)] + [Call(true)];
    RunSnoc(roundAt, Initial(0), [], Add(a));
    RunSnoc(roundAt, Initial(0), [] + [Add(a)], Add(b));
    RunSnoc(roundAt, Initial(0), [] + [Add(a)] + [Add(b)], Update(1));
    RunSnoc(roundAt, Initial(0), [] + [Add(a)] + [Add(b)] + [Update(1)], Call(true));
    hide Run;
    var s2 := Step(roundAt, Step(roundAt, Initial(0), Add(a)), Add(b));
    assert s2.handlers == [a, b] && s2.subrounds[1] == 1;
  }

  // ---------------------------------------------------------------------------------------------
  // With a clock that does not go back
  // ---------------------------------------------------------------------------------------------

  ghost predicate Monotone(roundAt: int -> int) {
    forall a, b | a <= b :: roundAt(a) <= roundAt(b)
  }

  /** The times the loop reads never decrease, and none is before the rounder was set up. */
  ghost predicate ClockGoesOn(ops: seq<Op>, start: int) {
    && (forall i | 0 <= i < |ops| && ops[i].Update? :: start <= ops[i].now)
    && (forall i, j | 0 <= i < j < |ops| && ops[i].Update? && ops[j].Update? :: ops[i].now <= ops[j].now)
  }

  /** What the next call of `DoWork` may find: the last call's segment to carry on, or a later round,
      or the reserved identifier. */
  ghost predicate MayCall(c: State) {
    c.trace != [] ==>
      var last := c.trace[|c.trace| - 1];
      || last.round < c.index
      || (last.round == c.index
          && (c.subroundId == SR_BEFORE_START_ROUND || (last.result && last.handler.next == c.subroundId)))
  }

  /** The rounder's index has not run ahead of the clock, nor the trace ahead of the rounder. */
  ghost predicate UpToDate(roundAt: int -> int, c: State, now: int) {
    c.index <= roundAt(now) && MayCall(c) && RoundsIncrease(c.trace)
  }

  lemma IncreaseAppend(t: seq<Event>, e: Event)
    requires RoundsIncrease(t)
    requires t != [] ==> GoesUp(t + [e], |t|)
    ensures RoundsIncrease(t + [e])
  {
    var longer := t + [e];
    forall i: nat | 0 < i < |longer| ensures GoesUp(longer, i) {
      if i < |t| {
        assert GoesUp(t, i);
      }
    }
  }

  lemma UpdateUpToDate(roundAt: int -> int, c: State, now: int)
    requires UpToDate(roundAt, c, now)
    ensures UpToDate(roundAt, UpdateStep(roundAt, c, now), now)
  {
    hide RoundsIncrease;
  }

  lemma WorkUpToDate(roundAt: int -> int, c: State, result: bool, now: int)
    requires Registry(c) && UpToDate(roundAt, c, now)
    ensures UpToDate(roundAt, Work(c, result), now)
  {
    if c.index > 0 && c.subroundId in c.subrounds {
      var e := Work(c, result).trace[|c.trace|];
      assert c.trace != [] ==> GoesUp(c.trace + [e], |c.trace|);
      IncreaseAppend(c.trace, e);
    }
  }

  lemma StepUpToDate(roundAt: int -> int, c: State, op: Op, before: int, now: int)
    requires Safe(c) && Monotone(roundAt) && UpToDate(roundAt, c, before) && before <= now
    requires op.Update? ==> op.now == now
    ensures UpToDate(roundAt, Step(roundAt, c, op), now)
  {
    assert roundAt(before) <= roundAt(now);
    hide Monotone, RoundsIncrease;
    match op
    case Update(_) => UpdateUpToDate(roundAt, c, now);
    case Call(result) => WorkUpToDate(roundAt, c, result, now);
    case _ =>
  }

  /** The latest time a run has seen. */
  function Latest(ops: seq<Op>, start: int): int {
    if ops == [] then start
    else
      var last := ops[|ops| - 1];
      if last.Update? then last.now else Latest(ops[..|ops| - 1], start)
  }

  lemma ClockWithout(ops: seq<Op>, start: int, next: Op)
    requires ops != [] && ClockGoesOn(ops + [next], start)
    ensures ClockGoesOn(ops[..|ops| - 1] + [next], start)
  {
    var all, less := ops + [next], ops[..|ops| - 1] + [next];
    forall i | 0 <= i < |less| ensures less[i] == all[if i < |ops| - 1 then i else |ops|] { }
  }

  lemma ClockPrefix(ops: seq<Op>, start: int)
    requires ops != [] && ClockGoesOn(ops, start)
    ensures ClockGoesOn(ops[..|ops| - 1], start)
  {
  }

  lemma {:induction false} LatestBelow(ops: seq<Op>, start: int, next: Op)
    requires ClockGoesOn(ops + [next], start)
    ensures start <= Latest(ops, start)
    ensures next.Update? ==> Latest(ops, start) <= next.now
  {
    if ops != [] {
      var all := ops + [next];
      assert all[|ops| - 1] == ops[|ops| - 1] && all[|ops|] == next;
      if !ops[|ops| - 1].Update? {
        var shorter := ops[..|ops| - 1];
        ClockWithout(ops, start, next);
        LatestBelow(shorter, start, next);
      }
    } else {
      assert (ops + [next])[0] == next;
    }
  }

  /** With a clock that never goes back, the rounds of the segments never decrease, and increase but
      for handlers under the reserved identifier. */
  lemma {:induction false} RunIncreases(roundAt: int -> int, start: int, ops: seq<Op>)
    requires Monotone(roundAt) && ClockGoesOn(ops, start)
    ensures UpToDate(roundAt, Run(roundAt, Initial(roundAt(start)), ops), Latest(ops, start))
  {
    if ops != [] {
      var shorter, op := ops[..|ops| - 1], ops[|ops| - 1];
      assert ops == shorter + [op];
      ClockPrefix(ops, start);
      hide UpToDate, Safe, Step, ClockGoesOn, Monotone;
      RunIncreases(roundAt, start, shorter);
      RunSafe(roundAt, roundAt(start), shorter);
      LatestBelow(shorter, start, op);
      StepUpToDate(roundAt, Run(roundAt, Initial(roundAt(start)), shorter), op,
                   Latest(shorter, start), Latest(ops, start));
    }
  }

  predicate Unreserved(op: Op) {
    op.Add? ==> op.handler.current != SR_BEFORE_START_ROUND
  }

  /** Nobody has been registered or called under the reserved identifier. */
  ghost predicate NoneReserved(c: State) {
    && (forall k | 0 <= k < |c.handlers| :: c.handlers[k].current != SR_BEFORE_START_ROUND)
    && (forall i | 0 <= i < |c.trace| :: c.trace[i].handler.current != SR_BEFORE_START_ROUND)
  }

  lemma {:induction false} RunUnreserved(roundAt: int -> int, index: int, ops: seq<Op>)
    requires forall i | 0 <= i < |ops| :: Unreserved(ops[i])
    ensures NoneReserved(Run(roundAt, Initial(index), ops))
  {
    if ops != [] {
      var n := |ops| - 1;
      RunUnreserved(roundAt, index, ops[..n]);
      assert Unreserved(ops[n]);
    }
  }

  /** With a clock that never goes back and the reserved identifier left free, the rounds of the
      segments strictly increase: no round is worked on twice. */
  lemma SegmentsGoUp(roundAt: int -> int, start: int, ops: seq<Op>)
    requires Monotone(roundAt) && ClockGoesOn(ops, start)
    requires forall i | 0 <= i < |ops| :: Unreserved(ops[i])
    ensures SegmentsIncrease(Run(roundAt, Initial(roundAt(start)), ops).trace)
  {
    hide Run;
    RunIncreases(roundAt, start, ops);
    RunUnreserved(roundAt, roundAt(start), ops);
    var t := Run(roundAt, Initial(roundAt(start)), ops).trace;
    forall i: nat | 0 < i < |t| ensures t[i - 1].round < t[i].round || Continues(t, i) {
      assert GoesUp(t, i);
    }
  }

  /** The reserved identifier is not refused, and then a round can be worked on twice. */
  lemma ReservedWorksTwice()
    ensures var h := Handler(SR_BEFORE_START_ROUND, SR_BEFORE_START_ROUND);
            var c := Run((now: int) => now, Initial(0), [Add(h)]);
            var t := Loop((now: int) => now, c, [Turn(1, true), Turn(1, true)]).trace;
            |t| == 2 && t[0].round == t[1].round && !Continues(t, 1)
  {
    var roundAt: int -> int := (now: int) => now;
    var h := Handler(SR_BEFORE_START_ROUND, SR_BEFORE_START_ROUND);
    assert [Add(h)] == [] + [Add(h)] && [Turn(1, true), Turn(1, true)] == [] + [Turn(1, true)] + [Turn(1, true)];
    RunSnoc(roundAt, Initial(0), [], Add(h));
    var c := Run(roundAt, Initial(0), [Add(h)]);
    LoopSnoc(roundAt, c, [], Turn(1, true));
    LoopSnoc(roundAt, c, [] + [Turn(1, true)], Turn(1, true));
    hide Run, Loop;
    assert |StartRound(roundAt, c, 1, true).trace| == 1;
  }

  /** The times of the turns never decrease, and none is before `start`. */
  ghost predicate TurnsGoOn(turns: seq<Turn>, start: int) {
    && (forall i | 0 <= i < |turns| :: start <= turns[i].now)
    && (forall i, j | 0 <= i < j < |turns| :: turns[i].now <= turns[j].now)
  }

  lemma TurnUpToDate(roundAt: int -> int, c: State, before: int, now: int, result: bool)
    requires Safe(c) && Monotone(roundAt) && UpToDate(roundAt, c, before) && before <= now
    ensures UpToDate(roundAt, StartRound(roundAt, c, now, result), now)
  {
    assert roundAt(before) <= roundAt(now);
    UpdateSafe(roundAt, c, now);
    hide Monotone, RoundsIncrease, UpdateStep, Work, Segmented;
    UpdateUpToDate(roundAt, c, now);
    WorkUpToDate(roundAt, UpdateStep(roundAt, c, now), result, now);
  }

  /** A turn with the reserved identifier free adds no repetition. */
  lemma TurnAddsNoRepetition(roundAt: int -> int, c: State, before: int, now: int, result: bool)
    requires Safe(c) && Monotone(roundAt) && UpToDate(roundAt, c, before) && before <= now
    requires SR_BEFORE_START_ROUND !in c.subrounds && SegmentsIncrease(c.trace)
    ensures var d := StartRound(roundAt, c, now, result);
            SegmentsIncrease(d.trace) && d.handlers == c.handlers && d.subrounds == c.subrounds
  {
    TurnUpToDate(roundAt, c, before, now, result);
    var t, t' := c.trace, StartRound(roundAt, c, now, result).trace;
    assert t' == t || (|t'| == |t| + 1 && t == t'[..|t|] && t'[|t|].handler.current != SR_BEFORE_START_ROUND);
    hide Safe, StartRound, MayCall;
    forall i: nat | 0 < i < |t'| ensures t'[i - 1].round < t'[i].round || Continues(t', i) {
      if i < |t| {
        assert t[i - 1].round < t[i].round || Continues(t, i);
      } else {
        assert GoesUp(t', i);
      }
    }
  }

  lemma {:induction false} LoopAddsNoRepetition(roundAt: int -> int, c: State, start: int, turns: seq<Turn>)
    requires Safe(c) && Monotone(roundAt) && UpToDate(roundAt, c, start) && TurnsGoOn(turns, start)
    requires SR_BEFORE_START_ROUND !in c.subrounds && SegmentsIncrease(c.trace)
    ensures var d := Loop(roundAt, c, turns);
            && Safe(d) && UpToDate(roundAt, d, if turns == [] then start else turns[|turns| - 1].now)
            && SegmentsIncrease(d.trace) && d.subrounds == c.subrounds
  {
    if turns != [] {
      var n := |turns| - 1;
      LoopAddsNoRepetition(roundAt, c, start, turns[..n]);
      hide Safe, UpToDate, SegmentsIncrease, Monotone, StartRound;
      var d := Loop(roundAt, c, turns[..n]);
      var before := if n == 0 then start else turns[n - 1].now;
      assert n > 0 ==> turns[..n][n - 1] == turns[n - 1];
      TurnSafe(roundAt, d, turns[n].now, turns[n].result);
      TurnUpToDate(roundAt, d, before, turns[n].now, turns[n].result);
      TurnAddsNoRepetition(roundAt, d, before, turns[n].now, turns[n].result);
    }
  }

  lemma CalledNow(roundAt: int -> int, c: State, now: int)
    requires Registry(c) && c.subroundId == SR_BEFORE_START_ROUND
    requires SR_BEFORE_START_ROUND in c.subrounds && roundAt(now) > 0
    ensures var d := StartRound(roundAt, c, now, false);
            && d.index == roundAt(now) && d.subroundId == SR_BEFORE_START_ROUND
            && d.handlers == c.handlers && d.subrounds == c.subrounds
            && |d.trace| == |c.trace| + 1 && d.trace[|c.trace|].round == d.index && !d.trace[|c.trace|].result
  {
    assert c.handlers != [] && c.handlers[0].current in c.subrounds;
  }

  /** Two turns in one round: the first one ends its segment, the second one works under the reserved
      identifier. */
  lemma ReservedRepeats(roundAt: int -> int, c: State, now: int)
    requires Safe(c) && UpToDate(roundAt, c, now) && c.subroundId == SR_BEFORE_START_ROUND
    requires SR_BEFORE_START_ROUND in c.subrounds && roundAt(now) > 0
    ensures !SegmentsIncrease(Loop(roundAt, c, [Turn(now, false), Turn(now, false)]).trace)
  {
    assert [Turn(now, false), Turn(now, false)] == [] + [Turn(now, false)] + [Turn(now, false)];
    LoopSnoc(roundAt, c, [], Turn(now, false));
    LoopSnoc(roundAt, c, [] + [Turn(now, false)], Turn(now, false));
    hide Loop, RoundsIncrease, Segmented, MayCall;
    var d := StartRound(roundAt, c, now, false);
    CalledNow(roundAt, c, now);
    var t := StartRound(roundAt, d, now, false).trace;
    var n := |c.trace|;
    assert |t| == n + 2 && t[n].round == t[n + 1].round && !t[n].result;
    assert !(t[n].round < t[n + 1].round || Continues(t, n + 1));
  }

  /** With a fixed table and a clock that never goes back, some turns of the main loop work on a round
      twice exactly if a handler is registered under the reserved identifier. */
  lemma SomeTurnsRepeatIff(roundAt: int -> int, c: State, now: int)
    requires Monotone(roundAt) && Safe(c) && UpToDate(roundAt, c, now) && SegmentsIncrease(c.trace)
    requires c.subroundId == SR_BEFORE_START_ROUND && roundAt(now) > 0
    ensures (exists turns :: TurnsGoOn(turns, now) && !SegmentsIncrease(Loop(roundAt, c, turns).trace))
            <==> SR_BEFORE_START_ROUND in c.subrounds
  {
    if SR_BEFORE_START_ROUND in c.subrounds {
      ReservedRepeats(roundAt, c, now);
      assert TurnsGoOn([Turn(now, false), Turn(now, false)], now);
    } else {
      forall turns | TurnsGoOn(turns, now) ensures SegmentsIncrease(Loop(roundAt, c, turns).trace) {
        LoopAddsNoRepetition(roundAt, c, now, turns);
      }
    }
  }

  // ---------------------------------------------------------------------------------------------
  // Getting stuck
  // ---------------------------------------------------------------------------------------------

  /** The driver stands before a round or at a registered subround. */
  ghost predicate OnTrack(c: State) {
    c.subroundId == SR_BEFORE_START_ROUND || c.subroundId in c.subrounds
  }

  /** Every registered handler names a registered successor, or none. */
  ghost predicate ClosedChain(c: State) {
    forall k | 0 <= k < |c.handlers| ::
      c.handlers[k].next == SR_BEFORE_START_ROUND || c.handlers[k].next in c.subrounds
  }

  /** Subrounds are called with a closed chain, and handlers are dropped only between rounds. */
  ghost predicate Disciplined(roundAt: int -> int, c: State, ops: seq<Op>) {
    forall k: nat | k < |ops| ::
      var s := Run(roundAt, c, ops[..k]);
      && (ops[k].Call? ==> ClosedChain(s))
      && (ops[k].RemoveAll? ==> s.subroundId == SR_BEFORE_START_ROUND)
  }

  lemma StepOnTrack(roundAt: int -> int, c: State, op: Op)
    requires Safe(c) && OnTrack(c)
    requires op.Call? ==> ClosedChain(c)
    requires op.RemoveAll? ==> c.subroundId == SR_BEFORE_START_ROUND
    ensures OnTrack(Step(roundAt, c, op))
  {
  }

  lemma {:induction false} RunOnTrack(roundAt: int -> int, index: int, ops: seq<Op>)
    requires Disciplined(roundAt, Initial(index), ops)
    ensures OnTrack(Run(roundAt, Initial(index), ops))
  {
    if ops != [] {
      var n := |ops| - 1;
      forall k: nat | k < n ensures ops[..n][..k] == ops[..k] { }
      RunOnTrack(roundAt, index, ops[..n]);
      RunSafe(roundAt, index, ops[..n]);
      StepOnTrack(roundAt, Run(roundAt, Initial(index), ops[..n]), ops[n]);
    }
  }

  /** After all handlers have been removed nobody is called until somebody is registered. */
  lemma {:induction false} RemovedStaysSilent(roundAt: int -> int, c: State, ops: seq<Op>)
    requires forall i | 0 <= i < |ops| :: !ops[i].Add?
    ensures var d := Run(roundAt, Step(roundAt, c, RemoveAll), ops);
            d.trace == c.trace && d.handlers == [] && d.subrounds == map[]
  {
    if ops != [] {
      var n := |ops| - 1;
      RemovedStaysSilent(roundAt, c, ops[..n]);
      assert !ops[n].Add?;
    }
  }

  /** The driver waits for a subround that nobody has registered. */
  predicate Halted(c: State) {
    c.subroundId != SR_BEFORE_START_ROUND && c.subroundId !in c.subrounds
  }

  lemma WaitingInRound(c: State)
    requires Safe(c) && c.subroundId != SR_BEFORE_START_ROUND
    ensures c.index > 0
  {
    if c.trace != [] {
      assert WellCalled(c.trace, |c.trace| - 1);
    }
  }

  /** The next turn changes nothing, whatever the time and the answer, exactly if the driver waits for
      a subround that is not registered; if it waits for one that is, the turn works on it. */
  lemma TurnStuckIff(roundAt: int -> int, c: State)
    requires Safe(c) && c.subroundId != SR_BEFORE_START_ROUND
    ensures (forall now, result :: StartRound(roundAt, c, now, result) == c) <==> Halted(c)
    ensures !Halted(c) ==> forall now, result :: |StartRound(roundAt, c, now, result).trace| == |c.trace| + 1
  {
    WaitingInRound(c);
    if !Halted(c) {
      assert StartRound(roundAt, c, 0, true) != c;
    }
  }

  /** A halted driver stays where it is, through any turns, registrations and removals, as long as the
      subround it waits for is not registered. */
  lemma {:induction false} HaltedStays(roundAt: int -> int, c: State, ops: seq<Op>)
    requires Halted(c)
    requires forall i | 0 <= i < |ops| && ops[i].Add? :: ops[i].handler.current != c.subroundId
    ensures var d := Run(roundAt, c, ops);
            && Halted(d) && d == c.(subrounds := d.subrounds, handlers := d.handlers)
            && ((forall i | 0 <= i < |ops| :: ops[i].Update? || ops[i].Call?) ==> d == c)
  {
    if ops != [] {
      var n := |ops| - 1;
      HaltedStays(roundAt, c, ops[..n]);
      assert ops[n].Add? ==> ops[n].handler.current != c.subroundId;
    }
  }

  /** Registering that subround sets it going again: the very next turn works on it. */
  lemma HaltedRevives(roundAt: int -> int, c: State, h: Handler, now: int, result: bool)
    requires Safe(c) && Halted(c) && h.current == c.subroundId
    ensures var d := Run(roundAt, c, [Add(h), Update(now), Call(result)]);
            |d.trace| == |c.trace| + 1 && d.trace[|c.trace|].handler == h
  {
    assert [Add(h), Update(now), Call(result)] == [] + [Add(h)] + [Update(now)] + [Call(result)];
    RunSnoc(roundAt, c, [], Add(h));
    RunSnoc(roundAt, c, [] + [Add(h)], Update(now));
    RunSnoc(roundAt, c, [] + [Add(h)] + [Update(now)], Call(result));
    WaitingInRound(c);
    hide Run, Safe;
  }

  /** Such a run: one handler, whose successor was never registered. */
  lemma HaltingRun()
    ensures Halted(Run((now: int) => now, Initial(0), [Add(Handler(1, 2)), Update(1), Call(true)]))
  {
    var roundAt: int -> int := (now: int) => now;
    var h := Handler(1, 2);
    assert [Add(h), Update(1), Call(true)] == [] + [Add(h)] + [Update(1)] + [Call(true)];
    RunSnoc(roundAt, Initial(0), [], Add(h));
    RunSnoc(roundAt, Initial(0), [] + [Add(h)], Update(1));
    RunSnoc(roundAt, Initial(0), [] + [Add(h)] + [Update(1)], Call(true));
    hide Run;
    var s2 := Step(roundAt, Step(roundAt, Initial(0), Add(h)), Update(1));
    assert s2.subroundId == 1 && Step(roundAt, s2, Call(true)).subroundId == 2;
  }

  // ---------------------------------------------------------------------------------------------
  // Which tables can get stuck
  // ---------------------------------------------------------------------------------------------

  /** The subround named by a registered one; an unregistered one leads nowhere. */
  function NextOf(c: State, id: int): int {
    if id in c.subrounds && c.subrounds[id] < |c.handlers| then c.handlers[c.subrounds[id]].next else id
  }

  /** `k` successors further. */
  function Follow(c: State, id: int, k: nat): int {
    if k == 0 then id else NextOf(c, Follow(c, id, k - 1))
  }

  predicate Stray(c: State, id: int) {
    id != SR_BEFORE_START_ROUND && id !in c.subrounds
  }

  lemma {:induction false} FollowShift(c: State, id: int, i: nat, m: nat)
    ensures Follow(c, Follow(c, id, i), m) == Follow(c, id, i + m)
  {
    if m > 0 {
      FollowShift(c, id, i, m - 1);
    }
  }

  /** Where a chain begins: at the first handler when a round begins, or at the reserved identifier. */
  predicate ChainStart(c: State, id: int) {
    id == SR_BEFORE_START_ROUND || (c.handlers != [] && id == c.handlers[0].current)
  }

  /** Some chain of successors runs out of the table. As many steps as there are registered subrounds
      tell. */
  ghost predicate LeavesTable(c: State) {
    exists id: int, k: nat :: ChainStart(c, id) && k <= |c.subrounds| && Stray(c, Follow(c, id, k))
  }

  ghost function Visited(c: State, id: int, k: nat): set<int> {
    set m | 0 <= m < k :: Follow(c, id, m)
  }

  lemma {:induction false} NowhereToGo(c: State, id: int, m: nat, n: nat)
    requires m <= n && Follow(c, id, m) !in c.subrounds
    ensures Follow(c, id, n) == Follow(c, id, m)
  {
    if m < n {
      NowhereToGo(c, id, m, n - 1);
    }
  }

  lemma RegisteredUntil(c: State, id: int, n: nat, k: nat)
    requires k < n && Stray(c, Follow(c, id, n)) && !Stray(c, Follow(c, id, k))
    ensures Follow(c, id, k) in c.subrounds
  {
    if Follow(c, id, k) !in c.subrounds {
      NowhereToGo(c, id, k, n);
    }
  }

  lemma NoRepetition(c: State, id: int, n: nat, m: nat, k: nat)
    requires m < k < n && Stray(c, Follow(c, id, n)) && !Stray(c, Follow(c, id, m + (n - k)))
    ensures Follow(c, id, m) != Follow(c, id, k)
  {
    hide Follow, Stray;
    FollowShift(c, id, m, n - k);
    FollowShift(c, id, k, n - k);
  }

  /** The first stray identifier of a chain comes after pairwise different registered ones. */
  lemma {:induction false} VisitedSize(c: State, id: int, n: nat, k: nat)
    requires k <= n && Stray(c, Follow(c, id, n)) && forall m: nat | m < n :: !Stray(c, Follow(c, id, m))
    ensures |Visited(c, id, k)| == k && Visited(c, id, k) <= c.subrounds.Keys
  {
    hide Follow, Stray;
    if k == 0 {
      assert Visited(c, id, 0) == {};
    } else {
      VisitedSize(c, id, n, k - 1);
      var p := Follow(c, id, k - 1);
      RegisteredUntil(c, id, n, k - 1);
      forall m: nat | m < k - 1 ensures Follow(c, id, m) != p {
        NoRepetition(c, id, n, m, k - 1);
      }
      assert Visited(c, id, k) == Visited(c, id, k - 1) + {p};
    }
  }

  lemma {:induction false} FirstStray(c: State, id: int, k: nat) returns (n: nat)
    requires Stray(c, Follow(c, id, k))
    ensures n <= k && Stray(c, Follow(c, id, n)) && forall m: nat | m < n :: !Stray(c, Follow(c, id, m))
  {
    if exists m: nat :: m < k && Stray(c, Follow(c, id, m)) {
      var m: nat :| m < k && Stray(c, Follow(c, id, m));
      n := FirstStray(c, id, m);
    } else {
      n := k;
    }
  }

  lemma StrayIsNear(c: State, id: int, k: nat)
    requires ChainStart(c, id) && Stray(c, Follow(c, id, k))
    ensures LeavesTable(c)
  {
    var n := FirstStray(c, id, k);
    VisitedSize(c, id, n, n);
    SubsetSize(Visited(c, id, n), c.subrounds.Keys);
    assert |c.subrounds.Keys| == |c.subrounds|;
  }

  /** The table is that of `c`, and the driver is somewhere on a chain. */
  ghost predicate OnChain(c: State, d: State) {
    && d.handlers == c.handlers && d.subrounds == c.subrounds
    && exists id: int, k: nat :: ChainStart(c, id) && d.subroundId == Follow(c, id, k)
  }

  lemma TurnOnChain(roundAt: int -> int, c: State, d: State, now: int, result: bool)
    requires Registry(c) && OnChain(c, d)
    ensures OnChain(c, StartRound(roundAt, d, now, result))
  {
    var id: int, k: nat :| ChainStart(c, id) && d.subroundId == Follow(c, id, k);
    var u := UpdateStep(roundAt, d, now);
    if u.subroundId == d.subroundId {
      assert Follow(c, id, k + 1) == NextOf(c, d.subroundId);
    } else {
      assert u.subroundId == Follow(c, u.subroundId, 0) && NextOf(c, u.subroundId) == Follow(c, u.subroundId, 1);
    }
    assert SR_BEFORE_START_ROUND == Follow(c, SR_BEFORE_START_ROUND, 0);
  }

  lemma {:induction false} TurnsOnChain(roundAt: int -> int, c: State, turns: seq<Turn>)
    requires Registry(c) && c.subroundId == SR_BEFORE_START_ROUND
    ensures OnChain(c, Loop(roundAt, c, turns))
  {
    if turns == [] {
      assert c.subroundId == Follow(c, SR_BEFORE_START_ROUND, 0);
    } else {
      var n := |turns| - 1;
      TurnsOnChain(roundAt, c, turns[..n]);
      TurnOnChain(roundAt, c, Loop(roundAt, c, turns[..n]), turns[n].now, turns[n].result);
    }
  }

  /** With true answers and the clock standing still, the turns go down the chain. */
  lemma {:induction false} TurnsFollow(roundAt: int -> int, c: State, now: int, k: nat)
    requires Registry(c) && c.index > 0 && roundAt(now) == c.index
    ensures var d := Loop(roundAt, c, seq(k, _ => Turn(now, true)));
            d == c.(subroundId := Follow(c, c.subroundId, k), trace := d.trace)
  {
    if k == 0 {
      assert seq(k, _ => Turn(now, true)) == [];
    } else {
      TurnsFollow(roundAt, c, now, k - 1);
      assert seq(k, _ => Turn(now, true))[..k - 1] == seq(k - 1, _ => Turn(now, true));
    }
  }

  lemma {:induction false} LoopConcat(roundAt: int -> int, c: State, a: seq<Turn>, b: seq<Turn>)
    ensures Loop(roundAt, c, a + b) == Loop(roundAt, Loop(roundAt, c, a), b)
  {
    if b == [] {
      assert a + b == a;
    } else {
      var n := |b| - 1;
      assert (a + b)[..|a + b| - 1] == a + b[..n];
      LoopConcat(roundAt, c, a, b[..n]);
    }
  }

  lemma {:induction false} TableOnly(c: State, d: State, id: int, k: nat)
    requires c.handlers == d.handlers && c.subrounds == d.subrounds
    ensures Follow(c, id, k) == Follow(d, id, k)
  {
    if k > 0 {
      TableOnly(c, d, id, k - 1);
    }
  }

  /** The turn that begins a round. */
  lemma FirstTurn(roundAt: int -> int, c: State, now: int, result: bool)
    requires Registry(c) && c.subroundId == SR_BEFORE_START_ROUND && c.handlers != []
    requires roundAt(now) > 0 && roundAt(now) != c.index
    ensures var d := StartRound(roundAt, c, now, result);
            && Registry(d) && d.handlers == c.handlers && d.subrounds == c.subrounds && d.index == roundAt(now)
            && d.subroundId == if result then NextOf(c, c.handlers[0].current) else SR_BEFORE_START_ROUND
  {
    assert c.handlers[0].current in c.subrounds;
  }

  lemma DownTheChain(roundAt: int -> int, c: State, d: State, now: int, m: nat)
    requires Registry(d) && d.index > 0 && roundAt(now) == d.index
    requires d.handlers == c.handlers && d.subrounds == c.subrounds && Stray(c, Follow(c, d.subroundId, m))
    ensures Halted(Loop(roundAt, d, seq(m, _ => Turn(now, true))))
  {
    hide Loop, Follow, Registry;
    TableOnly(c, d, d.subroundId, m);
    TurnsFollow(roundAt, d, now, m);
  }

  /** One turn that begins a round, and then down the chain. */
  lemma ReachAfter(roundAt: int -> int, c: State, now: int, result: bool, m: nat)
    requires Registry(c) && c.subroundId == SR_BEFORE_START_ROUND && c.handlers != []
    requires roundAt(now) > 0 && roundAt(now) != c.index
    requires Stray(c, Follow(c, if result then NextOf(c, c.handlers[0].current) else SR_BEFORE_START_ROUND, m))
    ensures Halted(Loop(roundAt, c, [Turn(now, result)] + seq(m, _ => Turn(now, true))))
  {
    hide Loop, StartRound, Follow, NextOf, Registry, Stray;
    LoopSnoc(roundAt, c, [], Turn(now, result));
    assert [] + [Turn(now, result)] == [Turn(now, result)];
    FirstTurn(roundAt, c, now, result);
    DownTheChain(roundAt, c, Loop(roundAt, c, [Turn(now, result)]), now, m);
    LoopConcat(roundAt, c, [Turn(now, result)], seq(m, _ => Turn(now, true)));
  }

  /** A chain that runs out of the table is reached: the first turn begins a round, at its first
      handler, or lets that handler fail. */
  lemma TurnsReach(roundAt: int -> int, c: State, now: int, id: int, k: nat) returns (turns: seq<Turn>)
    requires Registry(c) && c.subroundId == SR_BEFORE_START_ROUND && c.handlers != []
    requires roundAt(now) > 0 && roundAt(now) != c.index
    requires ChainStart(c, id) && Stray(c, Follow(c, id, k))
    ensures Halted(Loop(roundAt, c, turns))
  {
    var first := c.handlers[0].current;
    if id == first {
      assert first in c.subrounds && Follow(c, first, 0) == first;
      assert Follow(c, first, 1) == NextOf(c, Follow(c, first, 0));
      hide Loop, Follow, NextOf, Registry;
      FollowShift(c, first, 1, k - 1);
      ReachAfter(roundAt, c, now, true, k - 1);
      turns := [Turn(now, true)] + seq(k - 1, _ => Turn(now, true));
    } else {
      hide Loop, Follow, NextOf, Registry;
      ReachAfter(roundAt, c, now, false, k);
      turns := [Turn(now, false)] + seq(k, _ => Turn(now, true));
    }
  }

  /** With a fixed table, some turns of the main loop get the driver stuck exactly if a chain of
      successors, from the first handler on, runs out of the table. */
  lemma SomeTurnsHaltIff(roundAt: int -> int, c: State, now: int)
    requires Safe(c) && c.subroundId == SR_BEFORE_START_ROUND && c.handlers != []
    requires roundAt(now) > 0 && roundAt(now) != c.index
    ensures (exists turns :: Halted(Loop(roundAt, c, turns))) <==> LeavesTable(c)
  {
    if turns :| Halted(Loop(roundAt, c, turns)) {
      TurnsOnChain(roundAt, c, turns);
      var id: int, k: nat :| ChainStart(c, id) && Loop(roundAt, c, turns).subroundId == Follow(c, id, k);
      StrayIsNear(c, id, k);
    }
    if LeavesTable(c) {
      var id: int, k: nat :| ChainStart(c, id) && k <= |c.subrounds| && Stray(c, Follow(c, id, k));
      var turns := TurnsReach(roundAt, c, now, id, k);
    }
  }

  // ---------------------------------------------------------------------------------------------
  // The driver itself
  // ---------------------------------------------------------------------------------------------

  class Chronology {
    const genesisTime: int
    const rounder: Round
    var subroundId: int
    var subrounds: map<int, nat>
    var subroundHandlers: seq<Handler>
    ghost var began: int
    ghost var trace: seq<Event>

    ghost function Abs(): State
      reads this, rounder
    {
      State(subroundId, subrounds, subroundHandlers, rounder.index, began, trace)
    }

    ghost predicate Valid()
      reads this, rounder
    {
      rounder.Valid(genesisTime) && Safe(Abs())
    }

    /** The round of a moment, as the rounder computes it. */
    ghost function RoundAt(): int -> int
      requires 0 < rounder.timeDuration <= TWO_53
    {
      (now: int) => FloatIndex(rounder.fl, now - genesisTime, rounder.timeDuration)
    }

    constructor (genesisTime: int, rounder: Round)
      requires rounder.Valid(genesisTime)
      ensures Valid() && Abs() == Initial(rounder.index)
      ensures this.genesisTime == genesisTime && this.rounder == rounder
    {
      this.genesisTime := genesisTime;
      this.rounder := rounder;
      subroundId := SR_BEFORE_START_ROUND;
      subrounds := map[];
      subroundHandlers := [];
      began := SR_BEFORE_START_ROUND;
      trace := [];
    }

    method AddSubround(handler: Handler)
      requires Valid()
      modifies this
      ensures Valid() && Abs() == Step(RoundAt(), old(Abs()), Add(handler))
    {
      StepSafe(RoundAt(), Abs(), Add(handler));
      subrounds := subrounds[handler.current := |subroundHandlers|];
      subroundHandlers := subroundHandlers + [handler];
    }

    method RemoveAllSubrounds()
      requires Valid()
      modifies this
      ensures Valid() && Abs() == Step(RoundAt(), old(Abs()), RemoveAll)
    {
      subrounds := map[];
      subroundHandlers := [];
    }

    method UpdateToNow(now: int)
      requires rounder.Valid(genesisTime)
      modifies this`subroundId, this`began, rounder
      ensures rounder.Valid(genesisTime)
      ensures Abs() == UpdateRound(RoundAt(), old(Abs()), now)
    {
      hide FloatIndex, Rounding;
      var oldRoundIndex := rounder.index;
      rounder.UpdateRound(genesisTime, now);
      if oldRoundIndex != rounder.index {
        subroundId := SR_BEFORE_START_ROUND;
        if rounder.index > 0 && |subroundHandlers| > 0 {
          subroundId := subroundHandlers[0].current;
        }
        began := subroundId;
      }
    }

    /** The handler registered for the present subround, if there is one. */
    method Load() returns (sr: Option<Handler>)
      ensures sr == LoadSubroundHandler(Abs())
      ensures Registry(Abs()) ==> (sr.Some? <==> subroundId in subrounds)
      ensures Registry(Abs()) && sr.Some? ==> sr.value in subroundHandlers && sr.value.current == subroundId
    {
      if subroundId !in subrounds {
        return None;
      }
      var index := subrounds[subroundId];
      if index < 0 || index >= |subroundHandlers| {
        return None;
      }
      return Some(subroundHandlers[index]);
    }

    /** Calls the present subround, if the round has begun and there is one. */
    method CallSubround(doWork: bool)
      modifies this
      ensures Abs() == Work(old(Abs()), doWork)
    {
      if rounder.index <= 0 {
        return;
      }
      var sr := Load();
      if sr == None {
        return;
      }
      trace := trace + [Event(rounder.index, sr.value, doWork, began, subroundHandlers, subrounds[subroundId])];
      if !doWork {
        subroundId := SR_BEFORE_START_ROUND;
        return;
      }
      subroundId := sr.value.next;
    }

    /** Brings the round up to date, unless a round is being worked on. */
    method UpdateIfBeforeStart(now: int)
      requires Valid()
      modifies this, rounder
      ensures Valid() && Abs() == Step(RoundAt(), old(Abs()), Update(now))
    {
      StepSafe(RoundAt(), Abs(), Update(now));
      hide Safe, Rounding, FloatIndex, UpdateRound;
      if subroundId == SR_BEFORE_START_ROUND {
        UpdateToNow(now);
      }
    }

    /** One turn of the main loop at time `now`; `doWork` is what the subround answers if it is called. */
    method TurnOnce(now: int, doWork: bool)
      requires Valid()
      modifies this, rounder
      ensures Valid() && Abs() == Loop(RoundAt(), old(Abs()), [Turn(now, doWork)])
    {
      TurnSafe(RoundAt(), Abs(), now, doWork);
      LoopSnoc(RoundAt(), Abs(), [], Turn(now, doWork));
      hide Safe, Rounding, FloatIndex, UpdateRound, Work, Loop;
      assert [] + [Turn(now, doWork)] == [Turn(now, doWork)];
      UpdateIfBeforeStart(now);
      CallSubround(doWork);
    }
  }

  /** The rounder's notion of time never goes back, however far from genesis. */
  lemma RoundAtMonotone(fl: real -> real, genesis: int, duration: int)
    requires Rounding(fl) && 0 < duration <= TWO_53
    ensures Monotone((now: int) => FloatIndex(fl, now - genesis, duration))
  {
    hide Rounding, FloatIndex;
    var roundAt: int -> int := (now: int) => FloatIndex(fl, now - genesis, duration);
    forall a, b | a <= b ensures roundAt(a) <= roundAt(b) {
      FloatIndexMonotone(fl, a - genesis, b - genesis, duration);
    }
  }

  /** The rounder and the driver together: with a clock that never goes back, no round is worked on
      twice, at any distance from genesis, as long as the reserved identifier is left free. */
  lemma NoRoundTwice(fl: real -> real, genesis: int, duration: int, start: int, ops: seq<Op>)
    requires Rounding(fl) && 0 < duration <= TWO_53 && ClockGoesOn(ops, start)
    requires forall i | 0 <= i < |ops| :: Unreserved(ops[i])
    ensures var roundAt: int -> int := (now: int) => FloatIndex(fl, now - genesis, duration);
            SegmentsIncrease(Run(roundAt, Initial(roundAt(start)), ops).trace)
  {
    hide Rounding, FloatIndex, Run, SegmentsIncrease;
    RoundAtMonotone(fl, genesis, duration);
    SegmentsGoUp((now: int) => FloatIndex(fl, now - genesis, duration), start, ops);
  }
}
