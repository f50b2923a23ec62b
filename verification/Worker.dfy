/** Receiving, storing, executing and discarding consensus messages (consensus/spos/worker.go). */
module Workers {
  import opened MessageStores
  import opened Wrappers

  // ---------------------------------------------------------------------------------------------
  // The worker and everything that can happen around it
  // ---------------------------------------------------------------------------------------------

  /** Who holds the store's lock and how far it is. A pass goes through the message types in `rest`;
      `since` is the rounder's index when it began. It tests the messages of the first type one by
      one (`Executing`, then `Proceeding`), takes out those that pass and waits until the receiver
      takes them (`Delivering`); then it cleans the list, keeping in `kept` what is not outdated. */
  datatype Holder =
    | Free
    | Executing(rest: seq<int>, pos: nat, since: int)
    | Proceeding(rest: seq<int>, pos: nat, since: int, tested: Stamp)
    | Delivering(rest: seq<int>, pos: nat, since: int, out: Departure)
    | Cleaning(rest: seq<int>, pos: nat, since: int, kept: seq<Envelope>)

  /** A received message, and what its checks have read so far and when. */
  datatype Pending = Pending(msg: Message, verdicts: Verdicts, views: seq<View>, times: seq<nat>)

  /** `time` counts the steps; `handler` is the message the receiving goroutine is working on. */
  datatype State = State(view: View, time: nat, pending: seq<Pending>, queues: map<int, Queue>, holder: Holder,
                         handler: Option<Envelope>, nextId: nat)

  datatype Step =
    | Change(view: View)                          // other threads change the consensus state
    | Receive(msg: Message, verdicts: Verdicts)   // ProcessReceivedMessage begins
    | Check(k: nat)                               // its next read; after the last one, a goroutine starts
    | Enter(msgType: int, k: nat)                 // such a goroutine gets the lock and appends
    | ExecuteStored                               // a subround asks for another pass
    | Advance                                     // the holder of the lock goes on
    | Handled                                     // the receiving goroutine is done with its message

  function QueueOf(s: State, msgType: int): Queue {
    if msgType in s.queues then s.queues[msgType] else EMPTY_QUEUE
  }

  function Now(s: State): Stamp {
    Stamp(s.time, s.view)
  }

  function Initial(view: View): State {
    State(view, 0, [], map[], Free, None, 0)
  }

  /** Whether check `j` of a message passes on what it reads. */
  predicate PassesAt(m: Message, v: Verdicts, j: nat, view: View) {
    match j
    case 0 => m.pubKey in view.eligible
    case 1 => view.roundIndex <= m.roundIndex && WellSigned(v)
    case 2 => m.pubKey != view.selfPubKey
    case 3 => true
    case _ => view.roundIndex != m.roundIndex
  }

  /** No more checks after these reads. */
  predicate Complete(views: seq<View>) {
    |views| >= 5 || (|views| == 4 && !views[3].roundCanceled)
  }

  /** An accepted message waits for the lock. */
  function AcceptQueue(q: Queue, a: Acceptance): Queue {
    q.(accepted := q.accepted + [a], inflight := q.inflight + [a.e])
  }

  function CheckStep(s: State, k: nat): State {
    if k >= |s.pending| then s
    else
      var p := s.pending[k];
      var views, times := p.views + [s.view], p.times + [s.time];
      var others := s.pending[..k] + s.pending[k + 1..];
      if !PassesAt(p.msg, p.verdicts, |p.views|, s.view) then s.(pending := others)
      else if !Complete(views) then s.(pending := s.pending[k := p.(views := views, times := times)])
      else
        var t := p.msg.msgType;
        var a := Acceptance(Envelope(s.nextId, p.msg), views, times, p.verdicts);
        s.(pending := others, nextId := s.nextId + 1, queues := s.queues[t := AcceptQueue(QueueOf(s, t), a)])
  }

  function EnterStep(range: seq<int>, s: State, msgType: int, k: nat): State {
    var q := QueueOf(s, msgType);
    if s.holder != Free || k >= |q.inflight| then s
    else s.(queues := s.queues[msgType := EnterQueue(q, k)], holder := Executing(range, 0, s.view.rounderIndex))
  }

  /** A message leaves a hole behind. */
  function TakeQueue(q: Queue, pos: nat, d: Departure): Queue
    requires pos < |q.slots|
  {
    q.(slots := q.slots[pos := None], taken := q.taken + [d])
  }

  /** One step of a pass. */
  function AdvanceStep(s: State): State {
    match s.holder
    case Free => s
    case Executing(rest, pos, since) =>
      if rest == [] then s.(holder := Free)
      else
        var q := QueueOf(s, rest[0]);
        if |q.slots| == 0 then s.(holder := Executing(rest[1..], 0, since))
        else if pos >= |q.slots| then s.(holder := Cleaning(rest, 0, since, []))
        else if q.slots[pos].None? || !OfRound(q.slots[pos].value, s.view) then
          s.(holder := Executing(rest, pos + 1, since))
        else s.(holder := Proceeding(rest, pos, since, Now(s)))
    case Proceeding(rest, pos, since, tested) =>
      if rest == [] then s.(holder := Free)
      else
        var q := QueueOf(s, rest[0]);
        if pos >= |q.slots| || q.slots[pos].None? || !MayProceed(q.slots[pos].value, s.view) then
          s.(holder := Executing(rest, pos + 1, since))
        else
          var d := TakenOut(q.slots[pos].value, tested, Now(s));
          s.(holder := Delivering(rest, pos, since, d), queues := s.queues[rest[0] := TakeQueue(q, pos, d)])
    case Delivering(rest, pos, since, out) =>
      if rest == [] then s.(holder := Free)
      else if s.handler.Some? then s
      else
        var q := QueueOf(s, rest[0]);
        s.(holder := Executing(rest, pos + 1, since), handler := Some(out.e),
           queues := s.queues[rest[0] := q.(sent := q.sent + [Now(s)])])
    case Cleaning(rest, pos, since, kept) =>
      if rest == [] then s.(holder := Free)
      else
        var q := QueueOf(s, rest[0]);
        if pos >= |q.slots| then
          s.(holder := Executing(rest[1..], 0, since), queues := s.queues[rest[0] := q.(slots := Filled(kept))])
        else if q.slots[pos].None? then s.(holder := Cleaning(rest, pos + 1, since, kept))
        else
          var e := q.slots[pos].value;
          if Outdated(e, s.view) then
            s.(holder := Cleaning(rest, pos + 1, since, kept),
               queues := s.queues[rest[0] := q.(discarded := q.discarded + [Discarded(e, Now(s))])])
          else s.(holder := Cleaning(rest, pos + 1, since, kept + [e]))
  }

  function Effect(range: seq<int>, s: State, step: Step): State {
    match step
    case Change(view) => s.(view := view)
    case Receive(m, v) => s.(pending := s.pending + [Pending(m, v, [], [])])
    case Check(k) => CheckStep(s, k)
    case Enter(t, k) => EnterStep(range, s, t, k)
    case ExecuteStored => if s.holder == Free then s.(holder := Executing(range, 0, s.view.rounderIndex)) else s
    case Advance => AdvanceStep(s)
    case Handled => s.(handler := None)
  }

  function Next(range: seq<int>, s: State, step: Step): State {
    Effect(range, s, step).(time := s.time + 1)
  }

  function Run(range: seq<int>, view: View, steps: seq<Step>): State {
    if steps == [] then Initial(view) else Next(range, Run(range, view, steps[..|steps| - 1]), steps[|steps| - 1])
  }

  // ---------------------------------------------------------------------------------------------
  // Conservation and provenance over every run
  // ---------------------------------------------------------------------------------------------

  /** The messages a type has in store; while its list is being cleaned, those kept so far and those
      still to be looked at. */
  function Stored(s: State, msgType: int): seq<Envelope> {
    var slots := QueueOf(s, msgType).slots;
    if s.holder.Cleaning? && s.holder.rest != [] && s.holder.rest[0] == msgType && s.holder.pos <= |slots|
    then s.holder.kept + Live(slots[s.holder.pos..])
    else Live(slots)
  }

  /** The message of a type that has been taken out and is not yet delivered, if there is one. */
  function Outgoing(s: State, msgType: int): seq<Departure> {
    if s.holder.Delivering? && s.holder.rest != [] && s.holder.rest[0] == msgType then [s.holder.out] else []
  }

  ghost predicate QueueGood(q: Queue, live: seq<Envelope>, msgType: int, nextId: nat) {
    Conserved(q, live) && Justified(q, msgType) && forall a | a in q.accepted :: a.e.id < nextId
  }

  /** The messages taken out have been delivered in that order, all but the outgoing one. */
  ghost predicate InOrder(q: Queue, outgoing: seq<Departure>) {
    |q.sent| <= |q.taken| && q.taken[|q.sent|..] == outgoing
  }

  ghost predicate QueueSound(s: State, msgType: int) {
    && QueueGood(QueueOf(s, msgType), Stored(s, msgType), msgType, s.nextId)
    && InOrder(QueueOf(s, msgType), Outgoing(s, msgType))
  }

  ghost predicate HolderSound(s: State) {
    && (s.holder.Cleaning? && s.holder.rest != [] ==> s.holder.pos <= |QueueOf(s, s.holder.rest[0]).slots|)
    && (s.holder.Proceeding? ==>
          && s.holder.rest != []
          && var slots := QueueOf(s, s.holder.rest[0]).slots;
             && s.holder.pos < |slots| && slots[s.holder.pos].Some?
             && OfRound(slots[s.holder.pos].value, s.holder.tested.view))
    && (s.holder.Delivering? ==> s.holder.rest != [] && s.holder.pos < |QueueOf(s, s.holder.rest[0]).slots|)
  }

  /** What the checks have read so far let the message pass. */
  ghost predicate PassedSoFar(p: Pending) {
    !Complete(p.views) && forall j: nat | j < |p.views| :: PassesAt(p.msg, p.verdicts, j, p.views[j])
  }

  ghost predicate PendingSound(s: State) {
    forall p | p in s.pending :: PassedSoFar(p)
  }

  ghost predicate Sound(s: State) {
    HolderSound(s) && PendingSound(s) && forall t: int :: QueueSound(s, t)
  }

  /** A step that leaves a type's queue and its view of the lock alone keeps it sound. */
  lemma Untouched(s: State, s': State, t: int)
    requires QueueSound(s, t) && QueueOf(s', t) == QueueOf(s, t)
    requires Stored(s', t) == Stored(s, t) && Outgoing(s', t) == Outgoing(s, t) && s.nextId <= s'.nextId
    ensures QueueSound(s', t)
  {
  }

  lemma PassingAllIsAcceptable(p: Pending, view: View)
    requires PassedSoFar(p) && PassesAt(p.msg, p.verdicts, |p.views|, view) && Complete(p.views + [view])
    ensures Acceptable(p.msg, p.views + [view], p.verdicts)
  {
    var views := p.views + [view];
    forall j: nat | j < |views| ensures PassesAt(p.msg, p.verdicts, j, views[j]) { }
    assert PassesAt(p.msg, p.verdicts, 0, views[0]) && PassesAt(p.msg, p.verdicts, 1, views[1]);
    assert PassesAt(p.msg, p.verdicts, 2, views[2]);
    if |views| == 5 {
      assert PassesAt(p.msg, p.verdicts, 4, views[4]);
    }
  }

  lemma CheckPending(s: State, k: nat)
    requires PendingSound(s) && k < |s.pending|
    ensures PendingSound(CheckStep(s, k))
  {
    hide PassesAt;
    var s' := CheckStep(s, k);
    var p := s.pending[k];
    forall x | x in s'.pending ensures PassedSoFar(x) {
      if x !in s.pending {
        assert x == p.(views := p.views + [s.view], times := p.times + [s.time]);
        assert PassedSoFar(p);
      }
    }
  }

  lemma AcceptKeeps(q: Queue, a: Acceptance)
    ensures AcceptQueue(q, a).slots == q.slots && AcceptQueue(q, a).taken == q.taken && AcceptQueue(q, a).sent == q.sent
  {
  }

  lemma FreshId(q: Queue, id: nat)
    requires forall x | x in q.accepted :: x.e.id < id
    ensures forall x | x in AcceptedOf(q) :: x.id != id
  {
    forall x | x in AcceptedOf(q) ensures x.id != id {
      var i :| 0 <= i < |q.accepted| && q.accepted[i].e == x;
      assert q.accepted[i] in q.accepted;
    }
  }

  lemma AcceptGood(q: Queue, a: Acceptance, live: seq<Envelope>, t: int)
    requires QueueGood(q, live, t, a.e.id) && a.e.msg.msgType == t && Acceptable(a.e.msg, a.views, a.verdicts)
    ensures QueueGood(AcceptQueue(q, a), live, t, a.e.id + 1)
  {
    hide AcceptedOf, Conserved, Acceptable, Tested;
    FreshId(q, a.e.id);
    AcceptConserves(q, a, live);
  }

  lemma CheckQueue(s: State, k: nat, t: int)
    requires PendingSound(s) && k < |s.pending| && QueueSound(s, t)
    ensures QueueSound(CheckStep(s, k), t)
  {
    hide QueueGood, Acceptable, PassesAt, Live, Complete, AcceptQueue;
    var s' := CheckStep(s, k);
    var p := s.pending[k];
    assert PassedSoFar(p);
    if t == p.msg.msgType && s'.nextId > s.nextId {
      var a := Acceptance(Envelope(s.nextId, p.msg), p.views + [s.view], p.times + [s.time], p.verdicts);
      PassingAllIsAcceptable(p, s.view);
      AcceptGood(QueueOf(s, t), a, Stored(s, t), t);
      assert QueueOf(s', t) == AcceptQueue(QueueOf(s, t), a);
      AcceptKeeps(QueueOf(s, t), a);
      assert Stored(s', t) == Stored(s, t) && Outgoing(s', t) == Outgoing(s, t);
    } else {
      assert QueueOf(s', t) == QueueOf(s, t);
      Untouched(s, s', t);
    }
  }

  lemma CheckHolder(s: State, k: nat)
    requires HolderSound(s)
    ensures HolderSound(CheckStep(s, k))
  {
    hide PassesAt, Complete, OfRound;
    assert CheckStep(s, k).holder == s.holder;
    assert forall t: int :: QueueOf(CheckStep(s, k), t).slots == QueueOf(s, t).slots;
  }

  lemma CheckSound(s: State, k: nat)
    requires Sound(s)
    ensures Sound(CheckStep(s, k))
  {
    hide QueueGood, Acceptable, PassesAt, QueueSound, PassedSoFar, Complete;
    if k < |s.pending| {
      CheckPending(s, k);
      CheckHolder(s, k);
      forall t: int ensures QueueSound(CheckStep(s, k), t) {
        assert QueueSound(s, t);
        CheckQueue(s, k, t);
      }
    }
  }

  lemma EnterGood(q: Queue, k: nat, t: int, nextId: nat)
    requires k < |q.inflight| && QueueGood(q, Live(q.slots), t, nextId)
    ensures QueueGood(EnterQueue(q, k), Live(EnterQueue(q, k).slots), t, nextId)
  {
    hide Conserved, Live, Acceptable, Tested;
    EnterConserves(q, k, Live(q.slots));
    LiveAppend(q.slots, Some(q.inflight[k]));
  }

  lemma EnterOne(range: seq<int>, s: State, msgType: int, k: nat, t: int)
    requires QueueSound(s, t)
    ensures QueueSound(EnterStep(range, s, msgType, k), t)
  {
    hide QueueGood, Live;
    var s' := EnterStep(range, s, msgType, k);
    if s.holder == Free && k < |QueueOf(s, msgType).inflight| {
      if t == msgType {
        EnterGood(QueueOf(s, t), k, t, s.nextId);
        assert QueueOf(s', t) == EnterQueue(QueueOf(s, t), k);
      } else {
        Untouched(s, s', t);
      }
    }
  }

  lemma EnterSound(range: seq<int>, s: State, msgType: int, k: nat)
    requires Sound(s)
    ensures Sound(EnterStep(range, s, msgType, k))
  {
    hide QueueSound, PassedSoFar, EnterQueue;
    forall t: int ensures QueueSound(EnterStep(range, s, msgType, k), t) {
      assert QueueSound(s, t);
      EnterOne(range, s, msgType, k, t);
    }
  }

  lemma TakeGood(q: Queue, pos: nat, d: Departure, t: int, nextId: nat)
    requires QueueGood(q, Live(q.slots), t, nextId)
    requires pos < |q.slots| && q.slots[pos] == Some(d.e) && Tested(d)
    ensures QueueGood(TakeQueue(q, pos, d), Live(TakeQueue(q, pos, d).slots), t, nextId)
  {
    hide Conserved, Live, Acceptable, Tested;
    MakeHole(q.slots, pos);
    LeaveConserves(q, TakeQueue(q, pos, d), Live(q.slots[..pos]), d, Live(q.slots[pos + 1..]), true);
  }

  lemma ExecutingSound(s: State, t: int)
    requires QueueSound(s, t) && s.holder.Executing?
    ensures QueueSound(AdvanceStep(s), t)
  {
    hide QueueGood, Live;
    var q := QueueOf(s, t);
    assert q.slots[0..] == q.slots;
    assert [] + Live(q.slots) == Live(q.slots);
    Untouched(s, AdvanceStep(s), t);
  }

  lemma ProceedingSound(s: State, t: int)
    requires QueueSound(s, t) && HolderSound(s) && s.holder.Proceeding?
    ensures QueueSound(AdvanceStep(s), t)
  {
    hide QueueGood, Live;
    var s' := AdvanceStep(s);
    var q, pos := QueueOf(s, t), s.holder.pos;
    if t == s.holder.rest[0] && s'.holder.Delivering? {
      TakeGood(q, pos, s'.holder.out, t, s.nextId);
      assert QueueOf(s', t) == TakeQueue(q, pos, s'.holder.out);
    } else {
      Untouched(s, s', t);
    }
  }

  lemma SendGood(q: Queue, at: Stamp, live: seq<Envelope>, t: int, nextId: nat)
    requires QueueGood(q, live, t, nextId)
    ensures QueueGood(q.(sent := q.sent + [at]), live, t, nextId)
  {
    hide Acceptable, Tested;
    assert AcceptedOf(q.(sent := q.sent + [at])) == AcceptedOf(q) && Gone(q.(sent := q.sent + [at])) == Gone(q);
  }

  lemma DeliveringSound(s: State, t: int)
    requires QueueSound(s, t) && HolderSound(s) && s.holder.Delivering?
    ensures QueueSound(AdvanceStep(s), t)
  {
    hide QueueGood, Live;
    var s' := AdvanceStep(s);
    var q := QueueOf(s, t);
    if t == s.holder.rest[0] && s.handler.None? {
      SendGood(q, Now(s), Live(q.slots), t, s.nextId);
      assert QueueOf(s', t) == q.(sent := q.sent + [Now(s)]);
      assert |q.taken| == |q.sent| + 1;
    } else {
      Untouched(s, s', t);
    }
  }

  lemma SlotsDoNotMatter(q: Queue, q': Queue, live: seq<Envelope>, t: int)
    requires Conserved(q, live) && Justified(q, t) && q' == q.(slots := q'.slots)
    ensures Conserved(q', live) && Justified(q', t)
  {
    hide Acceptable, Tested;
    assert AcceptedOf(q') == AcceptedOf(q) && Gone(q') == Gone(q);
  }

  lemma CleanEnd(q: Queue, pos: nat, kept: seq<Envelope>, t: int, nextId: nat)
    requires pos == |q.slots| && QueueGood(q, kept + Live(q.slots[pos..]), t, nextId)
    ensures QueueGood(q.(slots := Filled(kept)), Live(Filled(kept)), t, nextId)
  {
    hide Acceptable, Tested;
    assert q.slots[pos..] == [];
    LiveFilled(kept);
    assert kept + [] == kept;
    SlotsDoNotMatter(q, q.(slots := Filled(kept)), kept, t);
  }

  lemma SplitFirst(slots: Slots, pos: nat)
    requires pos < |slots|
    ensures Live(slots[pos..]) == (if slots[pos].Some? then [slots[pos].value] else []) + Live(slots[pos + 1..])
  {
    hide Live;
    assert slots[pos..] == [slots[pos]] + slots[pos + 1..];
    LiveConcat([slots[pos]], slots[pos + 1..]);
    LiveOne(slots[pos]);
  }

  lemma CleanSlot(q: Queue, pos: nat, kept: seq<Envelope>, at: Stamp, t: int, nextId: nat)
    requires pos < |q.slots| && QueueGood(q, kept + Live(q.slots[pos..]), t, nextId)
    ensures q.slots[pos].None? ==> QueueGood(q, kept + Live(q.slots[pos + 1..]), t, nextId)
    ensures q.slots[pos].Some? && !Outdated(q.slots[pos].value, at.view) ==>
              QueueGood(q, (kept + [q.slots[pos].value]) + Live(q.slots[pos + 1..]), t, nextId)
    ensures q.slots[pos].Some? && Outdated(q.slots[pos].value, at.view) ==>
              QueueGood(q.(discarded := q.discarded + [Discarded(q.slots[pos].value, at)]),
                        kept + Live(q.slots[pos + 1..]), t, nextId)
  {
    hide Conserved, Live, Acceptable, Tested;
    SplitFirst(q.slots, pos);
    var back := Live(q.slots[pos + 1..]);
    if q.slots[pos].None? {
      assert kept + ([] + back) == kept + back;
    } else {
      var e := q.slots[pos].value;
      assert kept + ([e] + back) == kept + [e] + back;
      if Outdated(e, at.view) {
        var d := Discarded(e, at);
        LeaveConserves(q, q.(discarded := q.discarded + [d]), kept, d, back, false);
      }
    }
  }

  /** The current type's list during one step of its cleaning. */
  lemma CleanOne(s: State, t: int)
    requires QueueSound(s, t) && HolderSound(s) && s.holder.Cleaning? && s.holder.rest != [] && s.holder.rest[0] == t
    ensures QueueSound(AdvanceStep(s), t)
  {
    hide QueueGood, Live, Filled;
    var s' := AdvanceStep(s);
    var q := QueueOf(s, t);
    var pos, kept := s.holder.pos, s.holder.kept;
    if pos >= |q.slots| {
      CleanEnd(q, pos, kept, t, s.nextId);
      assert QueueOf(s', t) == q.(slots := Filled(kept));
    } else {
      CleanSlot(q, pos, kept, Now(s), t, s.nextId);
    }
  }

  lemma CleaningSound(s: State, t: int)
    requires QueueSound(s, t) && HolderSound(s) && s.holder.Cleaning?
    ensures QueueSound(AdvanceStep(s), t)
  {
    hide QueueGood, Live, Filled;
    if s.holder.rest != [] && t == s.holder.rest[0] {
      CleanOne(s, t);
    } else {
      Untouched(s, AdvanceStep(s), t);
    }
  }

  lemma AdvanceHolder(s: State)
    requires HolderSound(s)
    ensures HolderSound(AdvanceStep(s))
  {
    hide Live, Filled;
  }

  lemma AdvanceSound(s: State)
    requires Sound(s)
    ensures Sound(AdvanceStep(s))
  {
    hide QueueGood, Live, Filled;
    forall t: int ensures QueueSound(AdvanceStep(s), t) {
      assert QueueSound(s, t);
      match s.holder
      case Free =>
      case Executing(_, _, _) => ExecutingSound(s, t);
      case Proceeding(_, _, _, _) => ProceedingSound(s, t);
      case Delivering(_, _, _, _) => DeliveringSound(s, t);
      case Cleaning(_, _, _, _) => CleaningSound(s, t);
    }
    AdvanceHolder(s);
  }

  /** View, time and receiver do not matter to the store, nor does the beginning of a pass. */
  lemma SameStore(s: State, s': State)
    requires Sound(s) && s'.queues == s.queues && s'.nextId == s.nextId && s'.pending == s.pending
    requires s'.holder == s.holder || (s.holder == Free && s'.holder.Executing?)
    ensures Sound(s')
  {
    hide QueueGood, Live, PassedSoFar;
    forall t: int ensures QueueSound(s', t) {
      assert QueueSound(s, t);
      Untouched(s, s', t);
    }
  }

  lemma ReceiveSound(s: State, m: Message, v: Verdicts)
    requires Sound(s)
    ensures Sound(s.(pending := s.pending + [Pending(m, v, [], [])]))
  {
    hide QueueGood, Live;
    var s' := s.(pending := s.pending + [Pending(m, v, [], [])]);
    forall t: int ensures QueueSound(s', t) {
      assert QueueSound(s, t);
      Untouched(s, s', t);
    }
  }

  lemma NextSound(range: seq<int>, s: State, step: Step)
    requires Sound(s)
    ensures Sound(Next(range, s, step))
  {
    hide QueueGood, AdvanceStep, CheckStep, EnterStep, Sound;
    match step
    case Check(k) =>
      CheckSound(s, k);
      SameStore(CheckStep(s, k), Next(range, s, step));
    case Enter(t, k) =>
      EnterSound(range, s, t, k);
      SameStore(EnterStep(range, s, t, k), Next(range, s, step));
    case Advance =>
      AdvanceSound(s);
      SameStore(AdvanceStep(s), Next(range, s, step));
    case Receive(m, v) =>
      ReceiveSound(s, m, v);
      SameStore(s.(pending := s.pending + [Pending(m, v, [], [])]), Next(range, s, step));
    case _ =>
      SameStore(s, Next(range, s, step));
  }

  lemma InitialSound(view: View)
    ensures Sound(Initial(view))
  {
    var s := Initial(view);
    forall t: int ensures QueueSound(s, t) {
      assert QueueOf(s, t) == EMPTY_QUEUE && Stored(s, t) == [];
      assert AcceptedOf(EMPTY_QUEUE) == [] && Left([]) == [];
    }
  }

  /** In every state of every run, whatever other threads do between any two reads: no message is
      lost or duplicated, stored messages are in order of arrival, messages are delivered in the
      order in which they were taken out, and every acceptance, test and discard was justified. */
  lemma {:induction false} RunSound(range: seq<int>, view: View, steps: seq<Step>)
    ensures Sound(Run(range, view, steps))
  {
    if steps == [] {
      InitialSound(view);
    } else {
      hide Sound, Next;
      RunSound(range, view, steps[..|steps| - 1]);
      NextSound(range, Run(range, view, steps[..|steps| - 1]), steps[|steps| - 1]);
    }
  }

  /** The messages of a type that the receiver has got. */
  function HandedOver(q: Queue): seq<Departure>
    requires |q.sent| <= |q.taken|
  {
    q.taken[..|q.sent|]
  }

  lemma LeftSplit(ds: seq<Departure>, n: nat)
    requires n <= |ds|
    ensures Left(ds) == Left(ds[..n]) + Left(ds[n..])
  {
  }

  lemma FourParts(a: seq<Envelope>, b: seq<Envelope>, c: seq<Envelope>, d: seq<Envelope>)
    ensures multiset(a + b + c + d) == multiset(a) + (multiset(b) + multiset(c) + multiset(d))
  {
  }

  /** Conservation, spelled out: of every type, what was accepted is what is waiting, stored, being
      delivered, handed over and discarded together, and nothing occurs twice in there. */
  lemma MessagesConserved(range: seq<int>, view: View, steps: seq<Step>, t: int)
    ensures var s := Run(range, view, steps);
            var q := QueueOf(s, t);
            && Stored(s, t) == Remaining(q.arrivals, Gone(q)) && |q.sent| <= |q.taken|
            && var delivery := Left(HandedOver(q)) + Left(Outgoing(s, t));
               var places := q.inflight + Stored(s, t) + delivery + Left(q.discarded);
               multiset(AcceptedOf(q)) == multiset(places) && DistinctIds(places)
  {
    RunSound(range, view, steps);
    var s := Run(range, view, steps);
    assert QueueSound(s, t);
    var q := QueueOf(s, t);
    LeftSplit(q.taken, |q.sent|);
    var a, b, c, d := q.inflight, Stored(s, t), Left(q.taken), Left(q.discarded);
    assert multiset(a + b + c + d) == multiset(a) + (multiset(b) + multiset(c) + multiset(d)) by {
      FourParts(a, b, c, d);
    }
    PartDistinct(AcceptedOf(q), a + b + c + d);
  }

  // ---------------------------------------------------------------------------------------------
  // In which round a message is delivered
  // ---------------------------------------------------------------------------------------------

  /** The stamp is what the run shows at its time. */
  ghost predicate TrueStamp(range: seq<int>, view: View, steps: seq<Step>, at: Stamp) {
    at.time < |steps| && Run(range, view, steps[..at.time]).view == at.view
  }

  /** Test, second test and delivery followed each other, and saw what the run shows. */
  ghost predicate TrueHistory(range: seq<int>, view: View, steps: seq<Step>, q: Queue) {
    && |q.sent| <= |q.taken|
    && (forall d | d in q.taken ::
          && d.TakenOut? && d.tested.time < d.proceeded.time
          && TrueStamp(range, view, steps, d.tested) && TrueStamp(range, view, steps, d.proceeded))
    && (forall i: nat | i < |q.sent| ::
          TrueStamp(range, view, steps, q.sent[i]) && q.taken[i].proceeded.time < q.sent[i].time)
  }

  /** Checks followed each other, and saw what the run shows. */
  ghost predicate TrueReads(range: seq<int>, view: View, steps: seq<Step>, views: seq<View>, times: seq<nat>) {
    && |views| == |times|
    && (forall j: nat | j < |views| :: TrueStamp(range, view, steps, Stamp(times[j], views[j])))
    && (forall i, j | 0 <= i < j < |times| :: times[i] < times[j])
  }

  ghost predicate TrueChecks(range: seq<int>, view: View, steps: seq<Step>, q: Queue) {
    && (forall a | a in q.accepted :: TrueReads(range, view, steps, a.views, a.times))
    && (forall d | d in q.discarded :: d.Discarded? ==> TrueStamp(range, view, steps, d.at))
  }

  ghost predicate TrueRun(range: seq<int>, view: View, steps: seq<Step>) {
    var s := Run(range, view, steps);
    && s.time == |steps|
    && (s.holder.Proceeding? ==> TrueStamp(range, view, steps, s.holder.tested))
    && (forall p | p in s.pending :: TrueReads(range, view, steps, p.views, p.times))
    && (forall t: int :: TrueHistory(range, view, steps, QueueOf(s, t)))
    && (forall t: int :: TrueChecks(range, view, steps, QueueOf(s, t)))
  }

  lemma StampLasts(range: seq<int>, view: View, steps: seq<Step>, step: Step, at: Stamp)
    requires TrueStamp(range, view, steps, at)
    ensures TrueStamp(range, view, steps + [step], at)
  {
    assert (steps + [step])[..at.time] == steps[..at.time];
  }

  lemma StampNow(range: seq<int>, view: View, steps: seq<Step>, step: Step)
    requires Run(range, view, steps).time == |steps|
    ensures TrueStamp(range, view, steps + [step], Now(Run(range, view, steps)))
  {
    assert (steps + [step])[..|steps|] == steps;
  }

  lemma HistoryLasts(range: seq<int>, view: View, steps: seq<Step>, step: Step, q: Queue)
    requires TrueHistory(range, view, steps, q)
    ensures TrueHistory(range, view, steps + [step], q)
  {
    hide TrueStamp;
    forall d | d in q.taken
      ensures TrueStamp(range, view, steps + [step], d.tested) && TrueStamp(range, view, steps + [step], d.proceeded)
    {
      StampLasts(range, view, steps, step, d.tested);
      StampLasts(range, view, steps, step, d.proceeded);
    }
    forall i: nat | i < |q.sent| ensures TrueStamp(range, view, steps + [step], q.sent[i]) {
      StampLasts(range, view, steps, step, q.sent[i]);
    }
  }

  /** How one step extends the history of a type. */
  ghost predicate Extends(s: State, q: Queue, q': Queue) {
    || (q'.taken == q.taken && q'.sent == q.sent)
    || (s.holder.Proceeding? && q'.sent == q.sent
        && exists e :: q'.taken == q.taken + [TakenOut(e, s.holder.tested, Now(s))])
    || (q'.taken == q.taken && q'.sent == q.sent + [Now(s)] && |q.sent| < |q.taken|)
  }

  lemma AdvanceExtends(s: State, t: int)
    requires QueueSound(s, t) && HolderSound(s)
    ensures Extends(s, QueueOf(s, t), QueueOf(AdvanceStep(s), t))
  {
    hide QueueGood, Live, Filled, OfRound, MayProceed, Outdated;
    var q, q' := QueueOf(s, t), QueueOf(AdvanceStep(s), t);
    if s.holder.Proceeding? && q'.taken != q.taken {
      var e := q.slots[s.holder.pos].value;
      assert q'.taken == q.taken + [TakenOut(e, s.holder.tested, Now(s))];
    } else if s.holder.Delivering? && q'.sent != q.sent {
      assert Outgoing(s, t) == [s.holder.out];
    }
  }

  lemma NextExtends(range: seq<int>, s: State, step: Step, t: int)
    requires Sound(s)
    ensures Extends(s, QueueOf(s, t), QueueOf(Next(range, s, step), t))
  {
    hide QueueGood, AdvanceStep, PassesAt, Complete;
    assert QueueSound(s, t);
    if step.Advance? {
      AdvanceExtends(s, t);
    }
  }

  lemma NextTested(range: seq<int>, s: State, step: Step)
    ensures var h := Next(range, s, step).holder;
            h.Proceeding? ==> h.tested == Now(s) || (s.holder.Proceeding? && h.tested == s.holder.tested)
  {
    hide Live, Filled, OfRound, MayProceed, Outdated, PassesAt, Complete;
  }

  lemma HistoryTake(range: seq<int>, view: View, steps: seq<Step>, q: Queue, q': Queue, d: Departure)
    requires TrueHistory(range, view, steps, q) && q'.taken == q.taken + [d] && q'.sent == q.sent
    requires d.TakenOut? && d.tested.time < d.proceeded.time
    requires TrueStamp(range, view, steps, d.tested) && TrueStamp(range, view, steps, d.proceeded)
    ensures TrueHistory(range, view, steps, q')
  {
    hide TrueStamp;
  }

  lemma HistorySend(range: seq<int>, view: View, steps: seq<Step>, q: Queue, q': Queue, at: Stamp)
    requires TrueHistory(range, view, steps, q) && q'.taken == q.taken && q'.sent == q.sent + [at]
    requires |q.sent| < |q.taken| && TrueStamp(range, view, steps, at)
    requires forall d | d in q.taken :: d.TakenOut? ==> d.proceeded.time < at.time
    ensures TrueHistory(range, view, steps, q')
  {
    hide TrueStamp;
  }

  lemma HistoryExtended(range: seq<int>, view: View, steps: seq<Step>, step: Step, q: Queue, q': Queue)
    requires TrueHistory(range, view, steps, q) && Extends(Run(range, view, steps), q, q')
    requires Run(range, view, steps).time == |steps|
    requires var h := Run(range, view, steps).holder; h.Proceeding? ==> TrueStamp(range, view, steps, h.tested)
    ensures TrueHistory(range, view, steps + [step], q')
  {
    hide Run;
    var s := Run(range, view, steps);
    HistoryLasts(range, view, steps, step, q);
    StampNow(range, view, steps, step);
    if q'.sent != q.sent {
      HistorySend(range, view, steps + [step], q, q', Now(s));
    } else if q'.taken != q.taken {
      StampLasts(range, view, steps, step, s.holder.tested);
      HistoryTake(range, view, steps + [step], q, q', q'.taken[|q.taken|]);
    }
  }

  lemma ReadsLast(range: seq<int>, view: View, steps: seq<Step>, step: Step, views: seq<View>, times: seq<nat>)
    requires TrueReads(range, view, steps, views, times)
    ensures TrueReads(range, view, steps + [step], views, times)
  {
    hide TrueStamp;
    forall j: nat | j < |views| ensures TrueStamp(range, view, steps + [step], Stamp(times[j], views[j])) {
      StampLasts(range, view, steps, step, Stamp(times[j], views[j]));
    }
  }

  /** One more read, now. */
  lemma ReadsGrow(range: seq<int>, view: View, steps: seq<Step>, step: Step, views: seq<View>, times: seq<nat>)
    requires TrueReads(range, view, steps, views, times) && Run(range, view, steps).time == |steps|
    ensures var s := Run(range, view, steps);
            TrueReads(range, view, steps + [step], views + [s.view], times + [s.time])
  {
    StampNow(range, view, steps, step);
    assert forall j: nat | j < |times| :: TrueStamp(range, view, steps, Stamp(times[j], views[j]));
    hide Run;
    ReadsLast(range, view, steps, step, views, times);
    var s := Run(range, view, steps);
    hide TrueStamp;
    var views', times' := views + [s.view], times + [s.time];
    forall j: nat | j < |views'| ensures TrueStamp(range, view, steps + [step], Stamp(times'[j], views'[j])) {
      assert j < |views| ==> Stamp(times'[j], views'[j]) == Stamp(times[j], views[j]);
    }
  }

  /** These are the reads of a pending message with one more added, now. */
  ghost predicate OneMoreRead(s: State, views: seq<View>, times: seq<nat>) {
    exists p :: p in s.pending && views == p.views + [s.view] && times == p.times + [s.time]
  }

  lemma NextPending(range: seq<int>, s: State, step: Step, p: Pending)
    requires p in Next(range, s, step).pending
    ensures p in s.pending || (p.views == [] && p.times == []) || OneMoreRead(s, p.views, p.times)
  {
    hide Live, Filled, OfRound, MayProceed, Outdated, PassesAt, Complete, AcceptQueue;
    if step.Check? && step.k < |s.pending| && p !in s.pending {
      var was := s.pending[step.k];
      assert was in s.pending && p.views == was.views + [s.view] && p.times == was.times + [s.time];
    }
  }

  lemma AdvanceAccepted(s: State, t: int)
    ensures QueueOf(AdvanceStep(s), t).accepted == QueueOf(s, t).accepted
  {
    hide Live, Filled, OfRound, MayProceed, Outdated;
  }

  lemma NextAccepted(range: seq<int>, s: State, step: Step, t: int, a: Acceptance)
    requires a in QueueOf(Next(range, s, step), t).accepted
    ensures a in QueueOf(s, t).accepted || OneMoreRead(s, a.views, a.times)
  {
    AdvanceAccepted(s, t);
    hide AdvanceStep, PassesAt, Complete;
    if step.Check? && step.k < |s.pending| && a !in QueueOf(s, t).accepted {
      var was := s.pending[step.k];
      assert was in s.pending && a.views == was.views + [s.view] && a.times == was.times + [s.time];
    }
  }

  lemma NextDiscarded(range: seq<int>, s: State, step: Step, t: int, d: Departure)
    requires d in QueueOf(Next(range, s, step), t).discarded
    ensures d in QueueOf(s, t).discarded || (d.Discarded? && d.at == Now(s))
  {
    hide Live, Filled, OfRound, MayProceed, Outdated, PassesAt, Complete;
  }

  lemma ReadsTrue(range: seq<int>, view: View, steps: seq<Step>, step: Step, views: seq<View>, times: seq<nat>)
    requires TrueRun(range, view, steps) && OneMoreRead(Run(range, view, steps), views, times)
    ensures TrueReads(range, view, steps + [step], views, times)
  {
    hide Run, TrueReads;
    var s := Run(range, view, steps);
    var p :| p in s.pending && views == p.views + [s.view] && times == p.times + [s.time];
    ReadsGrow(range, view, steps, step, p.views, p.times);
  }

  lemma PendingTrue(range: seq<int>, view: View, steps: seq<Step>, step: Step, p: Pending)
    requires TrueRun(range, view, steps) && p in Next(range, Run(range, view, steps), step).pending
    ensures TrueReads(range, view, steps + [step], p.views, p.times)
  {
    var s := Run(range, view, steps);
    NextPending(range, s, step, p);
    if p in s.pending {
      hide Run, TrueReads, Next;
      ReadsLast(range, view, steps, step, p.views, p.times);
    } else if p.views != [] || p.times != [] {
      hide Run, TrueReads, Next;
      ReadsTrue(range, view, steps, step, p.views, p.times);
    }
  }

  lemma ChecksTrue(range: seq<int>, view: View, steps: seq<Step>, step: Step, t: int)
    requires TrueRun(range, view, steps)
    ensures TrueChecks(range, view, steps + [step], QueueOf(Next(range, Run(range, view, steps), step), t))
  {
    var s := Run(range, view, steps);
    assert TrueChecks(range, view, steps, QueueOf(s, t)) && s.time == |steps|;
    hide Run, TrueReads, TrueStamp, Next, TrueRun;
    var q, q' := QueueOf(s, t), QueueOf(Next(range, s, step), t);
    forall a | a in q'.accepted ensures TrueReads(range, view, steps + [step], a.views, a.times) {
      NextAccepted(range, s, step, t, a);
      if a in q.accepted {
        ReadsLast(range, view, steps, step, a.views, a.times);
      } else {
        ReadsTrue(range, view, steps, step, a.views, a.times);
      }
    }
    forall d | d in q'.discarded && d.Discarded? ensures TrueStamp(range, view, steps + [step], d.at) {
      NextDiscarded(range, s, step, t, d);
      if d in q.discarded {
        StampLasts(range, view, steps, step, d.at);
      } else {
        StampNow(range, view, steps, step);
      }
    }
  }

  lemma {:induction false} RunTrue(range: seq<int>, view: View, steps: seq<Step>)
    ensures TrueRun(range, view, steps)
  {
    if steps != [] {
      var n := |steps| - 1;
      var before, step := steps[..n], steps[n];
      var s := Run(range, view, before);
      RunTrue(range, view, before);
      RunSound(range, view, before);
      assert steps == before + [step];
      hide Sound, TrueHistory, TrueStamp, Effect;
      NextTested(range, s, step);
      StampNow(range, view, before, step);
      if s.holder.Proceeding? {
        StampLasts(range, view, before, step, s.holder.tested);
      }
      assert Run(range, view, steps) == Next(range, s, step);
      forall p | p in Next(range, s, step).pending ensures TrueReads(range, view, steps, p.views, p.times) {
        PendingTrue(range, view, before, step, p);
      }
      forall t: int ensures TrueChecks(range, view, steps, QueueOf(Run(range, view, steps), t)) {
        ChecksTrue(range, view, before, step, t);
      }
      hide Run, TrueReads, TrueChecks;
      forall t: int ensures TrueHistory(range, view, steps, QueueOf(Run(range, view, steps), t)) {
        assert TrueHistory(range, view, before, QueueOf(s, t));
        NextExtends(range, s, step, t);
        HistoryExtended(range, view, before, step, QueueOf(s, t), QueueOf(Next(range, s, step), t));
      }
    }
  }

  /** What the run shows at a step. */
  function At(range: seq<int>, view: View, steps: seq<Step>, time: nat): View
    requires time <= |steps|
  {
    Run(range, view, steps[..time]).view
  }

  /** Every accepted message passed its checks on what the run showed, at steps that follow each other:
      its sender was eligible then, its round was not past, it was not this node's own, and its round was
      not a cancelled one. */
  lemma AcceptedThen(range: seq<int>, view: View, steps: seq<Step>, t: int, a: Acceptance)
    requires a in QueueOf(Run(range, view, steps), t).accepted
    ensures |a.times| >= 4 && forall j: nat | j < |a.times| :: a.times[j] < |steps|
    ensures forall i, j | 0 <= i < j < |a.times| :: a.times[i] < a.times[j]
    ensures a.verdicts.signatureOk && (a.verdicts.withBlockHeader ==> a.verdicts.headerOk && a.verdicts.forkDetectorOk)
    ensures a.e.msg.msgType == t
    ensures a.e.msg.pubKey in At(range, view, steps, a.times[0]).eligible
    ensures At(range, view, steps, a.times[1]).roundIndex <= a.e.msg.roundIndex
    ensures a.e.msg.pubKey != At(range, view, steps, a.times[2]).selfPubKey
    ensures At(range, view, steps, a.times[3]).roundCanceled ==>
              |a.times| == 5 && At(range, view, steps, a.times[4]).roundIndex != a.e.msg.roundIndex
  {
    RunTrue(range, view, steps);
    RunSound(range, view, steps);
    var q := QueueOf(Run(range, view, steps), t);
    assert TrueChecks(range, view, steps, q) && QueueSound(Run(range, view, steps), t);
    hide Run, TrueHistory, Conserved, Stored, TrueRun, Sound;
    assert TrueReads(range, view, steps, a.views, a.times);
    forall j: nat | j < |a.times| ensures a.times[j] < |steps| && At(range, view, steps, a.times[j]) == a.views[j] {
      assert TrueStamp(range, view, steps, Stamp(a.times[j], a.views[j]));
    }
  }

  /** Every discarded message was older than the rounder's index at the step that discarded it. */
  lemma DiscardedThen(range: seq<int>, view: View, steps: seq<Step>, t: int, d: Departure)
    requires d in QueueOf(Run(range, view, steps), t).discarded
    ensures d.Discarded? && d.at.time < |steps|
    ensures At(range, view, steps, d.at.time).rounderIndex > d.e.msg.roundIndex
  {
    RunTrue(range, view, steps);
    RunSound(range, view, steps);
    var q := QueueOf(Run(range, view, steps), t);
    assert TrueChecks(range, view, steps, q) && QueueSound(Run(range, view, steps), t);
    hide Run, TrueHistory, Conserved, Stored, TrueRun, Sound;
    assert TrueStamp(range, view, steps, d.at);
  }

  /** Every message taken out was accepted before, see `AcceptedThen`; and it was of the consensus round
      at the step that tested it, and its subround could proceed at a later step. */
  lemma TakenOutProvenance(range: seq<int>, view: View, steps: seq<Step>, t: int, d: Departure)
    requires d in QueueOf(Run(range, view, steps), t).taken
    ensures Tested(d) && d.e.msg.msgType == t && d.tested.time < d.proceeded.time < |steps|
    ensures At(range, view, steps, d.tested.time).roundIndex == d.e.msg.roundIndex
    ensures t in At(range, view, steps, d.proceeded.time).proceed
    ensures exists a :: a in QueueOf(Run(range, view, steps), t).accepted && a.e == d.e && a.verdicts.signatureOk
                        && (a.verdicts.withBlockHeader ==> a.verdicts.headerOk && a.verdicts.forkDetectorOk)
  {
    RunSound(range, view, steps);
    RunTrue(range, view, steps);
    var s := Run(range, view, steps);
    var q := QueueOf(s, t);
    assert QueueSound(s, t) && TrueHistory(range, view, steps, q);
    hide Run, TrueRun, Sound, Stored, TrueChecks;
    var k :| 0 <= k < |q.taken| && q.taken[k] == d;
    assert Left(q.taken)[k] == d.e;
    assert d.e in multiset(AcceptedOf(q));
    var i :| 0 <= i < |q.accepted| && AcceptedOf(q)[i] == d.e;
    assert q.accepted[i] in q.accepted;
    assert TrueStamp(range, view, steps, d.tested) && TrueStamp(range, view, steps, d.proceeded);
  }

  /** The consensus round does not go back. */
  ghost predicate RoundGoesOn(range: seq<int>, view: View, steps: seq<Step>) {
    forall k: nat | k < |steps| && steps[k].Change? ::
      Run(range, view, steps[..k]).view.roundIndex <= steps[k].view.roundIndex
  }

  /** Only `Change` changes what is seen. */
  lemma ViewAfter(range: seq<int>, view: View, steps: seq<Step>, k: nat)
    requires k < |steps|
    ensures Run(range, view, steps[..k + 1]).view
         == if steps[k].Change? then steps[k].view else Run(range, view, steps[..k]).view
  {
    assert steps[..k + 1][..k] == steps[..k];
    hide Live, Filled, OfRound, MayProceed, Outdated, PassesAt, Complete;
  }

  lemma {:induction false} RoundGrows(range: seq<int>, view: View, steps: seq<Step>, first: nat, last: nat)
    requires RoundGoesOn(range, view, steps) && first <= last <= |steps|
    ensures Run(range, view, steps[..first]).view.roundIndex <= Run(range, view, steps[..last]).view.roundIndex
    decreases last
  {
    hide Run;
    if first < last {
      RoundGrows(range, view, steps, first, last - 1);
      ViewAfter(range, view, steps, last - 1);
    }
  }

  /** No change of round between two steps. */
  ghost predicate RoundStays(steps: seq<Step>, first: nat, last: nat, round: int) {
    forall k: nat | first <= k < last && k < |steps| && steps[k].Change? :: steps[k].view.roundIndex == round
  }

  lemma {:induction false} RoundKept(range: seq<int>, view: View, steps: seq<Step>, first: nat, last: nat, round: int)
    requires first <= last <= |steps| && RoundStays(steps, first, last, round)
    requires Run(range, view, steps[..first]).view.roundIndex == round
    ensures Run(range, view, steps[..last]).view.roundIndex == round
    decreases last
  {
    hide Run;
    if first < last {
      RoundKept(range, view, steps, first, last - 1, round);
      ViewAfter(range, view, steps, last - 1);
    }
  }

  lemma RoundMoved(range: seq<int>, view: View, steps: seq<Step>, first: nat, k: nat, last: nat)
    requires RoundGoesOn(range, view, steps) && first <= k < last <= |steps| && steps[k].Change?
    ensures Run(range, view, steps[..first]).view.roundIndex <= steps[k].view.roundIndex
         <= Run(range, view, steps[..last]).view.roundIndex
  {
    hide Run;
    ViewAfter(range, view, steps, k);
    RoundGrows(range, view, steps, first, k + 1);
    RoundGrows(range, view, steps, k + 1, last);
  }

  lemma DeliveryRoundBetween(range: seq<int>, view: View, steps: seq<Step>, tested: Stamp, at: Stamp, round: int)
    requires RoundGoesOn(range, view, steps) && tested.time <= at.time && tested.view.roundIndex == round
    requires TrueStamp(range, view, steps, tested) && TrueStamp(range, view, steps, at)
    ensures round <= at.view.roundIndex
    ensures at.view.roundIndex == round <==> RoundStays(steps, tested.time, at.time, round)
  {
    RoundGrows(range, view, steps, tested.time, at.time);
    hide Run, RoundGoesOn;
    if RoundStays(steps, tested.time, at.time, round) {
      RoundKept(range, view, steps, tested.time, at.time, round);
    } else {
      var k: nat :| tested.time <= k < at.time && k < |steps| && steps[k].Change? && steps[k].view.roundIndex != round;
      RoundMoved(range, view, steps, tested.time, k, at.time);
    }
  }

  /** A message is never delivered before its round, and in its round exactly if the consensus round
      did not move on between the test and the delivery. */
  lemma DeliveryRound(range: seq<int>, view: View, steps: seq<Step>, t: int, i: nat)
    requires RoundGoesOn(range, view, steps)
    requires i < |QueueOf(Run(range, view, steps), t).sent|
    ensures var q := QueueOf(Run(range, view, steps), t);
            && |q.sent| <= |q.taken| && Tested(q.taken[i])
            && var d, at := q.taken[i], q.sent[i];
               && d.e.msg.roundIndex <= at.view.roundIndex
               && (at.view.roundIndex == d.e.msg.roundIndex <==>
                   RoundStays(steps, d.tested.time, at.time, d.e.msg.roundIndex))
  {
    RunTrue(range, view, steps);
    var q := QueueOf(Run(range, view, steps), t);
    assert TrueHistory(range, view, steps, q);
    TakenOutProvenance(range, view, steps, t, q.taken[i]);
    var d, at := q.taken[i], q.sent[i];
    DeliveryRoundBetween(range, view, steps, d.tested, at, d.e.msg.roundIndex);
  }

  lemma RunSnoc(range: seq<int>, view: View, steps: seq<Step>, step: Step)
    ensures Run(range, view, steps + [step]) == Next(range, Run(range, view, steps), step)
  {
    assert (steps + [step])[..|steps|] == steps;
  }

  lemma CheckPasses(s: State, m: Message, v: Verdicts, views: seq<View>, times: seq<nat>)
    requires s.pending == [Pending(m, v, views, times)]
    requires PassesAt(m, v, |views|, s.view) && !Complete(views + [s.view])
    ensures CheckStep(s, 0) == s.(pending := [Pending(m, v, views + [s.view], times + [s.time])])
  {
    hide PassesAt, Complete;
    var p := Pending(m, v, views + [s.view], times + [s.time]);
    assert s.pending[0 := p] == [p];
  }

  /** A view under which a message passes every check. */
  function Friendly(m: Message): View {
    View({m.pubKey}, m.pubKey + "'", m.roundIndex, false, m.roundIndex, {m.msgType})
  }

  const IN_ORDER := Verdicts(true, false, true, true)

  lemma LastCheck(s: State, m: Message, views: seq<View>, times: seq<nat>)
    requires s.pending == [Pending(m, IN_ORDER, views, times)] && |views| == 3
    requires s.view == Friendly(m) && s.queues == map[]
    ensures var s' := CheckStep(s, 0);
            && s' == s.(pending := [], nextId := s.nextId + 1, queues := s'.queues)
            && QueueOf(s', m.msgType) == AcceptQueue(EMPTY_QUEUE,
                 Acceptance(Envelope(s.nextId, m), views + [s.view], times + [s.time], IN_ORDER))
  {
    hide AcceptQueue;
  }

  lemma AdmitRun(m: Message) returns (steps: seq<Step>)
    ensures forall k: nat | k < |steps| :: !steps[k].Change?
    ensures var s := Run([m.msgType], Friendly(m), steps);
            && s.view == Friendly(m) && s.handler == None && s.holder == Free
            && QueueOf(s, m.msgType) == EMPTY_QUEUE.(accepted := QueueOf(s, m.msgType).accepted,
                                                     inflight := [Envelope(0, m)])
  {
    var range, w := [m.msgType], Friendly(m);
    assert m.pubKey != w.selfPubKey;
    var begin := [Receive(m, IN_ORDER)];
    RunSnoc(range, w, [], Receive(m, IN_ORDER));
    assert [] + begin == begin;
    var s1 := Run(range, w, begin);
    assert s1 == Initial(w).(time := 1, pending := [Pending(m, IN_ORDER, [], [])]);
    hide Run, CheckStep;
    CheckPasses(s1, m, IN_ORDER, [], []);
    RunSnoc(range, w, begin, Check(0));
    var s2 := Run(range, w, begin + [Check(0)]);
    CheckPasses(s2, m, IN_ORDER, [] + [w], [] + [1]);
    RunSnoc(range, w, begin + [Check(0)], Check(0));
    var s3 := Run(range, w, begin + [Check(0)] + [Check(0)]);
    CheckPasses(s3, m, IN_ORDER, [] + [w] + [w], [] + [1] + [2]);
    RunSnoc(range, w, begin + [Check(0)] + [Check(0)], Check(0));
    var s4 := Run(range, w, begin + [Check(0)] + [Check(0)] + [Check(0)]);
    LastCheck(s4, m, [] + [w] + [w] + [w], [] + [1] + [2] + [3]);
    RunSnoc(range, w, begin + [Check(0)] + [Check(0)] + [Check(0)], Check(0));
    steps := begin + [Check(0)] + [Check(0)] + [Check(0)] + [Check(0)];
    assert [] + [Envelope(0, m)] == [Envelope(0, m)];
  }

  /** The run up to the moment when a message has been taken out, and the receiver has not got it. */
  lemma TakeOutRun(m: Message) returns (steps: seq<Step>)
    ensures forall k: nat | k < |steps| :: !steps[k].Change?
    ensures var s := Run([m.msgType], Friendly(m), steps);
            && s.view == Friendly(m) && s.handler == None && s.holder.Delivering?
            && s.holder.rest == [m.msgType] && s.holder.out.e.msg == m
            && QueueOf(s, m.msgType).taken == [s.holder.out] && QueueOf(s, m.msgType).sent == []
  {
    var t, range, w, e := m.msgType, [m.msgType], Friendly(m), Envelope(0, m);
    var admitted := AdmitRun(m);
    hide Run, CheckStep;
    var s5 := Run(range, w, admitted);
    assert QueueOf(s5, t).inflight[0] == e;
    RunSnoc(range, w, admitted, Enter(t, 0));
    var s6 := Run(range, w, admitted + [Enter(t, 0)]);
    assert QueueOf(s6, t).slots == [Some(e)] && s6.holder == Executing(range, 0, s5.view.rounderIndex);
    RunSnoc(range, w, admitted + [Enter(t, 0)], Advance);
    var s7 := Run(range, w, admitted + [Enter(t, 0)] + [Advance]);
    assert s7.holder.Proceeding?;
    RunSnoc(range, w, admitted + [Enter(t, 0)] + [Advance], Advance);
    steps := admitted + [Enter(t, 0)] + [Advance] + [Advance];
  }

  /** Every message can be delivered in a later round, although its round was tested: the consensus
      round moves on while the delivery waits. */
  lemma LateDelivery(m: Message, later: int) returns (steps: seq<Step>)
    requires m.roundIndex < later
    ensures RoundGoesOn([m.msgType], Friendly(m), steps)
    ensures var q := QueueOf(Run([m.msgType], Friendly(m), steps), m.msgType);
            && |q.taken| == |q.sent| == 1
            && q.taken[0].e.msg == m && q.sent[0].view.roundIndex == later
  {
    var range, w := [m.msgType], Friendly(m);
    var before := TakeOutRun(m);
    var change := Change(w.(roundIndex := later));
    steps := before + [change] + [Advance];
    hide Run, CheckStep, EnterStep;
    RunSnoc(range, w, before, change);
    RunSnoc(range, w, before + [change], Advance);
    assert steps[..|before|] == before;
    forall k: nat | k < |steps| && steps[k].Change?
      ensures Run(range, w, steps[..k]).view.roundIndex <= steps[k].view.roundIndex
    {
      assert k == |before|;
    }
  }

  // ---------------------------------------------------------------------------------------------
  // The receiver gets one message at a time
  // ---------------------------------------------------------------------------------------------

  lemma RunLast(range: seq<int>, view: View, steps: seq<Step>, k: nat)
    requires 0 < k <= |steps|
    ensures Run(range, view, steps[..k]) == Next(range, Run(range, view, steps[..k - 1]), steps[k - 1])
  {
    hide Next;
    assert steps[..k][..k - 1] == steps[..k - 1];
  }

  /** Step `i` of a run delivers a message of type `t`. */
  ghost predicate DeliversAt(range: seq<int>, view: View, steps: seq<Step>, i: nat, t: int)
    requires i < |steps|
  {
    |QueueOf(Run(range, view, steps[..i]), t).sent| < |QueueOf(Run(range, view, steps[..i + 1]), t).sent|
  }

  lemma AdvanceReceives(s: State, t: int)
    requires InOrder(QueueOf(s, t), Outgoing(s, t)) && (s.holder.Delivering? ==> s.holder.rest != [])
    ensures var q, q', s' := QueueOf(s, t), QueueOf(AdvanceStep(s), t), AdvanceStep(s);
            && (|q.sent| < |q'.sent| ==>
                  && s.handler == None && |q'.sent| == |q.sent| + 1 && |q.sent| < |q.taken|
                  && s'.handler == Some(q.taken[|q.sent|].e))
            && (s.handler.Some? ==> s'.handler == s.handler)
  {
    hide Live, Filled, OfRound, MayProceed, Outdated;
    var q := QueueOf(s, t);
    if s.holder.Delivering? && s.holder.rest[0] == t {
      assert q.taken[|q.sent|] == q.taken[|q.sent|..][0] == s.holder.out;
    }
  }

  lemma OthersReceiveNothing(range: seq<int>, s: State, step: Step, t: int)
    requires !step.Advance?
    ensures QueueOf(Next(range, s, step), t).sent == QueueOf(s, t).sent
    ensures step != Handled ==> Next(range, s, step).handler == s.handler
  {
    hide AdvanceStep, PassesAt, Complete;
  }

  /** Only an idle receiver gets a message, the first one taken out that it has not got, and it stays busy
      with it until it is done. */
  lemma ReceiverStep(range: seq<int>, s: State, step: Step, t: int)
    requires Sound(s)
    ensures var q, q', s' := QueueOf(s, t), QueueOf(Next(range, s, step), t), Next(range, s, step);
            && |q.sent| <= |q.taken|
            && (|q.sent| < |q'.sent| ==>
                  && s.handler == None && |q'.sent| == |q.sent| + 1 && |q.sent| < |q.taken|
                  && s'.handler == Some(q.taken[|q.sent|].e))
            && (s.handler.Some? && step != Handled ==> s'.handler == s.handler)
  {
    assert QueueSound(s, t) && HolderSound(s);
    hide AdvanceStep, Sound, QueueGood, Outgoing;
    if step.Advance? {
      AdvanceReceives(s, t);
    } else {
      OthersReceiveNothing(range, s, step, t);
    }
  }

  /** A delivery finds the receiver idle and leaves it busy. */
  lemma DeliveryToIdle(range: seq<int>, view: View, steps: seq<Step>, i: nat, t: int)
    requires i < |steps| && DeliversAt(range, view, steps, i, t)
    ensures Run(range, view, steps[..i]).handler == None && Run(range, view, steps[..i + 1]).handler.Some?
  {
    hide Run, Next, Sound;
    RunSound(range, view, steps[..i]);
    RunLast(range, view, steps, i + 1);
    ReceiverStep(range, Run(range, view, steps[..i]), steps[i], t);
  }

  lemma {:induction false} StaysBusy(range: seq<int>, view: View, steps: seq<Step>, i: nat, j: nat)
    requires i <= j <= |steps| && Run(range, view, steps[..i]).handler.Some?
    requires forall k: nat | i <= k < j :: steps[k] != Handled
    ensures Run(range, view, steps[..j]).handler.Some?
    decreases j
  {
    hide Run, Next, Sound;
    if i < j {
      StaysBusy(range, view, steps, i, j - 1);
      RunSound(range, view, steps[..j - 1]);
      RunLast(range, view, steps, j);
      ReceiverStep(range, Run(range, view, steps[..j - 1]), steps[j - 1], 0);
    }
  }

  /** Between two deliveries, of whatever types, the receiver has finished with the first message. */
  lemma OneAtATime(range: seq<int>, view: View, steps: seq<Step>, i: nat, j: nat, t: int, u: int)
    requires i < j < |steps| && DeliversAt(range, view, steps, i, t) && DeliversAt(range, view, steps, j, u)
    ensures exists k: nat :: i < k < j && steps[k] == Handled
  {
    hide Run, DeliversAt;
    DeliveryToIdle(range, view, steps, i, t);
    DeliveryToIdle(range, view, steps, j, u);
    if forall k: nat | i + 1 <= k < j :: steps[k] != Handled {
      StaysBusy(range, view, steps, i + 1, j);
      assert false;
    }
  }

  // ---------------------------------------------------------------------------------------------
  // A finished pass leaves nothing outdated
  // ---------------------------------------------------------------------------------------------

  lemma {:induction false} RemainingPart(es: seq<Envelope>, gone: set<nat>)
    ensures forall e | e in Remaining(es, gone) :: e in es
  {
    if es != [] {
      RemainingPart(es[..|es| - 1], gone);
    }
  }

  lemma RemainingShrinks(es: seq<Envelope>, gone: set<nat>, more: set<nat>)
    requires gone <= more
    ensures forall e | e in Remaining(es, more) :: e in Remaining(es, gone)
  {
    hide Remaining;
    RemainingTwice(es, gone, more);
    assert gone + more == more;
    RemainingPart(Remaining(es, gone), more);
  }

  lemma {:induction false} IdsGrow(ds: seq<Departure>, more: seq<Departure>)
    requires ds <= more
    ensures Ids(Left(ds)) <= Ids(Left(more))
  {
    forall e | e in Left(ds) ensures e in Left(more) {
      var i :| 0 <= i < |ds| && Left(ds)[i] == e;
      assert Left(more)[i] == e;
    }
  }

  lemma AdvanceHistory(s: State, t: int)
    ensures var q, q' := QueueOf(s, t), QueueOf(AdvanceStep(s), t);
            q'.arrivals == q.arrivals && q.taken <= q'.taken && q.discarded <= q'.discarded
  {
    hide Live, Filled, OfRound, MayProceed, Outdated;
  }

  /** The holder of the lock adds nothing to the store. */
  lemma AdvanceShrinks(s: State, t: int)
    requires Sound(s)
    ensures forall e | e in Stored(AdvanceStep(s), t) :: e in Stored(s, t)
  {
    AdvanceSound(s);
    var s' := AdvanceStep(s);
    assert QueueSound(s, t) && QueueSound(s', t);
    AdvanceHistory(s, t);
    hide AdvanceStep, Stored, Justified, AcceptedOf, Remaining;
    var q, q' := QueueOf(s, t), QueueOf(s', t);
    IdsGrow(q.taken, q'.taken);
    IdsGrow(q.discarded, q'.discarded);
    RemainingShrinks(q.arrivals, Gone(q), Gone(q'));
  }

  ghost predicate Recent(es: seq<Envelope>, since: int) {
    forall e | e in es :: e.msg.roundIndex >= since
  }

  /** The types a pass has been through hold nothing older than the rounder's index at its start,
      nor do the messages it has kept of the present one. */
  ghost predicate PassClean(range: seq<int>, s: State) {
    s.holder != Free ==>
      && s.holder.since <= s.view.rounderIndex
      && |s.holder.rest| <= |range| && range[|range| - |s.holder.rest|..] == s.holder.rest
      && (s.holder.Cleaning? ==> Recent(s.holder.kept, s.holder.since))
      && forall i: nat | i < |range| - |s.holder.rest| :: Recent(Stored(s, range[i]), s.holder.since)
  }

  /** How far a pass is after one more step. */
  lemma AdvancePass(s: State)
    requires s.holder != Free && HolderSound(s)
    ensures var h, h' := s.holder, AdvanceStep(s).holder;
            && (h' == Free <==> h.rest == [])
            && (h' != Free ==>
                  && h'.since == h.since
                  && (h'.rest == h.rest || (h.rest != [] && h'.rest == h.rest[1..] && h'.Executing?)))
            && (h'.Cleaning? && Recent(if h.Cleaning? then h.kept else [], h.since) && h.since <= s.view.rounderIndex
                ==> Recent(h'.kept, h.since))
  {
    hide Live, Filled, OfRound, MayProceed;
  }

  /** A type the pass has just finished. */
  lemma FinishedType(s: State)
    requires s.holder != Free && s.holder.rest != [] && HolderSound(s)
    requires AdvanceStep(s).holder.rest == s.holder.rest[1..]
    requires s.holder.Cleaning? ==> Recent(s.holder.kept, s.holder.since)
    ensures Recent(Stored(AdvanceStep(s), s.holder.rest[0]), s.holder.since)
  {
    hide OfRound, MayProceed, Outdated;
    assert |s.holder.rest[1..]| < |s.holder.rest|;
    if s.holder.Cleaning? {
      LiveFilled(s.holder.kept);
    } else {
      assert QueueOf(s, s.holder.rest[0]).slots == [];
    }
  }

  lemma AdvanceView(s: State)
    ensures AdvanceStep(s).view == s.view
  {
    hide Live, Filled, OfRound, MayProceed, Outdated;
  }

  lemma AdvanceClean(range: seq<int>, s: State)
    requires Sound(s) && PassClean(range, s)
    ensures PassClean(range, AdvanceStep(s))
  {
    var s' := AdvanceStep(s);
    if s.holder != Free && s'.holder != Free {
      AdvancePass(s);
      var done, done' := |range| - |s.holder.rest|, |range| - |s'.holder.rest|;
      if s'.holder.rest != s.holder.rest {
        FinishedType(s);
        assert range[done] == s.holder.rest[0];
        assert range[done..][1..] == range[done'..];
      }
      AdvanceView(s);
      hide AdvanceStep, Sound, Stored, HolderSound;
      forall i: nat | i < done' ensures Recent(Stored(s', range[i]), s'.holder.since) {
        if i < done {
          AdvanceShrinks(s, range[i]);
        }
      }
    }
  }

  /** The rounder does not go back in this step. */
  predicate GoesOn(s: State, step: Step) {
    step.Change? ==> s.view.rounderIndex <= step.view.rounderIndex
  }

  lemma SameClean(range: seq<int>, s: State, s': State)
    requires PassClean(range, s) && s'.holder == s.holder && s.view.rounderIndex <= s'.view.rounderIndex
    requires forall t: int :: Stored(s', t) == Stored(s, t)
    ensures PassClean(range, s')
  {
    hide Stored, Recent;
  }

  lemma StoredBy(s: State, s': State)
    requires s'.holder == s.holder && forall t: int :: QueueOf(s', t).slots == QueueOf(s, t).slots
    ensures forall t: int :: Stored(s', t) == Stored(s, t)
  {
    hide Live, QueueOf;
  }

  /** Steps other than the holder's leave the stored lists alone while a pass is going on. */
  lemma NextQuiet(range: seq<int>, s: State, step: Step)
    requires s.holder != Free && !step.Advance?
    ensures var s' := Next(range, s, step);
            && s'.holder == s.holder && s'.view == (if step.Change? then step.view else s.view)
            && forall t: int :: QueueOf(s', t).slots == QueueOf(s, t).slots
  {
    hide PassesAt, Complete, AdvanceStep;
  }

  /** A pass begins with all its types ahead of it. */
  lemma NextFromFree(range: seq<int>, s: State, step: Step)
    requires s.holder == Free
    ensures var s' := Next(range, s, step);
            s'.holder == Free || (s'.holder == Executing(range, 0, s.view.rounderIndex) && s'.view == s.view)
  {
    hide PassesAt, Complete;
  }

  lemma NextClean(range: seq<int>, s: State, step: Step)
    requires Sound(s) && PassClean(range, s) && GoesOn(s, step)
    ensures PassClean(range, Next(range, s, step))
  {
    var s' := Next(range, s, step);
    if s.holder == Free {
      NextFromFree(range, s, step);
    } else if step.Advance? {
      AdvanceClean(range, s);
      var a := AdvanceStep(s);
      hide AdvanceStep, PassClean;
      StoredBy(a, s');
      SameClean(range, a, s');
    } else {
      NextQuiet(range, s, step);
      hide Effect, PassClean;
      StoredBy(s, s');
      SameClean(range, s, s');
    }
  }

  /** The rounder does not go back. */
  ghost predicate RounderGoesOn(range: seq<int>, view: View, steps: seq<Step>) {
    forall k: nat | k < |steps| :: GoesOn(Run(range, view, steps[..k]), steps[k])
  }

  lemma {:induction false} RunClean(range: seq<int>, view: View, steps: seq<Step>, n: nat)
    requires RounderGoesOn(range, view, steps) && n <= |steps|
    ensures PassClean(range, Run(range, view, steps[..n]))
  {
    if n > 0 {
      RunClean(range, view, steps, n - 1);
      RunSound(range, view, steps[..n - 1]);
      assert steps[..n][..n - 1] == steps[..n - 1];
      hide Sound, PassClean, Next;
      NextClean(range, Run(range, view, steps[..n - 1]), steps[n - 1]);
    }
  }

  /** From step `i` to step `j` somebody holds the lock. */
  ghost predicate IsPass(range: seq<int>, view: View, steps: seq<Step>, i: nat, j: nat) {
    && i + 1 < j <= |steps|
    && Run(range, view, steps[..i]).holder == Free && Run(range, view, steps[..j]).holder == Free
    && forall k: nat | i < k < j :: Run(range, view, steps[..k]).holder != Free
  }

  lemma CleanAtTheEnd(range: seq<int>, s: State, t: int, e: Envelope)
    requires PassClean(range, s) && s.holder != Free && s.holder.rest == []
    requires t in range && e in Stored(s, t)
    ensures e.msg.roundIndex >= s.holder.since
  {
    hide Stored;
    var k: nat :| k < |range| && range[k] == t;
    assert Recent(Stored(s, range[k]), s.holder.since);
  }

  lemma NextSince(range: seq<int>, s: State, step: Step)
    requires Sound(s) && s.holder != Free
    ensures var s' := Next(range, s, step);
            && (s'.holder != Free ==> s'.holder.since == s.holder.since)
            && (s'.holder == Free ==> s.holder.rest == [] && forall t: int :: Stored(s', t) == Stored(s, t))
  {
    if step.Advance? {
      AdvancePass(s);
      if s.holder.rest == [] {
        var free := AdvanceStep(s);
        assert free == s.(holder := Free);
        assert forall t: int :: QueueOf(free, t) == QueueOf(s, t);
      }
    } else {
      NextQuiet(range, s, step);
    }
  }

  lemma NextKeepsSince(range: seq<int>, s: State, step: Step)
    requires Sound(s) && s.holder != Free && Next(range, s, step).holder != Free
    ensures Next(range, s, step).holder.since == s.holder.since
  {
    hide Next, Sound, Stored;
    NextSince(range, s, step);
  }

  lemma {:induction false} PassSince(range: seq<int>, view: View, steps: seq<Step>, i: nat, j: nat, k: nat)
    requires IsPass(range, view, steps, i, j) && i < k < j
    ensures Run(range, view, steps[..k]).holder.since == Run(range, view, steps[..i]).view.rounderIndex
    decreases k
  {
    hide Run, Sound, Next, Stored;
    RunLast(range, view, steps, k);
    var s := Run(range, view, steps[..k - 1]);
    if k == i + 1 {
      assert s.holder == Free && Run(range, view, steps[..k]).holder != Free;
      hide IsPass;
      NextFromFree(range, s, steps[k - 1]);
    } else {
      assert s.holder != Free && Run(range, view, steps[..k]).holder != Free;
      hide IsPass;
      PassSince(range, view, steps, i, j, k - 1);
      RunSound(range, view, steps[..k - 1]);
      NextKeepsSince(range, s, steps[k - 1]);
    }
  }

  /** After a whole pass over the message types, no type of the range stores a message older than the
      rounder's index was when the pass began. */
  lemma PassLeavesNothingOld(range: seq<int>, view: View, steps: seq<Step>, i: nat, j: nat, t: int, e: Envelope)
    requires RounderGoesOn(range, view, steps) && IsPass(range, view, steps, i, j)
    requires t in range && e in Stored(Run(range, view, steps[..j]), t)
    ensures e.msg.roundIndex >= Run(range, view, steps[..i]).view.rounderIndex
  {
    hide Run, Sound, Next, Stored, RounderGoesOn, PassClean;
    RunLast(range, view, steps, j);
    var s := Run(range, view, steps[..j - 1]);
    assert s.holder != Free && Run(range, view, steps[..j]).holder == Free;
    PassSince(range, view, steps, i, j, j - 1);
    hide IsPass;
    RunSound(range, view, steps[..j - 1]);
    NextSince(range, s, steps[j - 1]);
    RunClean(range, view, steps, j - 1);
    CleanAtTheEnd(range, s, t, e);
  }

  // ---------------------------------------------------------------------------------------------
  // A finished pass has delivered what was due
  // ---------------------------------------------------------------------------------------------

  ghost predicate NoneOfRound(slots: Slots, n: nat, r: int)
    requires n <= |slots|
  {
    forall k | 0 <= k < n && slots[k].Some? :: slots[k].value.msg.roundIndex != r
  }

  ghost predicate NoneLeft(es: seq<Envelope>, r: int) {
    forall e | e in es :: e.msg.roundIndex != r
  }

  /** The pass is at type `t`: it has left no message of the round where it has been. */
  ghost predicate ServedSoFar(s: State, t: int, r: int) {
    var slots := QueueOf(s, t).slots;
    match s.holder
    case Free => true
    case Executing(_, pos, _) => NoneOfRound(slots, if pos <= |slots| then pos else |slots|, r)
    case Proceeding(_, pos, _, _) => pos <= |slots| && NoneOfRound(slots, pos, r)
    case Delivering(_, pos, _, _) => pos < |slots| && NoneOfRound(slots, pos + 1, r)
    case Cleaning(_, _, _, kept) => NoneOfRound(slots, |slots|, r) && NoneLeft(kept, r)
  }

  /** Once the pass has been through type `t`, that type stores no message of the round. */
  ghost predicate PassServes(range: seq<int>, s: State, t: int, r: int) {
    s.holder != Free ==>
      && |s.holder.rest| <= |range| && range[|range| - |s.holder.rest|..] == s.holder.rest
      && (t in range[..|range| - |s.holder.rest|] ==> NoneLeft(Stored(s, t), r))
      && (s.holder.rest != [] && s.holder.rest[0] == t ==> ServedSoFar(s, t, r))
  }

  lemma {:induction false} LiveHas(slots: Slots, pos: nat)
    requires pos < |slots| && slots[pos].Some?
    ensures slots[pos].value in Live(slots)
  {
    hide Live;
    LiveAround(slots, pos);
    LiveOne(slots[pos]);
    assert slots[pos].value in [slots[pos].value];
  }

  /** What a type stores was accepted for that type. */
  lemma StoredType(s: State, t: int, e: Envelope)
    requires QueueSound(s, t) && e in Stored(s, t)
    ensures e in QueueOf(s, t).arrivals && e.msg.msgType == t
  {
    hide Stored, Remaining, Acceptable, Tested;
    var q := QueueOf(s, t);
    assert e in multiset(Stored(s, t));
    assert e in multiset(q.arrivals);
    assert e in multiset(AcceptedOf(q));
    var i :| 0 <= i < |q.accepted| && AcceptedOf(q)[i] == e;
    assert q.accepted[i] in q.accepted;
  }

  lemma ServeExecuting(s: State, t: int, r: int)
    requires s.holder.Executing? && s.holder.rest != [] && s.holder.rest[0] == t && s.view.roundIndex == r
    requires ServedSoFar(s, t, r)
    ensures AdvanceStep(s).holder.rest == s.holder.rest ==> ServedSoFar(AdvanceStep(s), t, r)
  {
    hide Live, Filled;
    assert s.holder.rest[1..] != s.holder.rest;
  }

  lemma ServeProceeding(s: State, t: int, r: int)
    requires s.holder.Proceeding? && s.holder.rest != [] && s.holder.rest[0] == t
    requires HolderSound(s) && QueueSound(s, t) && t in s.view.proceed && ServedSoFar(s, t, r)
    ensures ServedSoFar(AdvanceStep(s), t, r)
  {
    var slots, pos := QueueOf(s, t).slots, s.holder.pos;
    LiveHas(slots, pos);
    StoredType(s, t, slots[pos].value);
    hide Live, Filled, QueueSound;
    assert AdvanceStep(s).holder.Delivering?;
  }

  lemma ServeDelivering(s: State, t: int, r: int)
    requires s.holder.Delivering? && s.holder.rest != [] && s.holder.rest[0] == t && ServedSoFar(s, t, r)
    ensures ServedSoFar(AdvanceStep(s), t, r)
  {
    hide Live, Filled;
  }

  lemma ServeCleaning(s: State, t: int, r: int)
    requires s.holder.Cleaning? && s.holder.rest != [] && s.holder.rest[0] == t && ServedSoFar(s, t, r)
    ensures AdvanceStep(s).holder.rest == s.holder.rest ==> ServedSoFar(AdvanceStep(s), t, r)
    ensures forall d | d in QueueOf(AdvanceStep(s), t).discarded ::
              d in QueueOf(s, t).discarded || d.e.msg.roundIndex != r
  {
    hide Live, Filled, Outdated;
    assert s.holder.rest[1..] != s.holder.rest;
  }

  lemma ServeOne(s: State, t: int, r: int)
    requires Sound(s) && s.holder != Free && s.holder.rest != [] && s.holder.rest[0] == t
    requires s.view.roundIndex == r && t in s.view.proceed && ServedSoFar(s, t, r)
    ensures AdvanceStep(s).holder.rest == s.holder.rest ==> ServedSoFar(AdvanceStep(s), t, r)
  {
    assert QueueSound(s, t);
    hide AdvanceStep, ServedSoFar, QueueSound;
    match s.holder
    case Executing(_, _, _) => ServeExecuting(s, t, r);
    case Proceeding(_, _, _, _) => ServeProceeding(s, t, r);
    case Delivering(_, _, _, _) => ServeDelivering(s, t, r);
    case Cleaning(_, _, _, _) => ServeCleaning(s, t, r);
  }

  /** The pass leaves a type behind. */
  lemma ServedType(s: State, t: int, r: int)
    requires s.holder != Free && s.holder.rest != [] && s.holder.rest[0] == t && HolderSound(s)
    requires ServedSoFar(s, t, r) && AdvanceStep(s).holder != Free && AdvanceStep(s).holder.rest == s.holder.rest[1..]
    ensures NoneLeft(Stored(AdvanceStep(s), t), r)
  {
    hide OfRound, MayProceed, Outdated;
    assert s.holder.rest[1..] != s.holder.rest;
    if s.holder.Cleaning? {
      LiveFilled(s.holder.kept);
    } else {
      assert QueueOf(s, t).slots == [];
    }
  }

  lemma AdvanceServes(range: seq<int>, s: State, t: int, r: int)
    requires Sound(s) && s.holder != Free && AdvanceStep(s).holder != Free
    requires PassServes(range, s, t, r) && s.view.roundIndex == r && t in s.view.proceed
    ensures PassServes(range, AdvanceStep(s), t, r)
  {
    var s' := AdvanceStep(s);
    AdvancePass(s);
    AdvanceShrinks(s, t);
    var rest, done := s.holder.rest, |range| - |s.holder.rest|;
    if s'.holder.rest == rest {
      hide AdvanceStep, Sound, Stored, ServedSoFar;
      if rest != [] && rest[0] == t {
        ServeOne(s, t, r);
      }
    } else {
      assert range[done..][1..] == range[done + 1..] && range[done] == rest[0];
      assert range[..done + 1] == range[..done] + [rest[0]];
      if rest[0] == t {
        ServedType(s, t, r);
      }
      hide AdvanceStep, Sound, Stored;
      assert s'.holder.Executing? && s'.holder.pos == 0;
    }
  }

  /** Nothing of the round is discarded on the way. */
  ghost predicate DiscardsOther(q: Queue, q': Queue, r: int) {
    forall d | d in q'.discarded :: d in q.discarded || d.e.msg.roundIndex != r
  }

  lemma AdvanceDiscards(range: seq<int>, s: State, t: int, r: int)
    requires s.holder != Free && PassServes(range, s, t, r)
    ensures DiscardsOther(QueueOf(s, t), QueueOf(AdvanceStep(s), t), r)
  {
    if s.holder.Cleaning? && s.holder.rest != [] && s.holder.rest[0] == t {
      ServeCleaning(s, t, r);
    } else {
      hide Live, Filled, OfRound, MayProceed, Outdated, Stored, ServedSoFar;
      assert QueueOf(AdvanceStep(s), t).discarded == QueueOf(s, t).discarded;
    }
  }

  /** Steps of others leave the history of the store alone while a pass is going on. */
  lemma NextQuietHistory(range: seq<int>, s: State, step: Step, t: int)
    requires s.holder != Free && !step.Advance?
    ensures var q, q' := QueueOf(s, t), QueueOf(Next(range, s, step), t);
            q'.arrivals == q.arrivals && q'.discarded == q.discarded
  {
    hide PassesAt, Complete, AdvanceStep;
  }

  lemma ServesSame(range: seq<int>, s: State, s': State, t: int, r: int)
    requires PassServes(range, s, t, r) && s'.holder == s.holder && QueueOf(s', t).slots == QueueOf(s, t).slots
    requires Stored(s', t) == Stored(s, t)
    ensures PassServes(range, s', t, r)
  {
    hide Stored, NoneOfRound, NoneLeft, QueueOf;
  }

  lemma NextServes(range: seq<int>, s: State, step: Step, t: int, r: int)
    requires Sound(s) && s.holder != Free && PassServes(range, s, t, r)
    requires s.view.roundIndex == r && t in s.view.proceed
    ensures var s' := Next(range, s, step);
            && (s'.holder != Free ==> PassServes(range, s', t, r))
            && QueueOf(s', t).arrivals == QueueOf(s, t).arrivals
            && DiscardsOther(QueueOf(s, t), QueueOf(s', t), r)
  {
    var s' := Next(range, s, step);
    if step.Advance? {
      var a := AdvanceStep(s);
      AdvanceHistory(s, t);
      AdvanceDiscards(range, s, t, r);
      if a.holder != Free {
        AdvanceServes(range, s, t, r);
        hide AdvanceStep, PassServes, Sound;
        StoredBy(a, s');
        ServesSame(range, a, s', t, r);
      }
    } else {
      NextQuiet(range, s, step);
      NextQuietHistory(range, s, step, t);
      hide Effect, PassServes, Sound;
      StoredBy(s, s');
      ServesSame(range, s, s', t, r);
    }
  }

  /** During the pass the consensus round is `r` and subround `t` can proceed. */
  ghost predicate RoundHeld(range: seq<int>, view: View, steps: seq<Step>, i: nat, j: nat, t: int, r: int)
    requires j <= |steps|
  {
    forall k: nat | i < k < j :: At(range, view, steps, k).roundIndex == r && t in At(range, view, steps, k).proceed
  }

  lemma HeldAt(range: seq<int>, view: View, steps: seq<Step>, i: nat, j: nat, t: int, r: int, k: nat)
    requires i < k < j <= |steps| && RoundHeld(range, view, steps, i, j, t, r)
    ensures var v := Run(range, view, steps[..k]).view; v.roundIndex == r && t in v.proceed
  {
    hide Run;
    assert At(range, view, steps, k).roundIndex == r;
  }

  lemma BeginServes(range: seq<int>, s: State, t: int, r: int)
    requires s.holder.Executing? && s.holder.rest == range && s.holder.pos == 0
    ensures PassServes(range, s, t, r)
  {
    hide Stored;
    assert range[..0] == [];
  }

  /** What has become of type `t` at step `k` of the pass, compared with its first step. */
  ghost predicate ServedBetween(range: seq<int>, s: State, s': State, t: int, r: int) {
    && (s'.holder != Free ==> PassServes(range, s', t, r))
    && QueueOf(s', t).arrivals == QueueOf(s, t).arrivals
    && DiscardsOther(QueueOf(s, t), QueueOf(s', t), r)
  }

  lemma DiscardsNothing(q: Queue, r: int)
    ensures DiscardsOther(q, q, r)
  {
  }

  lemma DiscardsBoth(a: Queue, b: Queue, c: Queue, r: int)
    requires DiscardsOther(a, b, r) && DiscardsOther(b, c, r)
    ensures DiscardsOther(a, c, r)
  {
  }

  lemma ServedStep(range: seq<int>, s0: State, s: State, step: Step, t: int, r: int)
    requires Sound(s) && s.holder != Free && ServedBetween(range, s0, s, t, r)
    requires s.view.roundIndex == r && t in s.view.proceed
    ensures ServedBetween(range, s0, Next(range, s, step), t, r)
  {
    hide Sound, PassServes, Next, DiscardsOther;
    NextServes(range, s, step, t, r);
    DiscardsBoth(QueueOf(s0, t), QueueOf(s, t), QueueOf(Next(range, s, step), t), r);
  }

  lemma {:induction false} PassServed(range: seq<int>, view: View, steps: seq<Step>, i: nat, j: nat,
                                      t: int, r: int, k: nat)
    requires IsPass(range, view, steps, i, j) && RoundHeld(range, view, steps, i, j, t, r) && i < k <= j
    ensures ServedBetween(range, Run(range, view, steps[..i + 1]), Run(range, view, steps[..k]), t, r)
    decreases k
  {
    hide Run, Next, Sound, PassServes, DiscardsOther;
    RunLast(range, view, steps, k);
    var s := Run(range, view, steps[..k - 1]);
    if k == i + 1 {
      assert s.holder == Free && Run(range, view, steps[..k]).holder != Free;
      NextFromFree(range, s, steps[k - 1]);
      BeginServes(range, Run(range, view, steps[..k]), t, r);
      DiscardsNothing(QueueOf(Run(range, view, steps[..k]), t), r);
    } else {
      assert s.holder != Free;
      HeldAt(range, view, steps, i, j, t, r, k - 1);
      hide IsPass, RoundHeld, ServedBetween;
      PassServed(range, view, steps, i, j, t, r, k - 1);
      RunSound(range, view, steps[..k - 1]);
      ServedStep(range, Run(range, view, steps[..i + 1]), s, steps[k - 1], t, r);
    }
  }

  /** A stored message is not a discarded one. */
  lemma StoredNotDiscarded(s: State, t: int, e: Envelope)
    requires QueueSound(s, t) && e in Stored(s, t)
    ensures e !in Left(QueueOf(s, t).discarded)
  {
    hide Stored, Remaining, Acceptable, Tested;
    var q := QueueOf(s, t);
    PartDistinct(AcceptedOf(q), q.arrivals);
    CountOnce(q.arrivals, e);
    assert e in multiset(Stored(s, t));
  }

  /** An arrival that is neither stored nor discarded has been taken out. */
  lemma OnlyTakenOut(s: State, t: int, e: Envelope)
    requires QueueSound(s, t) && e in QueueOf(s, t).arrivals
    requires e !in Stored(s, t) && e !in Left(QueueOf(s, t).discarded)
    ensures e in Left(QueueOf(s, t).taken)
  {
    hide Stored, Remaining, Acceptable, Tested;
    var q := QueueOf(s, t);
    assert e in multiset(q.arrivals);
    assert e !in multiset(Stored(s, t)) && e !in multiset(Left(q.discarded));
    assert e in multiset(Left(q.taken));
  }

  lemma StillNotDiscarded(q: Queue, q': Queue, e: Envelope)
    requires DiscardsOther(q, q', e.msg.roundIndex) && e !in Left(q.discarded)
    ensures e !in Left(q'.discarded)
  {
    forall n | 0 <= n < |q'.discarded| ensures q'.discarded[n].e != e {
      var d := q'.discarded[n];
      assert d in q'.discarded;
      if d in q.discarded {
        var m :| 0 <= m < |q.discarded| && q.discarded[m] == d;
        assert Left(q.discarded)[m] == d.e;
      }
    }
  }

  lemma SoundType(range: seq<int>, view: View, steps: seq<Step>, k: nat, t: int)
    requires k <= |steps|
    ensures QueueSound(Run(range, view, steps[..k]), t)
  {
    hide Run, QueueSound;
    RunSound(range, view, steps[..k]);
  }

  lemma ServedAtTheEnd(range: seq<int>, s: State, t: int, r: int)
    requires PassServes(range, s, t, r) && s.holder != Free && s.holder.rest == [] && t in range
    ensures NoneLeft(Stored(s, t), r)
  {
    hide Stored;
    assert range[..|range|] == range;
  }

  lemma DueDelivered(s: State, s': State, t: int, e: Envelope)
    requires QueueSound(s, t) && QueueSound(s', t) && s'.holder == Free && e in Stored(s, t)
    requires NoneLeft(Stored(s', t), e.msg.roundIndex)
    requires QueueOf(s', t).arrivals == QueueOf(s, t).arrivals
    requires DiscardsOther(QueueOf(s, t), QueueOf(s', t), e.msg.roundIndex)
    ensures var q := QueueOf(s', t); |q.sent| <= |q.taken| && e in Left(HandedOver(q))
  {
    var q := QueueOf(s', t);
    assert q.taken[..|q.taken|] == q.taken && |q.sent| == |q.taken|;
    hide Stored, QueueSound, DiscardsOther, Left;
    StoredType(s, t, e);
    StoredNotDiscarded(s, t, e);
    StillNotDiscarded(QueueOf(s, t), q, e);
    OnlyTakenOut(s', t, e);
  }

  /** The receiver has got the message. */
  ghost predicate Delivered(s: State, t: int, e: Envelope) {
    var q := QueueOf(s, t);
    |q.sent| <= |q.taken| && e in Left(HandedOver(q))
  }

  /** At the end of a pass, what was due when it began has been delivered. */
  lemma PassEnds(range: seq<int>, s0: State, s: State, step: Step, t: int, e: Envelope)
    requires Sound(s) && s.holder != Free && Next(range, s, step).holder == Free && t in range
    requires ServedBetween(range, s0, s, t, e.msg.roundIndex) && QueueSound(s0, t) && e in Stored(s0, t)
    requires s.view.roundIndex == e.msg.roundIndex && t in s.view.proceed
    ensures Delivered(Next(range, s, step), t, e)
  {
    var r := e.msg.roundIndex;
    var s' := Next(range, s, step);
    hide Next, Stored, PassServes, DiscardsOther;
    NextSince(range, s, step);
    ServedStep(range, s0, s, step, t, r);
    NextSound(range, s, step);
    assert QueueSound(s', t);
    hide Sound, QueueSound;
    ServedAtTheEnd(range, s, t, r);
    DueDelivered(s0, s', t, e);
  }

  /** If the consensus round stays the same during a pass and the subround of a type can proceed, then
      every message of that round and type that was stored when the pass began has been handed over when
      it ends. */
  lemma PassDeliversDue(range: seq<int>, view: View, steps: seq<Step>, i: nat, j: nat, t: int, e: Envelope)
    requires IsPass(range, view, steps, i, j) && t in range
    requires RoundHeld(range, view, steps, i, j, t, e.msg.roundIndex)
    requires e in Stored(Run(range, view, steps[..i + 1]), t)
    ensures var q := QueueOf(Run(range, view, steps[..j]), t);
            |q.sent| <= |q.taken| && e in Left(HandedOver(q))
  {
    var r := e.msg.roundIndex;
    hide Run, Sound, Next, Stored, RoundHeld, QueueSound, ServedBetween;
    var s := Run(range, view, steps[..j - 1]);
    assert s.holder != Free && Run(range, view, steps[..j]).holder == Free;
    RunLast(range, view, steps, j);
    PassServed(range, view, steps, i, j, t, r, j - 1);
    HeldAt(range, view, steps, i, j, t, r, j - 1);
    hide IsPass;
    SoundType(range, view, steps, i + 1, t);
    RunSound(range, view, steps[..j - 1]);
    PassEnds(range, Run(range, view, steps[..i + 1]), s, steps[j - 1], t, e);
  }

  // ---------------------------------------------------------------------------------------------
  // A pass can always be finished
  // ---------------------------------------------------------------------------------------------

  /** Receiver and holder take turns. */
  function Drive(range: seq<int>, s: State, n: nat): State
    decreases n
  {
    if n == 0 then s else Drive(range, Next(range, Next(range, s, Handled), Advance), n - 1)
  }

  function Phase(h: Holder): nat {
    match h
    case Free => 0
    case Executing(_, _, _) => 4
    case Proceeding(_, _, _, _) => 3
    case Delivering(_, _, _, _) => 2
    case Cleaning(_, _, _, _) => 1
  }

  /** Positions of the present list still ahead. */
  function Ahead(s: State): nat {
    if s.holder == Free || s.holder.rest == [] then 0
    else
      var n := |QueueOf(s, s.holder.rest[0]).slots|;
      if s.holder.pos < n then n - s.holder.pos else 0
  }

  function TypesAhead(h: Holder): nat {
    if h == Free then 0 else |h.rest| + 1
  }

  predicate Cleans(h: Holder) {
    h.Cleaning?
  }

  /** One state is nearer to the end of the pass than another. */
  predicate Closer(a: State, b: State) {
    || TypesAhead(a.holder) < TypesAhead(b.holder)
    || (TypesAhead(a.holder) == TypesAhead(b.holder)
        && (|| (!Cleans(b.holder) && Cleans(a.holder))
            || (Cleans(b.holder) == Cleans(a.holder)
                && (Ahead(a) < Ahead(b) || (Ahead(a) == Ahead(b) && Phase(a.holder) < Phase(b.holder))))))
  }

  lemma DriveStep(range: seq<int>, s: State)
    requires s.holder != Free && HolderSound(s)
    ensures var s' := Next(range, Next(range, s, Handled), Advance);
            && HolderSound(s')
            && Closer(s', s)
  {
    hide Live, Filled, OfRound, MayProceed, Outdated;
  }

  /** Holder and receiver alone can finish a pass from wherever it is: the store's lock is never held
      for ever. */
  lemma {:induction false} PassCanFinish(range: seq<int>, s: State) returns (n: nat)
    requires HolderSound(s)
    ensures Drive(range, s, n).holder == Free
    decreases TypesAhead(s.holder), !Cleans(s.holder), Ahead(s), Phase(s.holder)
  {
    if s.holder == Free {
      n := 0;
    } else {
      DriveStep(range, s);
      hide Next, HolderSound;
      n := PassCanFinish(range, Next(range, Next(range, s, Handled), Advance));
      n := n + 1;
    }
  }

  // ---------------------------------------------------------------------------------------------
  // A message of the present round is delivered
  // ---------------------------------------------------------------------------------------------

  /** The view of holder and receiver taking turns. */
  lemma DriveView(range: seq<int>, s: State)
    ensures var s1 := Next(range, s, Handled);
            s1.view == s.view && s1.holder == s.holder && Next(range, s1, Advance).view == s.view
  {
    hide Live, Filled, OfRound, MayProceed, Outdated;
  }

  lemma DriveUnfold(range: seq<int>, s: State, n: nat)
    ensures Drive(range, s, n + 1) == Drive(range, Next(range, Next(range, s, Handled), Advance), n)
    ensures Drive(range, s, 0) == s
  {
  }

  /** One turn of receiver and holder during a pass. */
  lemma TurnServes(range: seq<int>, s0: State, s: State, t: int, r: int)
    requires Sound(s) && s.holder != Free && ServedBetween(range, s0, s, t, r)
    requires s.view.roundIndex == r && t in s.view.proceed
    ensures var s1 := Next(range, s, Handled);
            var s2 := Next(range, s1, Advance);
            && Sound(s1) && s1.holder != Free && s1.view == s.view && ServedBetween(range, s0, s1, t, r)
            && Sound(s2) && s2.view == s.view && ServedBetween(range, s0, s2, t, r)
  {
    DriveView(range, s);
    hide Next, Sound, ServedBetween;
    var s1 := Next(range, s, Handled);
    NextSound(range, s, Handled);
    NextSound(range, s1, Advance);
    ServedStep(range, s0, s, Handled, t, r);
    ServedStep(range, s0, s1, Advance, t, r);
  }

  /** From the middle of a pass, holder and receiver alone hand over what was due when it began. */
  lemma {:induction false} DriveDelivers(range: seq<int>, s0: State, s: State, last: nat, t: int, e: Envelope)
    returns (n: nat)
    requires Drive(range, s, last).holder == Free
    requires Sound(s) && s.holder != Free && t in range && ServedBetween(range, s0, s, t, e.msg.roundIndex)
    requires QueueSound(s0, t) && e in Stored(s0, t)
    requires s.view.roundIndex == e.msg.roundIndex && t in s.view.proceed
    ensures Drive(range, s, n).holder == Free && Delivered(Drive(range, s, n), t, e)
    decreases last
  {
    hide Next, Sound, ServedBetween, Stored, QueueSound, Drive, Delivered;
    DriveUnfold(range, s, 0);
    DriveUnfold(range, s, last - 1);
    TurnServes(range, s0, s, t, e.msg.roundIndex);
    var s1 := Next(range, s, Handled);
    var s2 := Next(range, s1, Advance);
    if s2.holder == Free {
      PassEnds(range, s0, s1, Advance, t, e);
      n := 0;
    } else {
      n := DriveDelivers(range, s0, s2, last - 1, t, e);
    }
    DriveUnfold(range, s2, n);
    DriveUnfold(range, s, n);
    n := n + 1;
  }

  /** Whoever gets the lock begins a pass, with what is stored and what just entered. */
  lemma PassBegins(range: seq<int>, s: State, step: Step, t: int, e: Envelope)
    requires s.holder == Free
    requires step == ExecuteStored || (step.Enter? && step.k < |QueueOf(s, step.msgType).inflight|)
    requires e in Stored(s, t)
             || (step.Enter? && step.msgType == t && e == QueueOf(s, t).inflight[step.k])
    ensures var s' := Next(range, s, step);
            && s'.view == s.view && s'.holder == Executing(range, 0, s.view.rounderIndex) && e in Stored(s', t)
  {
    var slots := QueueOf(s, t).slots;
    if step.Enter? && step.msgType == t {
      LiveAppend(slots, Some(QueueOf(s, t).inflight[step.k]));
    }
    hide Live;
  }

  /** Whoever gets the lock, with an accepted message or on a subround's request: if nobody changes the
      consensus state meanwhile, holder and receiver alone deliver every message of the present round whose
      subround can proceed, the one that has just entered included. */
  lemma DueIsDelivered(range: seq<int>, s: State, step: Step, t: int, e: Envelope) returns (n: nat)
    requires Sound(s) && s.holder == Free && t in range
    requires step == ExecuteStored || (step.Enter? && step.k < |QueueOf(s, step.msgType).inflight|)
    requires e in Stored(s, t)
             || (step.Enter? && step.msgType == t && e == QueueOf(s, t).inflight[step.k])
    requires s.view.roundIndex == e.msg.roundIndex && t in s.view.proceed
    ensures var s' := Drive(range, Next(range, s, step), n);
            && s'.holder == Free && |QueueOf(s', t).sent| <= |QueueOf(s', t).taken|
            && e in Left(HandedOver(QueueOf(s', t)))
  {
    var r := e.msg.roundIndex;
    var s0 := Next(range, s, step);
    PassBegins(range, s, step, t, e);
    hide Next, Stored, PassServes, DiscardsOther, Drive;
    NextSound(range, s, step);
    assert QueueSound(s0, t);
    BeginServes(range, s0, t, r);
    DiscardsNothing(QueueOf(s0, t), r);
    var last := PassCanFinish(range, s0);
    hide Sound, QueueSound;
    n := DriveDelivers(range, s0, s0, last, t, e);
  }

  // ---------------------------------------------------------------------------------------------
  // A good message is accepted
  // ---------------------------------------------------------------------------------------------

  /** The machine after `n` more checks of pending message `k`. */
  function CheckAgain(range: seq<int>, s: State, k: nat, n: nat): State {
    if n == 0 then s else Next(range, CheckAgain(range, s, k, n - 1), Check(k))
  }

  /** The last pending message, having read the same view a number of times. */
  ghost predicate HasRead(s: State, s0: State, m: Message, v: Verdicts, n: nat) {
    && s.view == s0.view && s.queues == s0.queues && s.nextId == s0.nextId && s.holder == s0.holder
    && |s.pending| == |s0.pending| + 1 && s.pending[..|s0.pending|] == s0.pending
    && var p := s.pending[|s0.pending|];
       p.msg == m && p.verdicts == v && p.views == seq(n, _ => s0.view) && |p.times| == n
  }

  lemma ReadsMore(range: seq<int>, s: State, s0: State, m: Message, v: Verdicts, n: nat)
    requires HasRead(s, s0, m, v, n) && PassesAt(m, v, n, s0.view) && !Complete(seq(n + 1, _ => s0.view))
    ensures HasRead(Next(range, s, Check(|s0.pending|)), s0, m, v, n + 1)
  {
    hide PassesAt;
    var p := s.pending[|s0.pending|];
    assert p.views + [s.view] == seq(n + 1, _ => s0.view);
  }

  lemma ReadsAndPasses(range: seq<int>, s: State, s0: State, m: Message, v: Verdicts, n: nat)
    requires HasRead(s, s0, m, v, n) && PassesAt(m, v, n, s0.view) && Complete(seq(n + 1, _ => s0.view))
    ensures var s', e := Next(range, s, Check(|s0.pending|)), Envelope(s0.nextId, m);
            && s'.view == s0.view && s'.holder == s0.holder && s'.pending == s0.pending
            && QueueOf(s', m.msgType).inflight == QueueOf(s0, m.msgType).inflight + [e]
  {
    hide PassesAt;
    var p := s.pending[|s0.pending|];
    assert p.views + [s.view] == seq(n + 1, _ => s0.view);
  }

  /** A received message that is in order is accepted, if nobody changes the consensus state meanwhile: an
      eligible sender other than this node, no past round, a good signature and header, and no cancelled
      round of its own. It then waits for the lock. */
  lemma GoodIsAccepted(range: seq<int>, s: State, m: Message, v: Verdicts) returns (n: nat)
    requires m.pubKey in s.view.eligible && s.view.roundIndex <= m.roundIndex && m.pubKey != s.view.selfPubKey
    requires v.signatureOk && (v.withBlockHeader ==> v.headerOk && v.forkDetectorOk)
    requires !(s.view.roundCanceled && s.view.roundIndex == m.roundIndex)
    ensures var s', e := CheckAgain(range, Next(range, s, Receive(m, v)), |s.pending|, n), Envelope(s.nextId, m);
            && s'.view == s.view && s'.holder == s.holder && s'.pending == s.pending
            && QueueOf(s', m.msgType).inflight == QueueOf(s, m.msgType).inflight + [e]
  {
    var k := |s.pending|;
    var s0 := Next(range, s, Receive(m, v));
    assert HasRead(s0, s, m, v, 0);
    var s1, s2, s3 := Next(range, s0, Check(k)), CheckAgain(range, s0, k, 2), CheckAgain(range, s0, k, 3);
    assert s1 == CheckAgain(range, s0, k, 1);
    assert PassesAt(m, v, 0, s.view) && PassesAt(m, v, 1, s.view) && PassesAt(m, v, 2, s.view);
    assert s.view.roundCanceled ==> PassesAt(m, v, 4, s.view);
    hide Next, HasRead, PassesAt;
    ReadsMore(range, s0, s, m, v, 0);
    ReadsMore(range, s1, s, m, v, 1);
    ReadsMore(range, s2, s, m, v, 2);
    if s.view.roundCanceled {
      ReadsMore(range, s3, s, m, v, 3);
      ReadsAndPasses(range, CheckAgain(range, s0, k, 4), s, m, v, 4);
      n := 5;
    } else {
      ReadsAndPasses(range, s3, s, m, v, 3);
      n := 4;
    }
  }

  // ---------------------------------------------------------------------------------------------
  // The methods and the steps
  // ---------------------------------------------------------------------------------------------

  /** The reads of a message that passes every check, when read `j` sees `views(j)`. */
  function Reads(views: nat -> View): (seen: seq<View>) {
    [views(0), views(1), views(2), views(3)] + (if views(3).roundCanceled then [views(4)] else [])
  }

  /** `data` is the decoded message, or why there is none; read `j` of the consensus state sees
      `views(j)`. `execute` tells whether the message is passed on for execution; a message that only
      this node's own state rules out is no error. */
  method ProcessReceivedMessage(data: Result<Message, ProcessError>, views: nat -> View, v: Verdicts)
    returns (err: Option<ProcessError>, execute: bool)
    ensures execute <==> data.Ok? && Acceptable(data.value, Reads(views), v)
    ensures data.Err? ==> err == Some(data.error)
    ensures data.Ok? ==>
              var m := data.value;
              var current := m.pubKey in views(0).eligible && views(1).roundIndex <= m.roundIndex;
              && (err == Some(ErrSenderNotOk) <==> m.pubKey !in views(0).eligible)
              && (err == Some(ErrMessageForPastRound) <==>
                  m.pubKey in views(0).eligible && m.roundIndex < views(1).roundIndex)
              && (err == Some(ErrInvalidSignature) <==> current && !v.signatureOk)
              && (err == Some(ErrInvalidHeader) <==> current && v.signatureOk && v.withBlockHeader && !v.headerOk)
              && (err == Some(ErrHeaderRefused) <==>
                  current && v.signatureOk && v.withBlockHeader && v.headerOk && !v.forkDetectorOk)
              && (err == None <==>
                  current && v.signatureOk && (v.withBlockHeader ==> v.headerOk && v.forkDetectorOk))
              && (execute <==> err == None && m.pubKey != views(2).selfPubKey
                               && !(views(3).roundCanceled && views(4).roundIndex == m.roundIndex))
  {
    if data.Err? {
      return Some(data.error), false;
    }
    var m := data.value;
    if m.pubKey !in views(0).eligible {
      return Some(ErrSenderNotOk), false;
    }
    if views(1).roundIndex > m.roundIndex {
      return Some(ErrMessageForPastRound), false;
    }
    if !v.signatureOk {
      return Some(ErrInvalidSignature), false;
    }
    if v.withBlockHeader {
      if !v.headerOk {
        return Some(ErrInvalidHeader), false;
      }
      if !v.forkDetectorOk {
        return Some(ErrHeaderRefused), false;
      }
    }
    if views(2).selfPubKey == m.pubKey {
      return None, false;
    }
    if views(3).roundCanceled && views(4).roundIndex == m.roundIndex {
      return None, false;
    }
    return None, true;
  }

  /** The machine after the first `n` reads of its last pending message. */
  function CheckedBy(s: State, k: nat, views: nat -> View, n: nat): State {
    if n == 0 then s else CheckStep(CheckedBy(s, k, views, n - 1).(view := views(n - 1)), k)
  }

  function Same(time: nat, n: nat): seq<nat> {
    seq(n, _ => time)
  }

  /** As long as its reads let it pass, a message stays pending with what it has read. */
  lemma {:induction false} StillPending(s: State, m: Message, v: Verdicts, views: nat -> View, n: nat)
    requires |s.pending| > 0 && s.pending[|s.pending| - 1] == Pending(m, v, [], [])
    requires n <= |Reads(views)| - 1 && forall j: nat | j < n :: PassesAt(m, v, j, views(j))
    ensures var c := CheckedBy(s, |s.pending| - 1, views, n);
            c == s.(view := c.view,
                    pending := s.pending[|s.pending| - 1 := Pending(m, v, Reads(views)[..n], Same(s.time, n))])
  {
    var k := |s.pending| - 1;
    if n == 0 {
      assert Same(s.time, 0) == [] && s.pending[k := Pending(m, v, [], [])] == s.pending;
    } else {
      StillPending(s, m, v, views, n - 1);
      assert Reads(views)[..n] == Reads(views)[..n - 1] + [views(n - 1)];
      assert Same(s.time, n) == Same(s.time, n - 1) + [s.time];
      hide PassesAt;
    }
  }

  lemma PassesIffAcceptable(m: Message, v: Verdicts, views: nat -> View)
    ensures Acceptable(m, Reads(views), v) <==> forall j: nat | j < |Reads(views)| :: PassesAt(m, v, j, views(j))
  {
    if forall j: nat | j < |Reads(views)| :: PassesAt(m, v, j, views(j)) {
      assert PassesAt(m, v, 0, views(0)) && PassesAt(m, v, 1, views(1)) && PassesAt(m, v, 2, views(2));
      assert views(3).roundCanceled ==> PassesAt(m, v, 4, views(4));
    }
  }

  lemma {:induction false} FirstRefusal(m: Message, v: Verdicts, views: nat -> View, n: nat) returns (j: nat)
    requires exists i: nat :: i < n && !PassesAt(m, v, i, views(i))
    ensures j < n && !PassesAt(m, v, j, views(j)) && forall i: nat | i < j :: PassesAt(m, v, i, views(i))
  {
    hide PassesAt;
    if exists i: nat :: i < n - 1 && !PassesAt(m, v, i, views(i)) {
      j := FirstRefusal(m, v, views, n - 1);
    } else {
      j := n - 1;
    }
  }

  lemma LastRead(s: State, k: nat, m: Message, v: Verdicts, views: nat -> View, n: nat)
    requires k < |s.pending| && 0 < n <= |Reads(views)| && s.view == views(n - 1)
    requires s.pending[k] == Pending(m, v, Reads(views)[..n - 1], Same(s.time, n - 1))
    requires PassesAt(m, v, n - 1, views(n - 1)) ==> n == |Reads(views)|
    ensures var c := CheckStep(s, k);
            && c.pending == s.pending[..k] + s.pending[k + 1..]
            && if PassesAt(m, v, n - 1, views(n - 1)) then
                 && c.nextId == s.nextId + 1
                 && QueueOf(c, m.msgType) == AcceptQueue(QueueOf(s, m.msgType),
                      Acceptance(Envelope(s.nextId, m), Reads(views), Same(s.time, n), v))
               else c.queues == s.queues && c.nextId == s.nextId
  {
    hide PassesAt, AcceptQueue;
    assert Reads(views)[..n] == Reads(views)[..n - 1] + [views(n - 1)];
    assert Same(s.time, n) == Same(s.time, n - 1) + [s.time];
    assert Reads(views)[..|Reads(views)|] == Reads(views);
  }

  /** `ProcessReceivedMessage` is what the machine does, one read per step: the message it passes on
      is accepted after its last read, and any other is dropped at the read that refuses it. */
  lemma ProcessIsMachine(s: State, m: Message, v: Verdicts, views: nat -> View) returns (n: nat)
    requires |s.pending| > 0 && s.pending[|s.pending| - 1] == Pending(m, v, [], [])
    ensures 0 < n <= |Reads(views)|
    ensures var c := CheckedBy(s, |s.pending| - 1, views, n);
            && c.pending == s.pending[..|s.pending| - 1]
            && if Acceptable(m, Reads(views), v) then
                 && n == |Reads(views)| && c.nextId == s.nextId + 1
                 && QueueOf(c, m.msgType) == AcceptQueue(QueueOf(s, m.msgType),
                      Acceptance(Envelope(s.nextId, m), Reads(views), Same(s.time, n), v))
               else c.queues == s.queues && c.nextId == s.nextId
  {
    hide Acceptable;
    var k := |s.pending| - 1;
    PassesIffAcceptable(m, v, views);
    if Acceptable(m, Reads(views), v) {
      n := |Reads(views)|;
    } else {
      var j := FirstRefusal(m, v, views, |Reads(views)|);
      n := j + 1;
    }
    StillPending(s, m, v, views, n - 1);
    var before := CheckedBy(s, k, views, n - 1).(view := views(n - 1));
    assert before.pending[..k] + before.pending[k + 1..] == s.pending[..k];
    LastRead(before, k, m, v, views, n);
  }

  /** The three views a message may meet on its way out: at the test of its round, at that of its
      subround, and at the delivery. */
  datatype Looks = Looks(tested: View, proceeded: View, sent: View)

  predicate GoesOut(e: Envelope, looks: Looks) {
    OfRound(e, looks.tested) && MayProceed(e, looks.proceeded)
  }

  /** The list after the first `n` positions have been looked at, position `i` under `looks(i)`. */
  function Executed(slots: Slots, looks: nat -> Looks, n: nat): (r: Slots)
    requires n <= |slots|
    ensures |r| == |slots|
  {
    seq(|slots|, i requires 0 <= i < |slots| =>
      if i < n && slots[i].Some? && GoesOut(slots[i].value, looks(i)) then None else slots[i])
  }

  /** The messages handed over meanwhile, in order. */
  function Sent(slots: Slots, looks: nat -> Looks, n: nat): seq<Envelope>
    requires n <= |slots|
  {
    if n == 0 then []
    else Sent(slots, looks, n - 1)
         + (if slots[n - 1].Some? && GoesOut(slots[n - 1].value, looks(n - 1)) then [slots[n - 1].value] else [])
  }

  /** The messages that are neither holes nor outdated, in order. */
  function Cleaned(slots: Slots, views: nat -> View, n: nat): seq<Envelope>
    requires n <= |slots|
  {
    if n == 0 then []
    else Cleaned(slots, views, n - 1)
         + (if slots[n - 1].Some? && !Outdated(slots[n - 1].value, views(n - 1)) then [slots[n - 1].value] else [])
  }

  /** The outdated messages, in order. */
  function Dropped(slots: Slots, views: nat -> View, n: nat): seq<Envelope>
    requires n <= |slots|
  {
    if n == 0 then []
    else Dropped(slots, views, n - 1)
         + (if slots[n - 1].Some? && Outdated(slots[n - 1].value, views(n - 1)) then [slots[n - 1].value] else [])
  }

  lemma ExecutedNone(slots: Slots, looks: nat -> Looks)
    ensures Executed(slots, looks, 0) == slots
  {
  }

  lemma ExecutedStep(slots: Slots, looks: nat -> Looks, n: nat)
    requires n < |slots|
    ensures Executed(slots, looks, n)[n] == slots[n]
    ensures Executed(slots, looks, n + 1)
         == if slots[n].Some? && GoesOut(slots[n].value, looks(n)) then Executed(slots, looks, n)[n := None]
            else Executed(slots, looks, n)
  {
  }

  /** `executeMessage`: hands over in place. */
  method ExecuteMessage(list: array<Option<Envelope>>, looks: nat -> Looks) returns (sent: seq<Envelope>)
    modifies list
    ensures list[..] == Executed(old(list[..]), looks, list.Length)
    ensures sent == Sent(old(list[..]), looks, list.Length)
  {
    sent := [];
    ghost var was := list[..];
    ExecutedNone(was, looks);
    for i := 0 to list.Length
      invariant list[..] == Executed(was, looks, i)
      invariant sent == Sent(was, looks, i)
    {
      ExecutedStep(was, looks, i);
      var cnsDta := list[i];
      assert cnsDta == list[..][i];
      hide Executed;
      if cnsDta.None? || looks(i).tested.roundIndex != cnsDta.value.msg.roundIndex {
        continue;
      }
      if cnsDta.value.msg.msgType !in looks(i).proceeded.proceed {
        continue;
      }
      ghost var before := list[..];
      list[i] := None;
      assert list[..] == before[i := None];
      sent := sent + [cnsDta.value];
    }
  }

  /** `getCleanedList`. */
  method GetCleanedList(list: array<Option<Envelope>>, views: nat -> View) returns (cleaned: seq<Envelope>)
    ensures cleaned == Cleaned(list[..], views, list.Length)
  {
    cleaned := [];
    for i := 0 to list.Length
      invariant cleaned == Cleaned(list[..], views, i)
    {
      if list[i].None? {
        continue;
      }
      if views(i).rounderIndex > list[i].value.msg.roundIndex {
        continue;
      }
      cleaned := cleaned + [list[i].value];
    }
  }

  /** The machine after dealing with one position: a test, and if it passes a second one, and if that
      passes too the delivery, once the receiver is free. */
  function LookAt(s: State, looks: Looks): State {
    var tested := AdvanceStep(s.(view := looks.tested));
    if !tested.holder.Proceeding? then tested
    else
      var proceeded := AdvanceStep(tested.(view := looks.proceeded));
      if !proceeded.holder.Delivering? then proceeded
      else AdvanceStep(proceeded.(view := looks.sent, handler := None))
  }

  function LookedAt(s: State, looks: nat -> Looks, n: nat): State {
    if n == 0 then s else LookAt(LookedAt(s, looks, n - 1), looks(n - 1))
  }

  lemma LookAtOne(m: State, rest: seq<int>, t: int, pos: nat, since: int, looks: Looks)
    requires m.holder == Executing(rest, pos, since) && rest != [] && rest[0] == t && pos < |QueueOf(m, t).slots|
    ensures var q, q' := QueueOf(m, t), QueueOf(LookAt(m, looks), t);
            var out := q.slots[pos].Some? && GoesOut(q.slots[pos].value, looks);
            && LookAt(m, looks).holder == Executing(rest, pos + 1, since)
            && q'.slots == (if out then q.slots[pos := None] else q.slots)
            && Left(q'.taken) == Left(q.taken) + (if out then [q.slots[pos].value] else [])
            && |q'.sent| == |q.sent| + (if out then 1 else 0)
  {
    hide Live, Filled, Left;
    var q := QueueOf(m, t);
    if q.slots[pos].Some? && GoesOut(q.slots[pos].value, looks) {
      LeftAppend(q.taken, TakenOut(q.slots[pos].value, Stamp(m.time, looks.tested), Stamp(m.time, looks.proceeded)));
    } else {
      assert Left(q.taken) + [] == Left(q.taken);
    }
  }

  /** The loop of `executeMessage` is what the machine does, position by position. */
  lemma {:induction false} ExecuteLoopIsMachine(s: State, looks: nat -> Looks, t: int, n: nat)
    requires s.holder.Executing? && s.holder.pos == 0 && s.holder.rest != [] && s.holder.rest[0] == t
    requires n <= |QueueOf(s, t).slots|
    ensures var m := LookedAt(s, looks, n);
            && m.holder == Executing(s.holder.rest, n, s.holder.since)
            && QueueOf(m, t).slots == Executed(QueueOf(s, t).slots, looks, n)
            && Left(QueueOf(m, t).taken) == Left(QueueOf(s, t).taken) + Sent(QueueOf(s, t).slots, looks, n)
            && |QueueOf(m, t).sent| - |QueueOf(s, t).sent| == |QueueOf(m, t).taken| - |QueueOf(s, t).taken|
  {
    hide LookAt, Executed, Left, GoesOut, QueueOf;
    var slots := QueueOf(s, t).slots;
    if n == 0 {
      ExecutedNone(slots, looks);
      assert Left(QueueOf(s, t).taken) + [] == Left(QueueOf(s, t).taken);
    } else {
      ExecuteLoopIsMachine(s, looks, t, n - 1);
      var m := LookedAt(s, looks, n - 1);
      ExecutedStep(slots, looks, n - 1);
      LookAtOne(m, s.holder.rest, t, n - 1, s.holder.since, looks(n - 1));
      var out := slots[n - 1].Some? && GoesOut(slots[n - 1].value, looks(n - 1));
      assert |Left(QueueOf(LookAt(m, looks(n - 1)), t).taken)| == |Left(QueueOf(m, t).taken)| + (if out then 1 else 0);
    }
  }

  /** The machine after looking at `n` more positions of the list it cleans. */
  function CleanedBy(s: State, views: nat -> View, n: nat): State {
    if n == 0 then s else AdvanceStep(CleanedBy(s, views, n - 1).(view := views(n - 1)))
  }

  lemma CleanAtOne(s: State, view: View, t: int)
    requires s.holder.Cleaning? && s.holder.rest != [] && s.holder.rest[0] == t
    requires s.holder.pos < |QueueOf(s, t).slots|
    ensures var h, q := s.holder, QueueOf(s, t);
            var m := AdvanceStep(s.(view := view));
            var slot := q.slots[h.pos];
            && m.holder == Cleaning(h.rest, h.pos + 1, h.since,
                 h.kept + (if slot.Some? && !Outdated(slot.value, view) then [slot.value] else []))
            && QueueOf(m, t).slots == q.slots
            && Left(QueueOf(m, t).discarded)
               == Left(q.discarded) + (if slot.Some? && Outdated(slot.value, view) then [slot.value] else [])
  {
    hide Live, Filled, Left, Outdated;
    var h, q := s.holder, QueueOf(s, t);
    var slot := q.slots[h.pos];
    assert h.kept + [] == h.kept && Left(q.discarded) + [] == Left(q.discarded);
    if slot.Some? {
      LeftAppend(q.discarded, Discarded(slot.value, Stamp(s.time, view)));
    }
  }

  /** The loop of `getCleanedList` is what the machine does, and discards what it leaves out. */
  lemma {:induction false} CleanLoopIsMachine(s: State, views: nat -> View, t: int, n: nat)
    requires s.holder.Cleaning? && s.holder.pos == 0 && s.holder.kept == []
    requires s.holder.rest != [] && s.holder.rest[0] == t
    requires n <= |QueueOf(s, t).slots|
    ensures var m := CleanedBy(s, views, n);
            && m.holder == Cleaning(s.holder.rest, n, s.holder.since, Cleaned(QueueOf(s, t).slots, views, n))
            && QueueOf(m, t).slots == QueueOf(s, t).slots
            && Left(QueueOf(m, t).discarded) == Left(QueueOf(s, t).discarded) + Dropped(QueueOf(s, t).slots, views, n)
  {
    hide AdvanceStep, Left, QueueOf, Outdated;
    if n == 0 {
      assert Left(QueueOf(s, t).discarded) + [] == Left(QueueOf(s, t).discarded);
    } else {
      CleanLoopIsMachine(s, views, t, n - 1);
      CleanAtOne(CleanedBy(s, views, n - 1), views(n - 1), t);
    }
  }
}
