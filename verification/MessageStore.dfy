/** The stored consensus messages of one type, and what happens to them (consensus/spos/worker.go). */
module MessageStores {
  import opened Wrappers

  datatype Message = Message(pubKey: string, msgType: int, roundIndex: int, payload: string)

  /** An accepted message; the number tells apart messages with the same content. */
  datatype Envelope = Envelope(id: nat, msg: Message)

  datatype ProcessError =
    | ErrNilMessage | ErrNilDataToProcess | ErrUnmarshal | ErrSenderNotOk | ErrMessageForPastRound
    | ErrInvalidSignature | ErrInvalidHeader | ErrHeaderRefused

  /** What a single read of the worker sees of the consensus state; other threads may change it
      between any two reads. `rounderIndex` is the rounder's, `roundIndex` the consensus state's. */
  datatype View = View(eligible: set<string>, selfPubKey: string, roundIndex: int, roundCanceled: bool,
                       rounderIndex: int, proceed: set<int>)

  /** Verdicts of code outside this model on one message. */
  datatype Verdicts = Verdicts(signatureOk: bool, withBlockHeader: bool, headerOk: bool, forkDetectorOk: bool)

  // ---------------------------------------------------------------------------------------------
  // Accepting a message
  // ---------------------------------------------------------------------------------------------

  /** The message itself is in order: signature, and header if it brings one. */
  predicate WellSigned(v: Verdicts) {
    v.signatureOk && (v.withBlockHeader ==> v.headerOk && v.forkDetectorOk)
  }

  /** The message comes from an eligible node other than this one, is in order, is not for a past
      round, and not for a current round that is cancelled. Each of these is a read of its own:
      sender, round, own key, cancellation, and, only if cancelled, the round again. */
  predicate Acceptable(m: Message, views: seq<View>, v: Verdicts) {
    && |views| >= 4
    && m.pubKey in views[0].eligible
    && views[1].roundIndex <= m.roundIndex && WellSigned(v)
    && m.pubKey != views[2].selfPubKey
    && if views[3].roundCanceled then |views| == 5 && views[4].roundIndex != m.roundIndex else |views| == 4
  }

  // ---------------------------------------------------------------------------------------------
  // Lists with holes
  // ---------------------------------------------------------------------------------------------

  type Slots = seq<Option<Envelope>>

  /** The messages of a list; handed-over ones have left a hole. */
  function Live(slots: Slots): seq<Envelope> {
    if slots == [] then []
    else Live(slots[..|slots| - 1]) + (if slots[|slots| - 1].Some? then [slots[|slots| - 1].value] else [])
  }

  function Filled(es: seq<Envelope>): (slots: Slots)
    ensures |slots| == |es|
  {
    seq(|es|, i requires 0 <= i < |es| => Some(es[i]))
  }

  function Ids(es: seq<Envelope>): set<nat> {
    set e | e in es :: e.id
  }

  ghost predicate DistinctIds(es: seq<Envelope>) {
    forall i, j | 0 <= i < j < |es| :: es[i].id != es[j].id
  }

  /** The messages whose number is not in `gone`, in order. */
  function Remaining(es: seq<Envelope>, gone: set<nat>): seq<Envelope> {
    if es == [] then []
    else Remaining(es[..|es| - 1], gone) + (if es[|es| - 1].id in gone then [] else [es[|es| - 1]])
  }

  lemma LiveAppend(slots: Slots, s: Option<Envelope>)
    ensures Live(slots + [s]) == Live(slots) + (if s.Some? then [s.value] else [])
  {
    assert (slots + [s])[..|slots|] == slots;
  }

  lemma {:induction false} LiveConcat(a: Slots, b: Slots)
    ensures Live(a + b) == Live(a) + Live(b)
  {
    if b == [] {
      assert a + b == a;
    } else {
      var k := |b| - 1;
      assert (a + b)[..|a + b| - 1] == a + b[..k];
      LiveConcat(a, b[..k]);
    }
  }

  lemma {:induction false} LiveFilled(es: seq<Envelope>)
    ensures Live(Filled(es)) == es
  {
    if es != [] {
      var k := |es| - 1;
      LiveFilled(es[..k]);
      assert Filled(es)[..k] == Filled(es[..k]);
    }
  }

  lemma SplitAt(slots: Slots, pos: nat)
    requires pos < |slots|
    ensures slots == slots[..pos] + [slots[pos]] + slots[pos + 1..]
  {
  }

  /** A list around one of its slots. */
  lemma LiveAround(slots: Slots, pos: nat)
    requires pos < |slots|
    ensures Live(slots) == Live(slots[..pos]) + Live([slots[pos]]) + Live(slots[pos + 1..])
  {
    hide Live;
    SplitAt(slots, pos);
    LiveConcat(slots[..pos], [slots[pos]]);
    LiveConcat(slots[..pos] + [slots[pos]], slots[pos + 1..]);
  }

  lemma LiveOne(s: Option<Envelope>)
    ensures Live([s]) == if s.Some? then [s.value] else []
  {
    assert [s][..0] == [];
  }

  /** Handing over a message makes a hole and changes nothing else. */
  lemma MakeHole(slots: Slots, pos: nat)
    requires pos < |slots| && slots[pos].Some?
    ensures Live(slots) == Live(slots[..pos]) + [slots[pos].value] + Live(slots[pos + 1..])
    ensures Live(slots[pos := None]) == Live(slots[..pos]) + Live(slots[pos + 1..])
  {
    hide Live;
    LiveAround(slots, pos);
    LiveOne(slots[pos]);
    var holed := slots[pos := None];
    LiveAround(holed, pos);
    LiveOne(holed[pos]);
    assert holed[..pos] == slots[..pos] && holed[pos + 1..] == slots[pos + 1..];
    assert Live(slots[..pos]) + [] == Live(slots[..pos]);
  }

  lemma {:induction false} RemainingConcat(a: seq<Envelope>, b: seq<Envelope>, gone: set<nat>)
    ensures Remaining(a + b, gone) == Remaining(a, gone) + Remaining(b, gone)
  {
    if b == [] {
      assert a + b == a;
    } else {
      var k := |b| - 1;
      assert (a + b)[..|a + b| - 1] == a + b[..k];
      RemainingConcat(a, b[..k], gone);
    }
  }

  lemma {:induction false} RemainingTwice(es: seq<Envelope>, gone: set<nat>, more: set<nat>)
    ensures Remaining(es, gone + more) == Remaining(Remaining(es, gone), more)
  {
    if es != [] {
      var k := |es| - 1;
      RemainingTwice(es[..k], gone, more);
      if es[k].id in gone {
        assert Remaining(es, gone) == Remaining(es[..k], gone);
      } else {
        RemainingConcat(Remaining(es[..k], gone), [es[k]], more);
        assert [es[k]][..0] == [];
        assert Remaining([es[k]], more) == if es[k].id in more then [] else [es[k]];
      }
    }
  }

  lemma {:induction false} RemainingAll(es: seq<Envelope>, gone: set<nat>)
    requires forall e | e in es :: e.id !in gone
    ensures Remaining(es, gone) == es
  {
    if es != [] {
      var k := |es| - 1;
      assert es == es[..k] + [es[k]];
      assert es[k] in es && forall e | e in es[..k] :: e in es;
      RemainingAll(es[..k], gone);
    }
  }

  lemma RemainingOne(e: Envelope)
    ensures Remaining([e], {e.id}) == []
  {
    assert [e][..0] == [];
  }

  lemma RemainingEnd(a: seq<Envelope>, e: Envelope)
    requires forall x | x in a :: x.id != e.id
    ensures Remaining(a + [e], {e.id}) == a
  {
    hide Remaining;
    RemainingAll(a, {e.id});
    RemainingConcat(a, [e], {e.id});
    RemainingOne(e);
    assert a + [] == a;
  }

  lemma OthersDiffer(a: seq<Envelope>, e: Envelope, b: seq<Envelope>)
    requires DistinctIds(a + [e] + b)
    ensures forall x | x in a || x in b :: x.id != e.id
  {
    var all := a + [e] + b;
    assert all[|a|] == e;
    forall i | 0 <= i < |a| ensures a[i].id != e.id {
      assert all[i] == a[i];
    }
    forall i | 0 <= i < |b| ensures b[i].id != e.id {
      assert all[|a| + 1 + i] == b[i];
    }
  }

  /** Taking out the one message with a number. */
  lemma RemainingWithout(a: seq<Envelope>, e: Envelope, b: seq<Envelope>)
    requires DistinctIds(a + [e] + b)
    ensures Remaining(a + [e] + b, {e.id}) == a + b
  {
    OthersDiffer(a, e, b);
    hide Remaining, DistinctIds;
    RemainingEnd(a, e);
    RemainingAll(b, {e.id});
    RemainingConcat(a + [e], b, {e.id});
  }

  // ---------------------------------------------------------------------------------------------
  // Multisets of messages
  // ---------------------------------------------------------------------------------------------

  lemma MultisetSplit(a: seq<Envelope>, e: Envelope, b: seq<Envelope>)
    ensures multiset(a + [e] + b) == multiset(a + b) + multiset{e}
  {
  }

  lemma MultisetRemove(es: seq<Envelope>, k: nat)
    requires k < |es|
    ensures multiset(es) == multiset(es[..k] + es[k + 1..]) + multiset{es[k]}
  {
    assert es == es[..k] + [es[k]] + es[k + 1..];
    MultisetSplit(es[..k], es[k], es[k + 1..]);
  }

  /** Equal entries at two places count twice. */
  lemma CountTwice(es: seq<Envelope>, i: nat, j: nat)
    requires i < j < |es| && es[i] == es[j]
    ensures multiset(es)[es[i]] >= 2
  {
    MultisetRemove(es, j);
    assert (es[..j] + es[j + 1..])[i] == es[i];
  }

  lemma {:induction false} CountOnce(es: seq<Envelope>, x: Envelope)
    requires DistinctIds(es)
    ensures multiset(es)[x] <= 1
  {
    if es != [] {
      var k := |es| - 1;
      CountOnce(es[..k], x);
      assert es == es[..k] + [es[k]];
      if es[k] == x {
        assert x !in es[..k];
      }
    }
  }

  lemma SameNumberSameMessage(es: seq<Envelope>, a: Envelope, b: Envelope)
    requires DistinctIds(es) && a in es && b in es && a.id == b.id
    ensures a == b
  {
  }

  /** A part of messages with distinct numbers has distinct numbers. */
  lemma PartDistinct(whole: seq<Envelope>, part: seq<Envelope>)
    requires DistinctIds(whole) && multiset(part) <= multiset(whole)
    ensures DistinctIds(part)
    ensures forall e | e in part :: e in whole
  {
    forall e | e in part ensures e in whole {
      assert e in multiset(part);
      assert e in multiset(whole);
    }
    forall i, j | 0 <= i < j < |part| ensures part[i].id != part[j].id {
      assert part[i] in whole && part[j] in whole;
      if part[i].id == part[j].id {
        SameNumberSameMessage(whole, part[i], part[j]);
        CountTwice(part, i, j);
        CountOnce(whole, part[i]);
        assert false;
      }
    }
  }

  // ---------------------------------------------------------------------------------------------
  // The messages of one type
  // ---------------------------------------------------------------------------------------------

  /** An acceptance, the views it was based on, and the numbers of the steps that read them. */
  datatype Acceptance = Acceptance(e: Envelope, views: seq<View>, times: seq<nat>, verdicts: Verdicts)

  /** A view, and the number of the step that read it. */
  datatype Stamp = Stamp(time: nat, view: View)

  /** A message that left the store: taken out for delivery after the tests of its round and of its
      subround, or discarded. */
  datatype Departure =
    | TakenOut(e: Envelope, tested: Stamp, proceeded: Stamp)
    | Discarded(e: Envelope, at: Stamp)

  /** `inflight` are accepted messages waiting for the store's lock, `slots` is the stored list, and
      the other fields are the history: `sent[i]` tells when the receiver got `taken[i]`. */
  datatype Queue = Queue(accepted: seq<Acceptance>, inflight: seq<Envelope>, arrivals: seq<Envelope>,
                         slots: Slots, taken: seq<Departure>, sent: seq<Stamp>, discarded: seq<Departure>)

  const EMPTY_QUEUE := Queue([], [], [], [], [], [], [])

  function AcceptedOf(q: Queue): (es: seq<Envelope>)
    ensures |es| == |q.accepted|
  {
    seq(|q.accepted|, i requires 0 <= i < |q.accepted| => q.accepted[i].e)
  }

  function Left(ds: seq<Departure>): (es: seq<Envelope>)
    ensures |es| == |ds|
  {
    seq(|ds|, i requires 0 <= i < |ds| => ds[i].e)
  }

  function Gone(q: Queue): set<nat> {
    Ids(Left(q.taken)) + Ids(Left(q.discarded))
  }

  /** Every accepted message is in exactly one place: waiting for the lock, stored, taken out, or
      discarded. The stored ones are the arrivals that have not left, in order of arrival. */
  ghost predicate Conserved(q: Queue, live: seq<Envelope>) {
    && DistinctIds(AcceptedOf(q))
    && multiset(AcceptedOf(q)) == multiset(q.inflight) + multiset(q.arrivals)
    && multiset(q.arrivals) == multiset(live) + multiset(Left(q.taken)) + multiset(Left(q.discarded))
    && live == Remaining(q.arrivals, Gone(q))
  }

  /** The message is of the consensus round that the view shows. */
  predicate OfRound(e: Envelope, view: View) {
    e.msg.roundIndex == view.roundIndex
  }

  /** Its subround may proceed, as the view shows. */
  predicate MayProceed(e: Envelope, view: View) {
    e.msg.msgType in view.proceed
  }

  predicate Outdated(e: Envelope, view: View) {
    view.rounderIndex > e.msg.roundIndex
  }

  predicate Tested(d: Departure) {
    d.TakenOut? && OfRound(d.e, d.tested.view) && MayProceed(d.e, d.proceeded.view)
  }

  /** Acceptances were justified; messages were taken out after a test in their own round and when
      their subround could proceed; only outdated messages were discarded. */
  ghost predicate Justified(q: Queue, msgType: int) {
    && (forall a | a in q.accepted :: Acceptable(a.e.msg, a.views, a.verdicts) && a.e.msg.msgType == msgType)
    && (forall d | d in q.taken :: Tested(d))
    && (forall d | d in q.discarded :: d.Discarded? && Outdated(d.e, d.at.view))
  }

  lemma AcceptConserves(q: Queue, a: Acceptance, live: seq<Envelope>)
    requires Conserved(q, live) && forall x | x in AcceptedOf(q) :: x.id != a.e.id
    ensures Conserved(q.(accepted := q.accepted + [a], inflight := q.inflight + [a.e]), live)
  {
    var q' := q.(accepted := q.accepted + [a], inflight := q.inflight + [a.e]);
    assert AcceptedOf(q') == AcceptedOf(q) + [a.e];
    assert Gone(q') == Gone(q);
  }

  /** What `Enter` does to a queue. */
  function EnterQueue(q: Queue, k: nat): Queue
    requires k < |q.inflight|
  {
    var e := q.inflight[k];
    q.(inflight := q.inflight[..k] + q.inflight[k + 1..], arrivals := q.arrivals + [e], slots := q.slots + [Some(e)])
  }

  /** A message that has just arrived has not left. */
  lemma EntersFresh(q: Queue, e: Envelope, live: seq<Envelope>)
    requires DistinctIds(q.arrivals + [e])
    requires multiset(q.arrivals) == multiset(live) + multiset(Left(q.taken)) + multiset(Left(q.discarded))
    ensures e.id !in Gone(q)
  {
    forall x | x in Left(q.taken) || x in Left(q.discarded) ensures x.id != e.id {
      assert x in multiset(q.arrivals);
      var i :| 0 <= i < |q.arrivals| && q.arrivals[i] == x;
      assert (q.arrivals + [e])[i] == x && (q.arrivals + [e])[|q.arrivals|] == e;
    }
  }

  lemma RemainingSnoc(es: seq<Envelope>, e: Envelope, gone: set<nat>)
    requires e.id !in gone
    ensures Remaining(es + [e], gone) == Remaining(es, gone) + [e]
  {
    assert (es + [e])[..|es|] == es;
  }

  /** No message is gained or lost on the way into the store. */
  lemma EntersOnce(q: Queue, k: nat, live: seq<Envelope>)
    requires k < |q.inflight|
    requires multiset(AcceptedOf(q)) == multiset(q.inflight) + multiset(q.arrivals)
    requires multiset(q.arrivals) == multiset(live) + multiset(Left(q.taken)) + multiset(Left(q.discarded))
    ensures multiset(AcceptedOf(q))
         == multiset(q.inflight[..k] + q.inflight[k + 1..]) + multiset(q.arrivals + [q.inflight[k]])
    ensures multiset(q.arrivals + [q.inflight[k]])
         == multiset(live + [q.inflight[k]]) + multiset(Left(q.taken)) + multiset(Left(q.discarded))
  {
    hide AcceptedOf, Left;
    MultisetRemove(q.inflight, k);
    assert multiset(q.arrivals + [q.inflight[k]]) == multiset(q.arrivals) + multiset{q.inflight[k]};
    assert multiset(live + [q.inflight[k]]) == multiset(live) + multiset{q.inflight[k]};
  }

  lemma EnterConserves(q: Queue, k: nat, live: seq<Envelope>)
    requires k < |q.inflight| && Conserved(q, live)
    ensures Conserved(EnterQueue(q, k), live + [q.inflight[k]])
  {
    var e := q.inflight[k];
    var q' := EnterQueue(q, k);
    assert AcceptedOf(q') == AcceptedOf(q) && Gone(q') == Gone(q);
    hide Remaining, Gone, AcceptedOf, Left, DistinctIds;
    EntersOnce(q, k, live);
    PartDistinct(AcceptedOf(q), q.arrivals + [e]);
    EntersFresh(q, e, live);
    RemainingSnoc(q.arrivals, e, Gone(q));
  }

  lemma Shuffle(m: multiset<Envelope>, l: multiset<Envelope>, e: Envelope,
                h: multiset<Envelope>, d: multiset<Envelope>, h': multiset<Envelope>, d': multiset<Envelope>)
    requires m == l + multiset{e} + h + d && h' + d' == h + d + multiset{e}
    ensures m == l + h' + d'
  {
    forall x: Envelope ensures m[x] == (l + h' + d')[x] {
      assert (h' + d')[x] == (h + d + multiset{e})[x];
      assert m[x] == (l + multiset{e} + h + d)[x];
    }
  }

  lemma LeaveRemaining(q: Queue, a: seq<Envelope>, e: Envelope, b: seq<Envelope>)
    requires Conserved(q, a + [e] + b)
    ensures multiset(a + [e] + b) == multiset(a + b) + multiset{e}
    ensures Remaining(q.arrivals, Gone(q) + {e.id}) == a + b
  {
    MultisetSplit(a, e, b);
    PartDistinct(AcceptedOf(q), q.arrivals);
    PartDistinct(q.arrivals, a + [e] + b);
    RemainingWithout(a, e, b);
    RemainingTwice(q.arrivals, Gone(q), {e.id});
  }

  lemma LeftAppend(ds: seq<Departure>, d: Departure)
    ensures Left(ds + [d]) == Left(ds) + [d.e]
    ensures Ids(Left(ds + [d])) == Ids(Left(ds)) + {d.e.id}
    ensures multiset(Left(ds + [d])) == multiset(Left(ds)) + multiset{d.e}
  {
    assert Left(ds + [d]) == Left(ds) + [d.e];
    assert forall x :: x in Left(ds) + [d.e] <==> x in Left(ds) || x == d.e;
  }

  lemma LeaveGone(q: Queue, d: Departure, taken: bool, q': Queue)
    requires q'.arrivals == q.arrivals
    requires if taken then q'.taken == q.taken + [d] && q'.discarded == q.discarded
             else q'.taken == q.taken && q'.discarded == q.discarded + [d]
    ensures Gone(q') == Gone(q) + {d.e.id}
    ensures multiset(Left(q'.taken)) + multiset(Left(q'.discarded))
         == multiset(Left(q.taken)) + multiset(Left(q.discarded)) + multiset{d.e}
  {
    LeftAppend(q.taken, d);
    LeftAppend(q.discarded, d);
  }

  /** Taking a message out of the store, by handing it over or discarding it. */
  lemma LeaveConserves(q: Queue, q': Queue, a: seq<Envelope>, d: Departure, b: seq<Envelope>, taken: bool)
    requires Conserved(q, a + [d.e] + b)
    requires q'.accepted == q.accepted && q'.inflight == q.inflight && q'.arrivals == q.arrivals
    requires if taken then q'.taken == q.taken + [d] && q'.discarded == q.discarded
             else q'.taken == q.taken && q'.discarded == q.discarded + [d]
    ensures Conserved(q', a + b)
  {
    assert AcceptedOf(q') == AcceptedOf(q);
    LeaveGone(q, d, taken, q');
    LeaveRemaining(q, a, d.e, b);
    Shuffle(multiset(q.arrivals), multiset(a + b), d.e, multiset(Left(q.taken)), multiset(Left(q.discarded)),
            multiset(Left(q'.taken)), multiset(Left(q'.discarded)));
  }
}
