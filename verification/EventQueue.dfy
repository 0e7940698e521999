/** Application events, what a push or a pop does to the queue of them, and where every event went. */
module Events {
  import opened Words
  import opened RingSpec

  datatype EventType =
    | EvtNone | K1Short | K2Short | K3Short | K1Long | K2Long | K3Long | Tick | Shutdown

  datatype Event = Event(kind: EventType, line: nat, timestampNs: nat, data: uint32)

  datatype Outcome = EqOk | EqReplaced | EqDropped

  predicate IsTick(e: Event) {
    e.kind.Tick?
  }

  function MergeTick(existing: Event, incoming: Event): Option<Event> {
    if !IsTick(incoming) || !IsTick(existing) then None
    else Some(existing.(data := Add32(existing.data, incoming.data), timestampNs := incoming.timestampNs))
  }

  /** The ring, the queue's own counters, and a record of the past: the critical (non-tick) events
      whose push was answered EqOk or EqReplaced, those delivered, and the tick data that came in,
      was delivered, was displaced by a critical event, or was dropped. */
  datatype Ledger = Ledger(
    ring: Ring<Event>, replacedTicks: nat, droppedCritical: nat,
    accepted: multiset<Event>, delivered: multiset<Event>,
    tickIn: nat, tickOut: nat, tickDisplaced: nat, tickDropped: nat)

  function Empty(capacity: nat): Ledger {
    Ledger(Ring([], capacity, Coalesce, Stats(0, 0, 0, 0, 0)), 0, 0, multiset{}, multiset{}, 0, 0, 0, 0)
  }

  /** First lock region of event_queue_push. */
  function Offer(l: Ledger, e: Event): (Ledger, PushResult)
    requires l.ring.capacity > 0
  {
    var (r, res) := Push(l.ring, Some(MergeTick), e);
    var l1 := l.(ring := r);
    if IsTick(e) then
      (l1.(tickIn := l.tickIn + e.data, tickDropped := l.tickDropped + if res.Dropped? then e.data else 0), res)
    else
      (if res.Dropped? then l1 else l1.(accepted := l.accepted + multiset{e}), res)
  }

  /** Second lock region: a critical event that found the ring full takes the place of a tick. */
  function Displace(l: Ledger, e: Event): (Ledger, bool) {
    var (r, done) := ReplaceFirst(l.ring, IsTick, e);
    if done then
      (l.(ring := r, replacedTicks := l.replacedTicks + 1, accepted := l.accepted + multiset{e},
          tickDisplaced := l.tickDisplaced + l.ring.items[First(l.ring.items, IsTick)].data), true)
    else (l.(droppedCritical := l.droppedCritical + 1), false)
  }

  function Take(l: Ledger): (Ledger, Option<Event>) {
    var (r, out) := Pop(l.ring);
    var l1 := l.(ring := r);
    if out.None? then (l1, out)
    else if IsTick(out.value) then (l1.(tickOut := l.tickOut + out.value.data), out)
    else (l1.(delivered := l.delivered + multiset{out.value}), out)
  }

  /** event_queue_push with nothing in between its two lock regions. */
  function PushEvent(l: Ledger, e: Event): (Ledger, Outcome)
    requires l.ring.capacity > 0
  {
    var (l1, res) := Offer(l, e);
    if !res.Dropped? then (l1, EqOk)
    else if IsTick(e) then (l1, EqDropped)
    else
      var (l2, done) := Displace(l1, e);
      (l2, if done then EqReplaced else EqDropped)
  }

  function Criticals(s: seq<Event>): multiset<Event> {
    if s == [] then multiset{} else (if IsTick(s[0]) then multiset{} else multiset{s[0]}) + Criticals(s[1..])
  }

  function TickData(s: seq<Event>): nat {
    if s == [] then 0 else (if IsTick(s[0]) then s[0].data else 0) + TickData(s[1..])
  }

  function Ticks(s: seq<Event>): nat {
    if s == [] then 0 else (if IsTick(s[0]) then 1 else 0) + Ticks(s[1..])
  }

  /** Nothing is lost: every accepted critical event was delivered or is queued; tick data balances
      modulo 2^32, the width of the merged field; at most one tick is queued. */
  ghost predicate Conserved(l: Ledger) {
    && RingSpec.Valid(l.ring) && l.ring.policy.Coalesce?
    && Ticks(l.ring.items) <= 1
    && l.accepted == l.delivered + Criticals(l.ring.items)
    && (l.tickIn - l.tickOut - TickData(l.ring.items) - l.tickDisplaced - l.tickDropped) % U32 == 0
  }

  lemma {:induction false} ConcatTicks(s: seq<Event>, t: seq<Event>)
    ensures TickData(s + t) == TickData(s) + TickData(t)
    ensures Ticks(s + t) == Ticks(s) + Ticks(t)
  {
    if s == [] {
      assert s + t == t;
    } else {
      ConcatTicks(s[1..], t);
      assert (s + t)[1..] == s[1..] + t && (s + t)[0] == s[0];
    }
  }

  lemma {:induction false} ConcatCriticals(s: seq<Event>, t: seq<Event>)
    ensures Criticals(s + t) == Criticals(s) + Criticals(t)
  {
    if s == [] {
      assert s + t == t;
    } else {
      ConcatCriticals(s[1..], t);
      assert (s + t)[1..] == s[1..] + t && (s + t)[0] == s[0];
      var head := if IsTick(s[0]) then multiset{} else multiset{s[0]};
      assert Criticals(s + t) == head + (Criticals(s[1..]) + Criticals(t)) == Criticals(s) + Criticals(t);
    }
  }

  lemma Concat(s: seq<Event>, t: seq<Event>)
    ensures Criticals(s + t) == Criticals(s) + Criticals(t)
    ensures TickData(s + t) == TickData(s) + TickData(t)
    ensures Ticks(s + t) == Ticks(s) + Ticks(t)
  {
    ConcatTicks(s, t);
    ConcatCriticals(s, t);
  }

  /** What overwriting the element at i does to the three measures. */
  lemma Overwrite(s: seq<Event>, i: nat, e: Event)
    requires i < |s|
    ensures Criticals(s[i := e]) + Criticals([s[i]]) == Criticals(s) + Criticals([e])
    ensures TickData(s[i := e]) + TickData([s[i]]) == TickData(s) + TickData([e])
    ensures Ticks(s[i := e]) + Ticks([s[i]]) == Ticks(s) + Ticks([e])
  {
    assert s == s[..i] + ([s[i]] + s[i + 1..]);
    assert s[i := e] == s[..i] + ([e] + s[i + 1..]);
    Concat(s[..i], [s[i]] + s[i + 1..]);
    Concat([s[i]], s[i + 1..]);
    Concat(s[..i], [e] + s[i + 1..]);
    Concat([e], s[i + 1..]);
  }

  lemma {:induction false} TicksFound(s: seq<Event>)
    ensures Ticks(s) == 0 <==> First(s, IsTick) == |s|
  {
    if s != [] {
      TicksFound(s[1..]);
    }
  }

  /** A tick is merged into the first queued tick; a critical event is merged into nothing. */
  lemma MergeTarget(s: seq<Event>, e: Event)
    ensures FirstMerge(s, Coalesce, Some(MergeTick), e) == if IsTick(e) then First(s, IsTick) else |s|
  {
    var i, k := FirstMerge(s, Coalesce, Some(MergeTick), e), First(s, IsTick);
    if i < |s| {
      assert MergeTick(s[i], e).Some?;
    }
    if k < i {
      assert IsTick(s[k]);
      assert IsTick(e) ==> MergeTick(s[k], e).Some?;
    }
  }

  lemma Single(e: Event)
    ensures Criticals([e]) == if IsTick(e) then multiset{} else multiset{e}
    ensures TickData([e]) == if IsTick(e) then e.data else 0
    ensures Ticks([e]) == if IsTick(e) then 1 else 0
  {
    assert [e][1..] == [];
  }

  lemma AddWraps(d: int, a: uint32, b: uint32)
    requires d % U32 == 0
    ensures (d + a + b - Add32(a, b)) % U32 == 0
  {
  }

  lemma TickOverwritten(s: seq<Event>, i: nat, m: Event)
    requires i < |s| && IsTick(s[i]) && IsTick(m)
    ensures Ticks(s[i := m]) == Ticks(s) && Criticals(s[i := m]) == Criticals(s)
    ensures TickData(s[i := m]) == TickData(s) + m.data - s[i].data
  {
    Overwrite(s, i, m);
    Single(s[i]);
    Single(m);
    assert Criticals(s[i := m]) == Criticals(s[i := m]) + multiset{} == Criticals(s) + multiset{} == Criticals(s);
  }

  /** The queued tick at i absorbs e. */
  lemma MergeConserves(l: Ledger, e: Event, i: nat)
    requires Conserved(l) && i < |l.ring.items| && IsTick(e) && IsTick(l.ring.items[i])
    ensures var s := l.ring.items;
      var s' := s[i := MergeTick(s[i], e).value];
      && Ticks(s') == Ticks(s) && Criticals(s') == Criticals(s)
      && (l.tickIn + e.data - l.tickOut - TickData(s') - l.tickDisplaced - l.tickDropped) % U32 == 0
  {
    var s := l.ring.items;
    TickOverwritten(s, i, MergeTick(s[i], e).value);
    AddWraps(l.tickIn - l.tickOut - TickData(s) - l.tickDisplaced - l.tickDropped, s[i].data, e.data);
  }

  /** e goes to the end of a queue with room and, if it is a tick, without ticks. */
  lemma AppendConserves(l: Ledger, e: Event)
    requires Conserved(l) && (IsTick(e) ==> Ticks(l.ring.items) == 0)
    ensures var s, s' := l.ring.items, l.ring.items + [e];
      && Ticks(s') <= 1 && TickData(s') == TickData(s) + (if IsTick(e) then e.data else 0)
      && Criticals(s') == Criticals(s) + if IsTick(e) then multiset{} else multiset{e}
  {
    Concat(l.ring.items, [e]);
    Single(e);
  }

  lemma OfferMergesTick(l: Ledger, e: Event)
    requires Conserved(l) && IsTick(e) && First(l.ring.items, IsTick) < |l.ring.items|
    ensures Conserved(Offer(l, e).0)
  {
    MergeTarget(l.ring.items, e);
    MergeConserves(l, e, First(l.ring.items, IsTick));
  }

  lemma OfferAppendsTick(l: Ledger, e: Event)
    requires Conserved(l) && IsTick(e) && First(l.ring.items, IsTick) == |l.ring.items| && Ticks(l.ring.items) == 0
    ensures Conserved(Offer(l, e).0)
  {
    MergeTarget(l.ring.items, e);
    AppendConserves(l, e);
  }

  lemma OfferTickConserves(l: Ledger, e: Event)
    requires Conserved(l) && IsTick(e)
    ensures Conserved(Offer(l, e).0)
  {
    TicksFound(l.ring.items);
    if First(l.ring.items, IsTick) < |l.ring.items| {
      OfferMergesTick(l, e);
    } else {
      OfferAppendsTick(l, e);
    }
  }

  lemma OfferCriticalConserves(l: Ledger, e: Event)
    requires Conserved(l) && !IsTick(e)
    ensures Conserved(Offer(l, e).0)
  {
    var s := l.ring.items;
    MergeTarget(s, e);
    if |s| < l.ring.capacity {
      var l' := Offer(l, e).0;
      assert l'.ring.items == s + [e] && l'.accepted == l.accepted + multiset{e};
      AppendConserves(l, e);
      assert l'.delivered + Criticals(l'.ring.items) == l.delivered + Criticals(s) + multiset{e};
    }
  }

  lemma OfferConserves(l: Ledger, e: Event)
    requires Conserved(l)
    ensures Conserved(Offer(l, e).0)
    ensures Offer(l, e).1.Dropped? ==> |l.ring.items| == l.ring.capacity && (IsTick(e) ==> Ticks(l.ring.items) == 0)
    ensures !IsTick(e) ==> (Offer(l, e).1.Dropped? <==> |l.ring.items| == l.ring.capacity)
  {
    MergeTarget(l.ring.items, e);
    TicksFound(l.ring.items);
    if IsTick(e) {
      OfferTickConserves(l, e);
    } else {
      OfferCriticalConserves(l, e);
    }
  }

  lemma DisplaceConserves(l: Ledger, e: Event)
    requires Conserved(l) && !IsTick(e)
    ensures Conserved(Displace(l, e).0)
    ensures Displace(l, e).1 <==> Ticks(l.ring.items) == 1
  {
    var s := l.ring.items;
    var i := First(s, IsTick);
    TicksFound(s);
    if i < |s| {
      Overwrite(s, i, e);
      Single(s[i]);
      Single(e);
      assert Criticals(s[i := e]) == Criticals(s) + multiset{e};
    }
  }

  lemma TakeConserves(l: Ledger)
    requires Conserved(l)
    ensures Conserved(Take(l).0)
  {
    var s := l.ring.items;
    if s != [] {
      assert s == [s[0]] + s[1..];
      Concat([s[0]], s[1..]);
      Single(s[0]);
    }
  }

  /** What an uninterrupted push does, in full. A tick joins the queued tick, if there is one: their counts add up
      modulo 2^32 and the newer time stands. Otherwise the event goes to the end if there is room. In a full queue a
      tick is dropped; any other event takes the place of the queued tick, or is dropped if there is none. */
  lemma PushEventMeaning(l: Ledger, e: Event)
    requires Conserved(l)
    ensures var (l', outcome) := PushEvent(l, e);
      var s, s' := l.ring.items, l'.ring.items;
      var i := First(s, IsTick);
      && (i < |s| <==> exists k :: 0 <= k < |s| && s[k].kind.Tick?)
      && (i < |s| ==> s[i].kind.Tick?)
      && if e.kind.Tick? && i < |s| then
           outcome == EqOk
           && s' == s[i := s[i].(data := (s[i].data + e.data) % 0x1_0000_0000, timestampNs := e.timestampNs)]
         else if |s| < l.ring.capacity then outcome == EqOk && s' == s + [e]
         else if !e.kind.Tick? && i < |s| then outcome == EqReplaced && s' == s[i := e]
         else outcome == EqDropped && s' == s
    ensures var (l', outcome) := PushEvent(l, e);
      && l'.replacedTicks == l.replacedTicks + (if outcome.EqReplaced? then 1 else 0)
      && l'.droppedCritical == l.droppedCritical + if outcome.EqDropped? && !e.kind.Tick? then 1 else 0
  {
    var s := l.ring.items;
    MergeTarget(s, e);
    var i := First(s, IsTick);
    if k :| 0 <= k < |s| && s[k].kind.Tick? {
      assert IsTick(s[k]);
    }
  }

  /** An uninterrupted push is refused exactly when the queue is full of critical events. */
  lemma RefusedIffFullOfCritical(l: Ledger, e: Event)
    requires Conserved(l)
    ensures Conserved(PushEvent(l, e).0)
    ensures PushEvent(l, e).1.EqDropped? <==>
      |l.ring.items| == l.ring.capacity && forall x :: x in l.ring.items ==> !IsTick(x)
  {
    OfferConserves(l, e);
    TicksFound(l.ring.items);
    MergeTarget(l.ring.items, e);
    var i := First(l.ring.items, IsTick);
    if i < |l.ring.items| {
      assert l.ring.items[i] in l.ring.items;
    }
    if Offer(l, e).1.Dropped? && !IsTick(e) {
      DisplaceConserves(Offer(l, e).0, e);
    }
  }
}

/** The event queue as one thread sees it between lock regions. */
module EventQueue {
  import opened Words
  import opened RingSpec
  import opened Events
  import RingQueue

  class EventQueue {
    const ring: RingQueue.RingQueue<Event>
    var replacedTicks: nat
    var droppedCritical: nat
    var sequence: nat
    var closed: bool
    ghost var ledger: Ledger

    ghost predicate Valid()
      reads this, ring, ring.buffer
    {
      && ring.Valid() && ring.mergeFn == Some(MergeTick)
      && ledger.ring == ring.Abs()
      && ledger.replacedTicks == replacedTicks && ledger.droppedCritical == droppedCritical
      && Conserved(ledger)
    }

    constructor (capacity: nat)
      requires capacity > 0
      ensures Valid() && ledger == Empty(capacity) && !closed && sequence == 0
    {
      ring := new RingQueue.RingQueue<Event>(capacity, Some(MergeTick));
      replacedTicks, droppedCritical, sequence, closed := 0, 0, 0, false;
      ledger := Empty(capacity);
      new;
      ring.SetOverflowPolicy(Coalesce);
    }

    method Signal()
      modifies this`sequence
      ensures sequence == old(sequence) + 1
    {
      sequence := sequence + 1;
    }

    method Close()
      requires Valid()
      modifies this`sequence, this`closed
      ensures Valid() && closed && sequence == old(sequence) + 1 && ledger == old(ledger)
    {
      closed := true;
      Signal();
    }

    /** The ring's first lock region. */
    method OfferRing(event: Event) returns (result: PushResult)
      requires Valid()
      modifies this`ledger, ring, ring.buffer
      ensures Valid() && (ledger, result) == Offer(old(ledger), event)
    {
      OfferConserves(ledger, event);
      ledger := Offer(ledger, event).0;
      result := ring.Push(event);
    }

    /** The ring's second lock region, and the counters that follow it. */
    method DisplaceTick(event: Event) returns (replaced: bool)
      requires Valid() && !IsTick(event)
      modifies this`ledger, this`replacedTicks, this`droppedCritical, ring, ring.buffer
      ensures Valid() && (ledger, replaced) == Displace(old(ledger), event)
    {
      DisplaceConserves(ledger, event);
      ledger := Displace(ledger, event).0;
      replaced := ring.ReplaceFirstIf(IsTick, event);
      if replaced {
        replacedTicks := replacedTicks + 1;
      } else {
        droppedCritical := droppedCritical + 1;
      }
    }

    /** Signals exactly when the push changed the queue. */
    method Push(event: Event) returns (outcome: Outcome)
      requires Valid()
      modifies this, ring, ring.buffer
      ensures Valid() && closed == old(closed)
      ensures (ledger, outcome) == PushEvent(old(ledger), event)
      ensures sequence == old(sequence) + if outcome.EqDropped? then 0 else 1
    {
      var result := OfferRing(event);
      if result == Ok || result == Merged {
        Signal();
        return EqOk;
      }
      if IsTick(event) {
        return EqDropped;
      }
      var replaced := DisplaceTick(event);
      if replaced {
        Signal();
        return EqReplaced;
      }
      return EqDropped;
    }

    method TryPop() returns (out: Option<Event>)
      requires Valid()
      modifies this`ledger, ring
      ensures Valid()
      ensures (ledger, out) == Take(old(ledger))
    {
      TakeConserves(ledger);
      out := ring.Pop();
      ledger := Take(ledger).0;
    }
  }
}
