/** ubus results: refused when full unless one with an abandoned request id can give way. */
module Results {
  import opened Words
  import opened RingSpec
  import opened Tasks

  const MAX_ABANDONED: nat := 16

  datatype UbusResult = UbusResult(
    service: string, action: Action, success: bool, errorCode: int, requestId: uint32, installed: bool, running: bool)

  datatype ResultStats = ResultStats(pushes: nat, pops: nat, drops: nat, dropsAbandoned: nat)

  datatype Answer = RqOk | RqDropped

  datatype ResultQ = ResultQ(ring: Ring<UbusResult>, abandoned: seq<uint32>, stats: ResultStats, attempts: nat)

  function EmptyResults(capacity: nat): ResultQ {
    ResultQ(Ring([], capacity, RejectNew, Stats(0, 0, 0, 0, 0)), [], ResultStats(0, 0, 0, 0), 0)
  }

  predicate IsAbandoned(abandoned: seq<uint32>, r: UbusResult) {
    r.requestId in abandoned
  }

  /** The ring refused r: the first queued result with an abandoned id gives way, if there is one. */
  function GiveWay(q: ResultQ, r: UbusResult): (ResultQ, Answer) {
    var (ring, replaced) := ReplaceFirst(q.ring, (x: UbusResult) => IsAbandoned(q.abandoned, x), r);
    if replaced then
      (q.(ring := ring,
        stats := q.stats.(pushes := q.stats.pushes + 1, dropsAbandoned := q.stats.dropsAbandoned + 1)), RqOk)
    else (q.(stats := q.stats.(drops := q.stats.drops + 1)), RqDropped)
  }

  function Admit(q: ResultQ, r: UbusResult): (ResultQ, Answer)
    requires q.ring.capacity > 0
  {
    var q1 := q.(attempts := q.attempts + 1);
    if r.requestId in q.abandoned then
      (q1.(stats := q.stats.(dropsAbandoned := q.stats.dropsAbandoned + 1)), RqDropped)
    else
      var (ring, res) := Push(q.ring, None, r);
      if res.Ok? then (q1.(ring := ring, stats := q.stats.(pushes := q.stats.pushes + 1)), RqOk)
      else GiveWay(q1.(ring := ring), r)
  }

  /** Where a push stands between its lock regions; Placed, Listed, Displaced and Refused have their
      outcome but have not counted it yet. */
  datatype Phase = Checking | Listed | Offering | Placed | Displacing | Displaced | Refused

  /** One lock region of result_queue_push, and what is left to do; None when the push returns. */
  function PushStep(q: ResultQ, r: UbusResult, phase: Phase): (ResultQ, Option<Phase>)
    requires q.ring.capacity > 0
  {
    match phase
    case Checking => (q, Some(if r.requestId in q.abandoned then Listed else Offering))
    case Listed => (q.(stats := q.stats.(dropsAbandoned := q.stats.dropsAbandoned + 1)), None)
    case Offering =>
      var (ring, res) := Push(q.ring, None, r);
      (q.(ring := ring), Some(if res.Ok? then Placed else Displacing))
    case Placed => (q.(stats := q.stats.(pushes := q.stats.pushes + 1)), None)
    case Displacing =>
      var (ring, replaced) := ReplaceFirst(q.ring, (x: UbusResult) => IsAbandoned(q.abandoned, x), r);
      (q.(ring := ring), Some(if replaced then Displaced else Refused))
    case Displaced =>
      (q.(stats := q.stats.(pushes := q.stats.pushes + 1, dropsAbandoned := q.stats.dropsAbandoned + 1)), None)
    case Refused => (q.(stats := q.stats.(drops := q.stats.drops + 1)), None)
  }

  /** The steps a push takes at most before it returns. */
  function StepsLeft(phase: Phase): nat {
    match phase
    case Checking => 4
    case Offering => 3
    case Displacing => 2
    case _ => 1
  }

  /** The rest of a push with nothing in between its lock regions. */
  function Finish(q: ResultQ, r: UbusResult, phase: Phase): ResultQ
    requires q.ring.capacity > 0
    decreases StepsLeft(phase)
  {
    var (q', next) := PushStep(q, r, phase);
    if next.None? then q' else Finish(q', r, next.value)
  }

  /** Uninterrupted, the lock regions of a push are the whole push. */
  lemma FinishIsAdmit(q: ResultQ, r: UbusResult)
    requires q.ring.capacity > 0
    ensures Finish(q.(attempts := q.attempts + 1), r, Checking) == Admit(q, r).0
  {
    var q1 := q.(attempts := q.attempts + 1);
    if r.requestId !in q.abandoned {
      var (q2, next) := PushStep(q1, r, Offering);
      if next == Some(Displacing) {
        assert Finish(q2, r, Displacing) == GiveWay(q2, r).0;
      }
    }
  }

  function PopResult(q: ResultQ): (ResultQ, Option<UbusResult>) {
    var (r, out) := Pop(q.ring);
    (if out.None? then q else q.(ring := r, stats := q.stats.(pops := q.stats.pops + 1)), out)
  }

  function Mark(q: ResultQ, id: uint32): ResultQ {
    if |q.abandoned| < MAX_ABANDONED && id !in q.abandoned then q.(abandoned := q.abandoned + [id]) else q
  }

  /** Removal keeps the list dense by moving the last id into the gap. */
  function Clear(q: ResultQ, id: uint32): ResultQ {
    var i := First(q.abandoned, (x: uint32) => x == id);
    if i < |q.abandoned| then
      q.(abandoned := q.abandoned[i := q.abandoned[|q.abandoned| - 1]][..|q.abandoned| - 1])
    else q
  }

  ghost predicate NoDuplicates(s: seq<uint32>) {
    forall i, j :: 0 <= i < j < |s| ==> s[i] != s[j]
  }

  /** Holds between any two lock regions. */
  ghost predicate Sound(q: ResultQ) {
    && RingSpec.Valid(q.ring) && q.ring.policy.RejectNew?
    && NoDuplicates(q.abandoned) && |q.abandoned| <= MAX_ABANDONED
  }

  /** Push attempts not yet accounted for. dropsAbandoned counts both results refused on arrival and queued
      results that gave way. */
  function Gap(q: ResultQ): int {
    q.attempts - q.stats.pops - |q.ring.items| - q.stats.drops - q.stats.dropsAbandoned
  }

  ghost predicate Accounted(q: ResultQ) {
    Sound(q) && Gap(q) == 0
  }

  /** What a push that has come this far contributes to the gap. */
  function Transit(phase: Option<Phase>): nat {
    if phase.None? || phase.value.Placed? then 0 else 1
  }

  /** Each lock region of a push closes the gap by what it takes out of transit. */
  lemma PushStepAccounts(q: ResultQ, r: UbusResult, phase: Phase)
    requires Sound(q)
    ensures var (q', next) := PushStep(q, r, phase);
      && Sound(q') && Gap(q') - Transit(next) == Gap(q) - Transit(Some(phase))
      && q'.attempts == q.attempts && q'.abandoned == q.abandoned
      && (next.Some? ==> StepsLeft(next.value) < StepsLeft(phase))
  {
  }

  /** Overwriting the first element with an abandoned id loses no other. */
  lemma SomeGivesWay(items: seq<UbusResult>, abandoned: seq<uint32>, r: UbusResult)
    ensures var i := First(items, (x: UbusResult) => IsAbandoned(abandoned, x));
      if i == |items| then forall x :: x in items ==> x.requestId !in abandoned
      else items[i] in items && items[i].requestId in abandoned && r in items[i := r]
           && forall x :: x in items && x.requestId !in abandoned ==> x in items[i := r]
  {
    var i := First(items, (x: UbusResult) => IsAbandoned(abandoned, x));
    if i < |items| {
      assert IsAbandoned(abandoned, items[i]) && items[i := r][i] == r;
      forall x | x in items && x.requestId !in abandoned ensures x in items[i := r] {
        var k :| 0 <= k < |items| && items[k] == x;
        assert items[i := r][k] == x;
      }
    }
  }

  /** A listed id never enters the ring; an unlisted one is refused exactly when the ring is full of unlisted ids. */
  lemma PushAccounts(q: ResultQ, r: UbusResult)
    requires Accounted(q)
    ensures Accounted(Admit(q, r).0)
    ensures r.requestId in q.abandoned ==> Admit(q, r).0.ring == q.ring && Admit(q, r).1.RqDropped?
    ensures r.requestId !in q.abandoned ==>
      (Admit(q, r).1.RqDropped? <==>
        |q.ring.items| == q.ring.capacity && forall x :: x in q.ring.items ==> x.requestId !in q.abandoned)
    ensures Admit(q, r).1.RqOk? ==> r in Admit(q, r).0.ring.items
    ensures var s, s', ok := q.stats, Admit(q, r).0.stats, Admit(q, r).1.RqOk?;
      && s'.pushes == s.pushes + (if ok then 1 else 0) && s'.pops == s.pops
      && s'.drops == s.drops + (if !ok && r.requestId !in q.abandoned then 1 else 0)
      && s'.dropsAbandoned == s.dropsAbandoned + if r.requestId in q.abandoned ||
           (ok && |q.ring.items| == q.ring.capacity) then 1 else 0
    ensures forall x :: x in q.ring.items && x.requestId !in q.abandoned ==> x in Admit(q, r).0.ring.items
  {
    var items := q.ring.items;
    if r.requestId !in q.abandoned {
      if |items| < q.ring.capacity {
        assert (items + [r])[|items|] == r;
      } else {
        SomeGivesWay(items, q.abandoned, r);
      }
    }
  }

  lemma MarkAccounts(q: ResultQ, id: uint32)
    requires Sound(q)
    ensures Sound(Mark(q, id)) && Gap(Mark(q, id)) == Gap(q)
    ensures id in Mark(q, id).abandoned <==> id in q.abandoned || |q.abandoned| < MAX_ABANDONED
    ensures forall x :: x != id ==> (x in Mark(q, id).abandoned <==> x in q.abandoned)
  {
  }

  /** Moving the last element into the place of the one at i removes that one and nothing else. */
  lemma SwapRemoved(s: seq<uint32>, i: nat)
    requires NoDuplicates(s) && i < |s|
    ensures var s' := s[i := s[|s| - 1]][..|s| - 1];
      NoDuplicates(s') && forall x :: x in s' <==> x in s && x != s[i]
  {
    var s' := s[i := s[|s| - 1]][..|s| - 1];
    assert forall k :: 0 <= k < |s'| ==> s'[k] == if k == i then s[|s| - 1] else s[k];
    forall x | x in s && x != s[i] ensures x in s' {
      var k :| 0 <= k < |s| && s[k] == x;
      assert if k == |s| - 1 then s'[i] == x else s'[k] == x;
    }
  }

  lemma ClearAccounts(q: ResultQ, id: uint32)
    requires Sound(q)
    ensures Sound(Clear(q, id)) && Gap(Clear(q, id)) == Gap(q)
    ensures forall x :: x in Clear(q, id).abandoned <==> x in q.abandoned && x != id
  {
    var i := First(q.abandoned, (x: uint32) => x == id);
    if i < |q.abandoned| {
      SwapRemoved(q.abandoned, i);
    }
  }

  datatype Op = PushOp(result: UbusResult) | PopOp | MarkOp(id: uint32) | ClearOp(id: uint32)

  function Run(q: ResultQ, ops: seq<Op>): (q': ResultQ)
    requires q.ring.capacity > 0
    ensures q'.ring.capacity == q.ring.capacity
    decreases |ops|
  {
    if ops == [] then q else
      match ops[0]
      case PushOp(r) => Run(Admit(q, r).0, ops[1..])
      case PopOp => Run(PopResult(q).0, ops[1..])
      case MarkOp(id) => Run(Mark(q, id), ops[1..])
      case ClearOp(id) => Run(Clear(q, id), ops[1..])
  }

  lemma {:induction false} RunAccounts(q: ResultQ, ops: seq<Op>)
    requires Accounted(q)
    ensures Accounted(Run(q, ops))
    decreases |ops|
  {
    if ops != [] {
      match ops[0]
      case PushOp(r) => PushAccounts(q, r); RunAccounts(Admit(q, r).0, ops[1..]);
      case PopOp => RunAccounts(PopResult(q).0, ops[1..]);
      case MarkOp(id) => MarkAccounts(q, id); RunAccounts(Mark(q, id), ops[1..]);
      case ClearOp(id) => ClearAccounts(q, id); RunAccounts(Clear(q, id), ops[1..]);
    }
  }
}

module ResultQueue {
  import opened Words
  import opened RingSpec
  import opened Results
  import RingQueue

  class ResultQueue {
    const ring: RingQueue.RingQueue<UbusResult>
    const abandonedIds: array<uint32>
    var abandonedCount: nat
    var stats: ResultStats
    var sequence: nat
    var closed: bool
    ghost var attempts: nat

    ghost function Abs(): ResultQ
      requires abandonedCount <= abandonedIds.Length
      reads this, ring, abandonedIds
    {
      ResultQ(ring.Abs(), abandonedIds[..abandonedCount], stats, attempts)
    }

    /** Holds inside an operation too. */
    ghost predicate Shape()
      reads this, ring, ring.buffer, abandonedIds
    {
      && ring.Valid() && ring.mergeFn == None
      && abandonedIds.Length == MAX_ABANDONED && abandonedCount <= MAX_ABANDONED
    }

    ghost predicate Valid()
      reads this, ring, ring.buffer, abandonedIds
    {
      Shape() && Accounted(Abs())
    }

    constructor (capacity: nat)
      requires capacity > 0
      ensures Valid() && Abs() == EmptyResults(capacity)
    {
      ring := new RingQueue.RingQueue<UbusResult>(capacity, None);
      abandonedIds := new uint32[16];
      abandonedCount, stats, sequence, closed, attempts := 0, ResultStats(0, 0, 0, 0), 0, false, 0;
      new;
      ring.SetOverflowPolicy(RejectNew);
    }

    /** The first position of id among the live ids, or abandonedCount. */
    method Find(id: uint32) returns (i: nat)
      requires Shape()
      ensures i == First(Abs().abandoned, (x: uint32) => x == id)
      ensures i < abandonedCount <==> id in Abs().abandoned
    {
      i := 0;
      while i < abandonedCount && abandonedIds[i] != id
        invariant 0 <= i <= abandonedCount
        invariant forall k :: 0 <= k < i ==> abandonedIds[k] != id
      {
        i := i + 1;
      }
      FirstIs(Abs().abandoned, (x: uint32) => x == id, i);
    }

    method Push(r: UbusResult) returns (answer: Answer)
      requires Valid()
      modifies this, ring, ring.buffer
      ensures Valid() && closed == old(closed)
      ensures (Abs(), answer) == Admit(old(Abs()), r)
      ensures sequence == old(sequence) + if answer.RqOk? then 1 else 0
    {
      PushAccounts(Abs(), r);
      answer := Offer(r);
    }

    method Offer(r: UbusResult) returns (answer: Answer)
      requires Shape()
      modifies this`stats, this`sequence, this`attempts, ring, ring.buffer
      ensures Shape()
      ensures (Abs(), answer) == Admit(old(Abs()), r)
      ensures sequence == old(sequence) + if answer.RqOk? then 1 else 0
    {
      var at := Find(r.requestId);
      attempts := attempts + 1;
      if at < abandonedCount {
        stats := stats.(dropsAbandoned := stats.dropsAbandoned + 1);
        return RqDropped;
      }
      var result := ring.Push(r);
      if result == Ok {
        stats := stats.(pushes := stats.pushes + 1);
        sequence := sequence + 1;
        return RqOk;
      }
      answer := Displace(r);
    }

    /** The second look at the abandoned list, under its lock, after the ring refused r. */
    method Displace(r: UbusResult) returns (answer: Answer)
      requires Shape()
      modifies this`stats, this`sequence, ring, ring.buffer
      ensures Shape()
      ensures (Abs(), answer) == GiveWay(old(Abs()), r)
      ensures sequence == old(sequence) + if answer.RqOk? then 1 else 0
    {
      var listed := abandonedIds[..abandonedCount];
      var replaced := ring.ReplaceFirstIf((x: UbusResult) => IsAbandoned(listed, x), r);
      if replaced {
        stats := stats.(pushes := stats.pushes + 1, dropsAbandoned := stats.dropsAbandoned + 1);
        sequence := sequence + 1;
        return RqOk;
      }
      stats := stats.(drops := stats.drops + 1);
      return RqDropped;
    }

    method TryPop() returns (out: Option<UbusResult>)
      requires Valid()
      modifies this, ring
      ensures Valid() && closed == old(closed) && sequence == old(sequence)
      ensures (Abs(), out) == PopResult(old(Abs()))
    {
      out := ring.Pop();
      if out.Some? {
        stats := stats.(pops := stats.pops + 1);
      }
    }

    method MarkAbandoned(id: uint32)
      requires Valid()
      modifies this`abandonedCount, abandonedIds
      ensures Valid() && Abs() == Mark(old(Abs()), id)
    {
      MarkAccounts(Abs(), id);
      if abandonedCount < MAX_ABANDONED {
        var i := Find(id);
        if i < abandonedCount {
          return;
        }
        abandonedIds[abandonedCount] := id;
        abandonedCount := abandonedCount + 1;
        assert abandonedIds[..abandonedCount] == old(abandonedIds[..abandonedCount]) + [id];
      }
    }

    method ClearAbandoned(id: uint32)
      requires Valid()
      modifies this`abandonedCount, abandonedIds
      ensures Valid() && Abs() == Clear(old(Abs()), id)
    {
      ClearAccounts(Abs(), id);
      var i := Find(id);
      if i < abandonedCount {
        MoveLastInto(i);
      }
    }

    method MoveLastInto(i: nat)
      requires Shape() && i < abandonedCount
      modifies this`abandonedCount, abandonedIds
      ensures Shape()
      ensures var ids := old(abandonedIds[..abandonedCount]);
        Abs() == old(Abs()).(abandoned := ids[i := ids[|ids| - 1]][..|ids| - 1])
    {
      abandonedIds[i] := abandonedIds[abandonedCount - 1];
      abandonedCount := abandonedCount - 1;
    }
  }
}
