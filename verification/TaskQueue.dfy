/** ubus tasks: one queued task per (service, action), the newest request winning. */
module Tasks {
  import opened Words
  import opened RingSpec

  datatype Action = Start | Stop | Query
  datatype Task = Task(service: string, action: Action, requestId: uint32, timeoutMs: uint32, enqueueMs: nat)
  type Key = (string, Action)

  function KeyOf(t: Task): Key {
    (t.service, t.action)
  }

  function MergeTask(existing: Task, incoming: Task): Option<Task> {
    if existing.action == incoming.action && existing.service == incoming.service then
      Some(existing.(requestId := incoming.requestId, timeoutMs := incoming.timeoutMs, enqueueMs := incoming.enqueueMs))
    else None
  }

  /** The subtraction is unsigned: a task from the future counts as expired. */
  predicate IsExpired(t: Task, nowMs: nat) {
    t.timeoutMs != 0 && Sub64(nowMs, t.enqueueMs) > t.timeoutMs
  }

  /** On a clock that does not run backwards, a task expires exactly when it is older than its timeout. */
  lemma ExpiredMeansLate(t: Task, nowMs: nat)
    requires t.enqueueMs <= nowMs < U64
    ensures IsExpired(t, nowMs) <==> 0 < t.timeoutMs && t.enqueueMs + t.timeoutMs < nowMs
  {
  }

  datatype Entry = Accepted(task: Task) | Popped(task: Task)

  /** The queue and the log of what was accepted and popped so far. */
  datatype TaskQ = TaskQ(ring: Ring<Task>, log: seq<Entry>)

  function EmptyQ(capacity: nat): TaskQ {
    TaskQ(Ring([], capacity, Coalesce, Stats(0, 0, 0, 0, 0)), [])
  }

  function PushTask(q: TaskQ, t: Task): (TaskQ, PushResult)
    requires q.ring.capacity > 0
  {
    var (r, res) := Push(q.ring, Some(MergeTask), t);
    (TaskQ(r, if res.Dropped? then q.log else q.log + [Accepted(t)]), res)
  }

  function PopTask(q: TaskQ): (TaskQ, Option<Task>) {
    var (r, out) := Pop(q.ring);
    (TaskQ(r, if out.None? then q.log else q.log + [Popped(out.value)]), out)
  }

  /** What the log says is wanted for a key: its last accepted task, unless that was popped. */
  function LastIntent(log: seq<Entry>, k: Key): Option<Task> {
    if log == [] then None else
      var e := log[|log| - 1];
      if KeyOf(e.task) != k then LastIntent(log[..|log| - 1], k)
      else if e.Accepted? then Some(e.task) else None
  }

  function Lookup(items: seq<Task>, k: Key): Option<Task> {
    if items == [] then None
    else if KeyOf(items[0]) == k then Some(items[0])
    else Lookup(items[1..], k)
  }

  ghost predicate DistinctKeys(items: seq<Task>) {
    forall i, j :: 0 <= i < j < |items| ==> KeyOf(items[i]) != KeyOf(items[j])
  }

  /** What was popped was the intent of its moment. */
  ghost predicate PopsOk(log: seq<Entry>) {
    forall j :: 0 <= j < |log| && log[j].Popped? ==> LastIntent(log[..j], KeyOf(log[j].task)) == Some(log[j].task)
  }

  /** The queue holds exactly the outstanding intents, each once. */
  ghost predicate IntentInv(q: TaskQ) {
    && RingSpec.Valid(q.ring) && q.ring.policy.Coalesce?
    && DistinctKeys(q.ring.items)
    && (forall k :: Lookup(q.ring.items, k) == LastIntent(q.log, k))
    && PopsOk(q.log)
  }

  lemma {:induction false} LookupAt(items: seq<Task>, i: nat)
    requires DistinctKeys(items) && i < |items|
    ensures Lookup(items, KeyOf(items[i])) == Some(items[i])
  {
    if i > 0 {
      assert KeyOf(items[0]) != KeyOf(items[i]);
      LookupAt(items[1..], i - 1);
    }
  }

  lemma {:induction false} LookupAbsent(items: seq<Task>, k: Key)
    ensures Lookup(items, k).None? <==> forall i :: 0 <= i < |items| ==> KeyOf(items[i]) != k
  {
    if items != [] {
      LookupAbsent(items[1..], k);
      assert forall i :: 1 <= i < |items| ==> items[i] == items[1..][i - 1];
    }
  }

  lemma {:induction false} LookupAppend(items: seq<Task>, t: Task, k: Key)
    ensures Lookup(items + [t], k) ==
      if Lookup(items, k).Some? then Lookup(items, k) else if KeyOf(t) == k then Some(t) else None
  {
    if items == [] {
      assert items + [t] == [t] && [t][1..] == [];
    } else {
      assert (items + [t])[1..] == items[1..] + [t];
      LookupAppend(items[1..], t, k);
    }
  }

  lemma {:induction false} LookupUpdate(items: seq<Task>, i: nat, t: Task, k: Key)
    requires DistinctKeys(items) && i < |items| && KeyOf(t) == KeyOf(items[i])
    ensures Lookup(items[i := t], k) == if KeyOf(t) == k then Some(t) else Lookup(items, k)
  {
    if i > 0 {
      assert KeyOf(items[0]) != KeyOf(items[i]);
      assert items[i := t][1..] == items[1..][i - 1 := t];
      LookupUpdate(items[1..], i - 1, t, k);
    } else {
      assert items[0 := t][1..] == items[1..];
    }
  }

  lemma LogGrows(log: seq<Entry>, e: Entry, k: Key)
    ensures LastIntent(log + [e], k) ==
      if KeyOf(e.task) != k then LastIntent(log, k) else if e.Accepted? then Some(e.task) else None
  {
    assert (log + [e])[..|log|] == log;
  }

  lemma PopsGrow(log: seq<Entry>, e: Entry)
    requires PopsOk(log)
    requires e.Popped? ==> LastIntent(log, KeyOf(e.task)) == Some(e.task)
    ensures PopsOk(log + [e])
  {
    var log' := log + [e];
    forall j | 0 <= j < |log'| && log'[j].Popped?
      ensures LastIntent(log'[..j], KeyOf(log'[j].task)) == Some(log'[j].task)
    {
      assert log'[..j] == log[..j];
    }
  }

  /** A push is refused exactly when the queue is full of other keys; otherwise it becomes the intent of its key. */
  lemma PushKeepsIntent(q: TaskQ, t: Task)
    requires IntentInv(q)
    ensures IntentInv(PushTask(q, t).0)
    ensures PushTask(q, t).1.Dropped? <==> |q.ring.items| == q.ring.capacity && Lookup(q.ring.items, KeyOf(t)).None?
    ensures PushTask(q, t).1.Merged? <==> Lookup(q.ring.items, KeyOf(t)).Some?
    ensures !PushTask(q, t).1.Dropped? ==> Lookup(PushTask(q, t).0.ring.items, KeyOf(t)) == Some(t)
  {
    var (q', res) := PushTask(q, t);
    var items := q.ring.items;
    var i := FirstMerge(items, Coalesce, Some(MergeTask), t);
    LookupAbsent(items, KeyOf(t));
    if i < |items| {
      assert MergeTask(items[i], t).Some?;
      LookupAt(items, i);
      assert q'.ring.items == items[i := t];
      forall k ensures Lookup(q'.ring.items, k) == LastIntent(q'.log, k) {
        LookupUpdate(items, i, t, k);
        LogGrows(q.log, Accepted(t), k);
      }
      PopsGrow(q.log, Accepted(t));
    } else {
      forall j | 0 <= j < |items| ensures KeyOf(items[j]) != KeyOf(t) {
        assert MergeTask(items[j], t).None?;
      }
      if res.Ok? {
        forall k ensures Lookup(q'.ring.items, k) == LastIntent(q'.log, k) {
          LookupAppend(items, t, k);
          LogGrows(q.log, Accepted(t), k);
        }
        PopsGrow(q.log, Accepted(t));
        LookupAppend(items, t, KeyOf(t));
      }
    }
  }

  lemma PopKeepsIntent(q: TaskQ)
    requires IntentInv(q)
    ensures IntentInv(PopTask(q).0)
    ensures PopTask(q).1.Some? ==> LastIntent(q.log, KeyOf(PopTask(q).1.value)) == PopTask(q).1
  {
    var items := q.ring.items;
    if items != [] {
      var q' := PopTask(q).0;
      LookupAt(items, 0);
      forall k ensures Lookup(q'.ring.items, k) == LastIntent(q'.log, k) {
        LogGrows(q.log, Popped(items[0]), k);
        LookupAbsent(items[1..], KeyOf(items[0]));
        assert forall i :: 1 <= i < |items| ==> items[i] == items[1..][i - 1];
      }
      PopsGrow(q.log, Popped(items[0]));
    }
  }

  datatype Op = PushOp(task: Task) | PopOp

  /** Any interleaving of the callers' lock regions is one sequence of operations. */
  function Run(q: TaskQ, ops: seq<Op>): (q': TaskQ)
    requires q.ring.capacity > 0
    ensures q'.ring.capacity == q.ring.capacity
    decreases |ops|
  {
    if ops == [] then q
    else if ops[0].PushOp? then Run(PushTask(q, ops[0].task).0, ops[1..])
    else Run(PopTask(q).0, ops[1..])
  }

  lemma {:induction false} RunKeepsIntent(q: TaskQ, ops: seq<Op>)
    requires IntentInv(q)
    ensures IntentInv(Run(q, ops))
    decreases |ops|
  {
    if ops != [] {
      if ops[0].PushOp? {
        PushKeepsIntent(q, ops[0].task);
        RunKeepsIntent(PushTask(q, ops[0].task).0, ops[1..]);
      } else {
        PopKeepsIntent(q);
        RunKeepsIntent(PopTask(q).0, ops[1..]);
      }
    }
  }

  lemma {:induction false} IntentStands(log: seq<Entry>, i: nat)
    requires i < |log| && log[i].Accepted?
    requires forall j :: i < j < |log| ==> KeyOf(log[j].task) != KeyOf(log[i].task)
    ensures LastIntent(log, KeyOf(log[i].task)) == Some(log[i].task)
    decreases |log|
  {
    if i < |log| - 1 {
      IntentStands(log[..|log| - 1], i);
    }
  }

  /** Every accepted request is still queued as it was sent, or it was superseded by a later accepted
      push with its key, or it was popped as it was sent. */
  lemma RequestIsNotLost(capacity: nat, ops: seq<Op>, i: nat)
    requires capacity > 0 && i < |Run(EmptyQ(capacity), ops).log| && Run(EmptyQ(capacity), ops).log[i].Accepted?
    ensures var q := Run(EmptyQ(capacity), ops);
      var t := q.log[i].task;
      || t in q.ring.items
      || exists j :: i < j < |q.log| && KeyOf(q.log[j].task) == KeyOf(t) && (q.log[j].Popped? ==> q.log[j].task == t)
  {
    var q := Run(EmptyQ(capacity), ops);
    RunKeepsIntent(EmptyQ(capacity), ops);
    var t := q.log[i].task;
    if exists j :: i < j < |q.log| && KeyOf(q.log[j].task) == KeyOf(t) {
      var j := FirstAfter(q.log, i);
      if q.log[j].Popped? {
        var before := q.log[..j];
        assert before[i] == q.log[i];
        IntentStands(before, i);
      }
    } else {
      IntentStands(q.log, i);
      LookupMember(q.ring.items, KeyOf(t));
    }
  }

  lemma {:induction false} LookupMember(items: seq<Task>, k: Key)
    ensures Lookup(items, k).Some? ==> Lookup(items, k).value in items && KeyOf(Lookup(items, k).value) == k
  {
    if items != [] {
      LookupMember(items[1..], k);
    }
  }

  lemma FirstAfter(log: seq<Entry>, i: nat) returns (j: nat)
    requires i < |log| && exists j :: i < j < |log| && KeyOf(log[j].task) == KeyOf(log[i].task)
    ensures i < j < |log| && KeyOf(log[j].task) == KeyOf(log[i].task)
    ensures forall m :: i < m < j ==> KeyOf(log[m].task) != KeyOf(log[i].task)
  {
    j := i + 1;
    while KeyOf(log[j].task) != KeyOf(log[i].task)
      invariant i < j < |log|
      invariant forall m :: i < m < j ==> KeyOf(log[m].task) != KeyOf(log[i].task)
      invariant exists n :: j <= n < |log| && KeyOf(log[n].task) == KeyOf(log[i].task)
      decreases |log| - j
    {
      j := j + 1;
    }
  }
}

module TaskQueue {
  import opened Words
  import opened RingSpec
  import opened Tasks
  import RingQueue

  datatype TaskStats = TaskStats(pushes: nat, pops: nat, drops: nat, merges: nat, expired: nat)

  class TaskQueue {
    const ring: RingQueue.RingQueue<Task>
    var stats: TaskStats
    var sequence: nat
    var closed: bool
    ghost var log: seq<Entry>

    ghost function Abs(): TaskQ
      reads this, ring
    {
      TaskQ(ring.Abs(), log)
    }

    ghost predicate Valid()
      reads this, ring, ring.buffer
    {
      && ring.Valid() && ring.mergeFn == Some(MergeTask) && IntentInv(Abs())
      && stats.pushes == stats.pops + ring.count
      && stats.pushes + stats.merges + stats.drops == ring.stats.pushes
    }

    constructor (capacity: nat)
      requires capacity > 0
      ensures Valid() && Abs() == EmptyQ(capacity) && fresh(ring) && fresh(ring.buffer)
    {
      ring := new RingQueue.RingQueue<Task>(capacity, Some(MergeTask));
      stats := TaskStats(0, 0, 0, 0, 0);
      sequence, closed, log := 0, false, [];
      new;
      ring.SetOverflowPolicy(Coalesce);
    }

    method Push(task: Task) returns (result: PushResult)
      requires Valid()
      modifies this, ring, ring.buffer
      ensures Valid() && closed == old(closed)
      ensures (Abs(), result) == PushTask(old(Abs()), task)
      ensures sequence == old(sequence) + if result.Dropped? then 0 else 1
    {
      PushKeepsIntent(Abs(), task);
      result := ring.Push(task);
      match result
      case Ok =>
        stats := stats.(pushes := stats.pushes + 1);
        log := log + [Accepted(task)];
        sequence := sequence + 1;
      case Merged =>
        stats := stats.(merges := stats.merges + 1);
        log := log + [Accepted(task)];
        sequence := sequence + 1;
      case Dropped =>
        stats := stats.(drops := stats.drops + 1);
    }

    method TryPop() returns (out: Option<Task>)
      requires Valid()
      modifies this, ring
      ensures Valid() && closed == old(closed) && sequence == old(sequence)
      ensures (Abs(), out) == PopTask(old(Abs()))
    {
      PopKeepsIntent(Abs());
      out := ring.Pop();
      if out.Some? {
        stats := stats.(pops := stats.pops + 1);
        log := log + [Popped(out.value)];
      }
    }
  }
}
