/** What one ring operation does to the queue seen as a sequence (oldest first).
    Each operation runs under the ring's mutex, so it is one atomic step. */
module RingSpec {
  import opened Words
  import opened Seqs

  datatype Policy = OverwriteOldest | RejectNew | Coalesce
  datatype PushResult = Ok | Merged | Dropped
  datatype Stats = Stats(pushes: nat, pops: nat, overwrites: nat, drops: nat, merges: nat)

  /** merge(existing, incoming) is the updated element, or None when the two do not merge. */
  type MergeFn<!T> = (T, T) -> Option<T>

  datatype Ring<T> = Ring(items: seq<T>, capacity: nat, policy: Policy, stats: Stats)

  /** The least index whose element satisfies p, or |s| when there is none. */
  function First<T>(s: seq<T>, p: T -> bool): (i: nat)
    ensures i <= |s|
    ensures i < |s| ==> p(s[i])
    ensures forall j :: 0 <= j < i ==> !p(s[j])
  {
    if |s| == 0 || p(s[0]) then 0 else
      var k := First(s[1..], p);
      assert forall j :: 1 <= j < k + 1 ==> s[j] == s[1..][j - 1];
      k + 1
  }

  lemma FirstIs<T>(s: seq<T>, p: T -> bool, i: nat)
    requires i <= |s| && (i < |s| ==> p(s[i]))
    requires forall j :: 0 <= j < i ==> !p(s[j])
    ensures First(s, p) == i
  {
  }

  /** Where item is merged: the first element that accepts it, if the policy and the merge function allow it. */
  function FirstMerge<T>(items: seq<T>, policy: Policy, merge: Option<MergeFn<T>>, item: T): (i: nat)
    ensures i <= |items|
  {
    if policy.Coalesce? && merge.Some? then First(items, (x: T) => merge.value(x, item).Some?) else |items|
  }

  function Push<T>(r: Ring<T>, merge: Option<MergeFn<T>>, item: T): (Ring<T>, PushResult)
    requires r.capacity > 0
  {
    var n := r.stats.(pushes := r.stats.pushes + 1);
    var i := FirstMerge(r.items, r.policy, merge, item);
    if i < |r.items| then
      (r.(items := r.items[i := merge.value(r.items[i], item).value], stats := n.(merges := n.merges + 1)), Merged)
    else if |r.items| < r.capacity then
      (r.(items := r.items + [item], stats := n), Ok)
    else if r.policy.OverwriteOldest? && r.items != [] then
      (r.(items := r.items[1..] + [item], stats := n.(overwrites := n.overwrites + 1)), Ok)
    else
      (r.(stats := n.(drops := n.drops + 1)), Dropped)
  }

  function Pop<T>(r: Ring<T>): (Ring<T>, Option<T>) {
    if r.items == [] then (r, None)
    else (r.(items := r.items[1..], stats := r.stats.(pops := r.stats.pops + 1)), Some(r.items[0]))
  }

  function ReplaceFirst<T>(r: Ring<T>, match_: T -> bool, item: T): (Ring<T>, bool) {
    var i := First(r.items, match_);
    if i < |r.items| then (r.(items := r.items[i := item]), true) else (r, false)
  }

  ghost predicate Balanced(s: Stats, count: nat) {
    s.pushes == s.pops + s.overwrites + s.drops + s.merges + count
  }

  ghost predicate Valid<T>(r: Ring<T>) {
    0 < r.capacity && |r.items| <= r.capacity && Balanced(r.stats, |r.items|)
  }

  datatype Op<!T> = PushOp(item: T) | PopOp | ReplaceOp(match_: T -> bool, item: T) | PolicyOp(policy: Policy)

  function Step<T>(r: Ring<T>, merge: Option<MergeFn<T>>, op: Op<T>): Ring<T>
    requires r.capacity > 0
  {
    match op
    case PushOp(x) => Push(r, merge, x).0
    case PopOp => Pop(r).0
    case ReplaceOp(m, x) => ReplaceFirst(r, m, x).0
    case PolicyOp(p) => r.(policy := p)
  }

  function Run<T>(r: Ring<T>, merge: Option<MergeFn<T>>, ops: seq<Op<T>>): (r': Ring<T>)
    requires r.capacity > 0
    ensures r'.capacity == r.capacity
    decreases |ops|
  {
    if ops == [] then r else
      assert Step(r, merge, ops[0]).capacity == r.capacity;
      Run(Step(r, merge, ops[0]), merge, ops[1..])
  }

  /** Every push is accounted for exactly once, whatever operations follow one another,
      and whatever policy is in force at each of them. */
  lemma {:induction false} RunKeepsAccounts<T>(r: Ring<T>, merge: Option<MergeFn<T>>, ops: seq<Op<T>>)
    requires Valid(r)
    ensures Valid(Run(r, merge, ops))
    decreases |ops|
  {
    if ops != [] {
      RunKeepsAccounts(Step(r, merge, ops[0]), merge, ops[1..]);
    }
  }

  /** The elements a run hands to the consumer, in order. */
  function Delivered<T>(r: Ring<T>, merge: Option<MergeFn<T>>, ops: seq<Op<T>>): seq<T>
    requires r.capacity > 0
    decreases |ops|
  {
    if ops == [] then [] else
      (if ops[0].PopOp? && r.items != [] then [r.items[0]] else []) + Delivered(Step(r, merge, ops[0]), merge, ops[1..])
  }

  /** The elements whose push answered Ok, in order. */
  function Accepted<T>(r: Ring<T>, merge: Option<MergeFn<T>>, ops: seq<Op<T>>): seq<T>
    requires r.capacity > 0
    decreases |ops|
  {
    if ops == [] then [] else
      (if ops[0].PushOp? && Push(r, merge, ops[0].item).1.Ok? then [ops[0].item] else [])
      + Accepted(Step(r, merge, ops[0]), merge, ops[1..])
  }

  ghost predicate QueueOps<T>(ops: seq<Op<T>>) {
    forall i :: 0 <= i < |ops| ==> ops[i].PushOp? || ops[i].PopOp?
  }

  /** A ring that rejects when full is a FIFO: what was delivered, then what is queued,
      is exactly what was queued before, then what was accepted. */
  lemma {:induction false} RejectIsFifo<T>(r: Ring<T>, merge: Option<MergeFn<T>>, ops: seq<Op<T>>)
    requires r.capacity > 0 && r.policy.RejectNew? && QueueOps(ops)
    ensures Delivered(r, merge, ops) + Run(r, merge, ops).items == r.items + Accepted(r, merge, ops)
    decreases |ops|
  {
    if ops != [] {
      var r1 := Step(r, merge, ops[0]);
      RejectIsFifo(r1, merge, ops[1..]);
      var d, a := Delivered(r1, merge, ops[1..]), Accepted(r1, merge, ops[1..]);
      var q := Run(r1, merge, ops[1..]).items;
      assert ops[0].PushOp? || ops[0].PopOp?;
      if ops[0].PopOp? && r.items != [] {
        Assoc([r.items[0]], d, q);
        Assoc([r.items[0]], r1.items, a);
        assert r.items == [r.items[0]] + r1.items;
      } else if ops[0].PushOp? && Push(r, merge, ops[0].item).1.Ok? {
        Assoc(r.items, [ops[0].item], a);
        assert Delivered(r, merge, ops) == [] + d == d;
      } else {
        assert r1.items == r.items;
        assert Delivered(r, merge, ops) == [] + d == d;
        assert Accepted(r, merge, ops) == [] + a == a;
      }
    }
  }

  function Pushed<T>(ops: seq<Op<T>>): seq<T> {
    if ops == [] then [] else (if ops[0].PushOp? then [ops[0].item] else []) + Pushed(ops[1..])
  }

  /** The operation takes the oldest element away. */
  predicate Evicts<T>(r: Ring<T>, op: Op<T>) {
    if op.PopOp? then r.items != [] else |r.items| == r.capacity
  }

  /** One operation of an overwriting ring: what it held or is yet to be pushed, less what it evicts. */
  lemma OverwriteOne<T>(r: Ring<T>, merge: Option<MergeFn<T>>, op: Op<T>, rest: seq<T>)
    requires Valid(r) && r.policy.OverwriteOldest? && (op.PushOp? || op.PopOp?)
    ensures var whole := r.items + ((if op.PushOp? then [op.item] else []) + rest);
      var lost := if Evicts(r, op) then 1 else 0;
      lost <= |whole| && whole[lost..] == Step(r, merge, op).items + rest
  {
    var lost := if Evicts(r, op) then 1 else 0;
    if op.PopOp? {
      assert [] + rest == rest;
      DropLeft(r.items, rest, lost);
    } else {
      Assoc(r.items, [op.item], rest);
      DropLeft(r.items + [op.item], rest, lost);
      DropLeft(r.items, [op.item], lost);
    }
  }

  /** A ring that overwrites the oldest refuses nothing. */
  lemma {:induction false} OverwriteAcceptsAll<T>(r: Ring<T>, merge: Option<MergeFn<T>>, ops: seq<Op<T>>)
    requires Valid(r) && r.policy.OverwriteOldest? && QueueOps(ops)
    ensures Accepted(r, merge, ops) == Pushed(ops)
    decreases |ops|
  {
    if ops != [] {
      assert ops[0].PushOp? || ops[0].PopOp?;
      OverwriteAcceptsAll(Step(r, merge, ops[0]), merge, ops[1..]);
    }
  }

  /** It keeps the newest elements: the queue is always a suffix of what was queued before, then pushed. */
  lemma {:induction false} OverwriteKeepsNewest<T>(r: Ring<T>, merge: Option<MergeFn<T>>, ops: seq<Op<T>>)
    returns (k: nat)
    requires Valid(r) && r.policy.OverwriteOldest? && QueueOps(ops)
    ensures k <= |r.items + Pushed(ops)|
    ensures Run(r, merge, ops).items == (r.items + Pushed(ops))[k..]
    decreases |ops|
  {
    k := 0;
    if ops == [] {
      assert (r.items + Pushed(ops))[0..] == r.items;
    } else {
      assert ops[0].PushOp? || ops[0].PopOp?;
      var k1 := OverwriteKeepsNewest(Step(r, merge, ops[0]), merge, ops[1..]);
      var lost := if Evicts(r, ops[0]) then 1 else 0;
      k := k1 + lost;
      OverwriteOne(r, merge, ops[0], Pushed(ops[1..]));
      DropDrop(r.items + Pushed(ops), lost, k1);
    }
  }

  /** The meaning of a push, case by case, in terms of the old contents only. */
  lemma PushMeaning<T(!new)>(r: Ring<T>, merge: Option<MergeFn<T>>, item: T)
    requires Valid(r)
    ensures var (r', res) := Push(r, merge, item);
      && (res.Merged? <==>
           r.policy.Coalesce? && merge.Some? && exists i :: 0 <= i < |r.items| && merge.value(r.items[i], item).Some?)
      && (res.Merged? ==> exists i :: 0 <= i < |r.items| && MergedAt(r.items, r'.items, merge.value, item, i))
      && (res.Ok? && |r.items| < r.capacity ==> r'.items == r.items + [item])
      && (res.Ok? && |r.items| == r.capacity ==> r.policy.OverwriteOldest? && r'.items == r.items[1..] + [item])
      && (res.Dropped? ==> |r.items| == r.capacity && !r.policy.OverwriteOldest? && r'.items == r.items)
      && Valid(r')
  {
    var i := FirstMerge(r.items, r.policy, merge, item);
    if i < |r.items| {
      assert MergedAt(r.items, Push(r, merge, item).0.items, merge.value, item, i);
    }
  }

  /** after is before with the first element that accepts item, at i, updated in place. */
  ghost predicate MergedAt<T(!new)>(before: seq<T>, after: seq<T>, merge: MergeFn<T>, item: T, i: nat)
    requires i < |before|
  {
    && merge(before[i], item).Some?
    && (forall j :: 0 <= j < i ==> merge(before[j], item).None?)
    && after == before[i := merge(before[i], item).value]
  }
}

/** The ring itself: a buffer indexed modulo its capacity. */
module RingQueue {
  import opened Words
  import opened RingSpec

  /** `i % n` for the indices the ring computes, which stay below 2n. */
  function Wrap(i: nat, n: nat): nat
    requires i < 2 * n
  {
    if i < n then i else i - n
  }

  lemma WrapIsModulo(i: nat, n: nat)
    requires i < 2 * n
    ensures Wrap(i, n) == i % n
  {
    var q := i / n;
    assert i == n * q + i % n;
    if q == 0 {
    } else if q >= 2 {
      Times(n, q);
    }
  }

  lemma Times(n: nat, q: nat)
    requires q >= 2
    ensures n * q >= 2 * n
  {
  }

  /** items lies in buffer from index head on, wrapping round. */
  ghost predicate Holds<T>(buffer: seq<T>, head: nat, items: seq<T>) {
    && head < |buffer| && |items| <= |buffer|
    && forall i :: 0 <= i < |items| ==> items[i] == buffer[Wrap(head + i, |buffer|)]
  }

  lemma HoldsAppended<T>(buffer: seq<T>, head: nat, items: seq<T>, item: T)
    requires Holds(buffer, head, items) && |items| < |buffer|
    ensures Holds(buffer[Wrap(head + |items|, |buffer|) := item], head, items + [item])
  {
  }

  lemma HoldsOverwritten<T>(buffer: seq<T>, head: nat, items: seq<T>, item: T)
    requires Holds(buffer, head, items) && |items| == |buffer|
    ensures Holds(buffer[head := item], Wrap(head + 1, |buffer|), items[1..] + [item])
  {
  }

  lemma HoldsUpdated<T>(buffer: seq<T>, head: nat, items: seq<T>, i: nat, item: T)
    requires Holds(buffer, head, items) && i < |items|
    ensures Holds(buffer[Wrap(head + i, |buffer|) := item], head, items[i := item])
  {
  }

  class RingQueue<T(0)> {
    const buffer: array<T>
    var head: nat
    var tail: nat
    var count: nat
    var policy: Policy
    const mergeFn: Option<MergeFn<T>>
    var stats: Stats
    ghost var items: seq<T>  // the live elements, oldest first

    /** The indices agree with the live elements; holds inside an operation too. */
    ghost predicate Shape()
      reads this, buffer
    {
      && head < buffer.Length && tail < buffer.Length && count <= buffer.Length
      && tail == Wrap(head + count, buffer.Length)
      && |items| == count && Holds(buffer[..], head, items)
    }

    ghost predicate Valid()
      reads this, buffer
    {
      Shape() && Balanced(stats, count)
    }

    /** The queue this buffer stands for. */
    ghost function Abs(): (r: Ring<T>)
      reads this
    {
      Ring(items, buffer.Length, policy, stats)
    }

    /** ring_queue_init followed by ring_queue_set_merge_fn. */
    constructor (capacity: nat, mergeFn: Option<MergeFn<T>>)
      requires capacity > 0
      ensures Valid() && fresh(buffer)
      ensures Abs() == Ring([], capacity, OverwriteOldest, Stats(0, 0, 0, 0, 0)) && this.mergeFn == mergeFn
    {
      buffer := new T[capacity];
      head, tail, count := 0, 0, 0;
      policy, stats := OverwriteOldest, Stats(0, 0, 0, 0, 0);
      this.mergeFn := mergeFn;
      items := [];
    }

    method SetOverflowPolicy(p: Policy)
      requires Valid()
      modifies this`policy
      ensures Valid() && Abs() == old(Abs()).(policy := p)
    {
      policy := p;
    }

    /** Offers item to the live elements in FIFO order; the first that accepts it absorbs it. */
    method TryMerge(item: T) returns (merged: bool)
      requires Shape()
      modifies this`stats, this`items, buffer
      ensures Shape()
      ensures var i, was := FirstMerge(old(items), policy, mergeFn, item), old(Abs());
        && merged == (i < count)
        && Abs() == if merged
           then was.(items := was.items[i := mergeFn.value(was.items[i], item).value],
                     stats := was.stats.(merges := was.stats.merges + 1))
           else was
    {
      if policy != Coalesce || mergeFn.None? || count == 0 {
        return false;
      }
      ghost var target := FirstMerge(items, policy, mergeFn, item);
      var i := 0;
      while i < count
        invariant 0 <= i <= count && i <= target
        invariant Shape() && Abs() == old(Abs())
      {
        var idx := Wrap(head + i, buffer.Length);
        assert items[i] == buffer[idx];
        var updated := mergeFn.value(buffer[idx], item);
        if updated.Some? {
          assert i == target;
          HoldsUpdated(buffer[..], head, items, i, updated.value);
          buffer[idx] := updated.value;
          items := items[i := updated.value];
          stats := stats.(merges := stats.merges + 1);
          return true;
        }
        i := i + 1;
      }
      return false;
    }

    /** The write at the tail of a ring with room. */
    method Append(item: T)
      requires Shape() && count < buffer.Length
      modifies this`tail, this`count, this`items, buffer
      ensures Shape() && Abs() == old(Abs()).(items := old(items) + [item])
    {
      HoldsAppended(buffer[..], head, items, item);
      buffer[tail] := item;
      tail := Wrap(tail + 1, buffer.Length);
      count := count + 1;
      items := items + [item];
    }

    /** The write at the tail of a full ring: head and tail move on together. */
    method Overwrite(item: T)
      requires Shape() && count == buffer.Length
      modifies this`head, this`tail, this`items, buffer
      ensures Shape() && Abs() == old(Abs()).(items := old(items)[1..] + [item])
    {
      HoldsOverwritten(buffer[..], head, items, item);
      buffer[tail] := item;
      tail := Wrap(tail + 1, buffer.Length);
      head := tail;
      items := items[1..] + [item];
    }

    method Push(item: T) returns (result: PushResult)
      requires Valid()
      modifies this`head, this`tail, this`count, this`stats, this`items, buffer
      ensures Valid()
      ensures (Abs(), result) == RingSpec.Push(old(Abs()), mergeFn, item)
    {
      stats := stats.(pushes := stats.pushes + 1);
      var merged := TryMerge(item);
      if merged {
        return Merged;
      }
      if count == buffer.Length {
        if policy == OverwriteOldest {
          Overwrite(item);
          stats := stats.(overwrites := stats.overwrites + 1);
          return Ok;
        }
        stats := stats.(drops := stats.drops + 1);
        return Dropped;
      }
      Append(item);
      return Ok;
    }

    method Pop() returns (out: Option<T>)
      requires Valid()
      modifies this`head, this`count, this`stats, this`items
      ensures Valid()
      ensures (Abs(), out) == RingSpec.Pop(old(Abs()))
    {
      if count == 0 {
        return None;
      }
      out := Some(buffer[head]);
      head := Wrap(head + 1, buffer.Length);
      count := count - 1;
      items := items[1..];
      stats := stats.(pops := stats.pops + 1);
    }

    method ReplaceFirstIf(match_: T -> bool, item: T) returns (replaced: bool)
      requires Valid()
      modifies this`items, buffer
      ensures Valid()
      ensures (Abs(), replaced) == RingSpec.ReplaceFirst(old(Abs()), match_, item)
    {
      if count == 0 {
        return false;
      }
      var i := 0;
      while i < count
        invariant 0 <= i <= count && i <= First(items, match_)
        invariant Valid() && Abs() == old(Abs())
      {
        var idx := Wrap(head + i, buffer.Length);
        assert items[i] == buffer[idx];
        if match_(buffer[idx]) {
          HoldsUpdated(buffer[..], head, items, i, item);
          buffer[idx] := item;
          items := items[i := item];
          return true;
        }
        i := i + 1;
      }
      return false;
    }
  }
}
