/** Any number of producers and closers against the one consumer of an event queue. Each step is one
    ring operation, one atomic access, or one lock, signal or unlock, in the order of the C text;
    a run is any interleaving of steps. */
module EventWait {
  import opened Words
  import opened Events

  /** Where a producer or closer stands inside event_queue_push, event_queue_close and event_queue_signal. */
  datatype ThreadPc =
    | Idle
    | Displacing(event: Event)  // its ring push was refused; about to look for a tick to replace
    | Publishing                // the ring or `closed` has changed; `seq` not yet incremented
    | Bumped                    // `seq` incremented; waits for wait_lock
    | Locked                    // holds wait_lock; has not signalled
    | Signalled                 // holds wait_lock; has signalled

  /** Where the consumer stands inside event_queue_wait; snap is its local copy of `seq`. */
  datatype ConsumerPc =
    | Outside
    | Enter
    | Scan(snap: nat)
    | CheckClosed(snap: nat)
    | Acquire(snap: nat)
    | ScanLocked(snap: nat)
    | CheckClosedLocked(snap: nat)
    | CompareSeq(snap: nat)
    | TestSeq(snap: nat)
    | TestClosed(snap: nat)
    | Sleepy(snap: nat)                    // both tests passed; about to call cond_wait
    | Sleeping(snap: nat)                  // inside cond_wait, wait_lock released
    | Waking(snap: nat, timedOut: bool)    // woken; waits for wait_lock
    | Resync(timedOut: bool)               // about to reload `seq`
    | Release(snap: nat, timedOut: bool)   // about to unlock and return or loop

  datatype Lock = Free | HeldByConsumer | HeldBy(thread: nat)

  /** answer is what the last wait returned: the event with 1, None with 0. expired records whether the deadline
      of the current wait has passed during a sleep. */
  datatype State = State(
    l: Ledger, seq_: nat, closed: bool, lock: Lock,
    threads: map<nat, ThreadPc>, consumer: ConsumerPc, timeout: int, answer: Option<Event>, expired: bool)

  datatype Step =
    | PushStep(t: nat, event: Event)
    | DisplaceStep(t: nat)
    | CloseStep(t: nat)
    | BumpStep(t: nat)
    | LockStep(t: nat)
    | SignalStep(t: nat)
    | UnlockStep(t: nat)
    | TryPopStep
    | WaitCall(timeout: int)
    | ConsumerStep
    | SpuriousStep
    | TimeoutStep

  predicate At(s: State, t: nat, pc: ThreadPc) {
    t in s.threads && s.threads[t] == pc
  }

  predicate Enabled(s: State, step: Step) {
    match step
    case PushStep(t, _) => At(s, t, Idle)
    case DisplaceStep(t) => t in s.threads && s.threads[t].Displacing?
    case CloseStep(t) => At(s, t, Idle)
    case BumpStep(t) => At(s, t, Publishing)
    case LockStep(t) => At(s, t, Bumped) && s.lock.Free?
    case SignalStep(t) => At(s, t, Locked)
    case UnlockStep(t) => At(s, t, Signalled)
    case TryPopStep => s.consumer.Outside?
    case WaitCall(_) => s.consumer.Outside?
    case ConsumerStep => !s.consumer.Outside?
      && !s.consumer.Sleeping? && (s.consumer.Acquire? || s.consumer.Waking? ==> s.lock.Free?)
    case SpuriousStep => s.consumer.Sleeping?
    case TimeoutStep => s.consumer.Sleeping? && s.timeout >= 0
  }

  function Goto(s: State, t: nat, pc: ThreadPc): State {
    s.(threads := s.threads[t := pc])
  }

  function Apply(s: State, step: Step): State
    requires Enabled(s, step) && s.l.ring.capacity > 0
  {
    match step
    case PushStep(t, e) =>
      var (l, res) := Offer(s.l, e);
      Goto(s, t, if !res.Dropped? then Publishing else if IsTick(e) then Idle else Displacing(e)).(l := l)
    case DisplaceStep(t) =>
      var (l, done) := Displace(s.l, s.threads[t].event);
      Goto(s, t, if done then Publishing else Idle).(l := l)
    case CloseStep(t) => Goto(s, t, Publishing).(closed := true)
    case BumpStep(t) => Goto(s, t, Bumped).(seq_ := s.seq_ + 1)
    case LockStep(t) => Goto(s, t, Locked).(lock := HeldBy(t))
    case SignalStep(t) =>
      Goto(s, t, Signalled).(consumer := if s.consumer.Sleeping? then Waking(s.consumer.snap, false) else s.consumer)
    case UnlockStep(t) => Goto(s, t, Idle).(lock := Free)
    case TryPopStep => s.(l := Take(s.l).0)
    case WaitCall(timeout) => s.(consumer := Enter, timeout := timeout, expired := false)
    case ConsumerStep => Consume(s)
    case SpuriousStep => s.(consumer := Waking(s.consumer.snap, false))
    case TimeoutStep => s.(consumer := Waking(s.consumer.snap, true), expired := true)
  }

  function Return(s: State, answer: Option<Event>): State {
    s.(consumer := Outside, answer := answer)
  }

  /** The consumer's next step inside event_queue_wait. */
  function Consume(s: State): State
    requires Enabled(s, ConsumerStep)
  {
    match s.consumer
    case Enter => s.(consumer := Scan(s.seq_))
    case Scan(n) =>
      var (l, out) := Take(s.l);
      if out.Some? then Return(s.(l := l), out) else s.(consumer := CheckClosed(n))
    case CheckClosed(n) => if s.closed || s.timeout == 0 then Return(s, None) else s.(consumer := Acquire(n))
    case Acquire(n) => s.(lock := HeldByConsumer, consumer := ScanLocked(n))
    case ScanLocked(n) =>
      var (l, out) := Take(s.l);
      if out.Some? then Return(s.(l := l, lock := Free), out) else s.(consumer := CheckClosedLocked(n))
    case CheckClosedLocked(n) =>
      if s.closed then Return(s.(lock := Free), None) else s.(consumer := CompareSeq(n))
    case CompareSeq(n) => s.(consumer := if s.seq_ != n then Resync(false) else TestSeq(n))
    case TestSeq(n) => s.(consumer := if s.seq_ == n then TestClosed(n) else Resync(false))
    case TestClosed(n) => s.(consumer := if !s.closed then Sleepy(n) else Resync(false))
    case Sleepy(n) => s.(lock := Free, consumer := Sleeping(n))
    case Waking(n, timedOut) =>
      s.(lock := HeldByConsumer, consumer := if timedOut then Resync(true) else TestSeq(n))
    case Resync(timedOut) => s.(consumer := Release(s.seq_, timedOut))
    case Release(n, timedOut) =>
      if timedOut then Return(s.(lock := Free), None) else s.(lock := Free, consumer := Scan(n))
  }

  function Init(capacity: nat, threads: set<nat>): State {
    State(Empty(capacity), 0, false, Free, map t | t in threads :: Idle, Outside, 0, None, false)
  }

  ghost predicate Feasible(s: State, steps: seq<Step>)
    requires s.l.ring.capacity > 0
    decreases |steps|
  {
    steps == [] || (Enabled(s, steps[0])
      && Apply(s, steps[0]).l.ring.capacity > 0 && Feasible(Apply(s, steps[0]), steps[1..]))
  }

  ghost function After(s: State, steps: seq<Step>): State
    requires s.l.ring.capacity > 0 && Feasible(s, steps)
    decreases |steps|
  {
    if steps == [] then s else After(Apply(s, steps[0]), steps[1..])
  }

  predicate HoldsLock(c: ConsumerPc) {
    c.ScanLocked? || c.CheckClosedLocked? || c.CompareSeq? || c.TestSeq?
      || c.TestClosed? || c.Sleepy? || c.Resync? || c.Release?
  }

  ghost predicate LockOk(s: State) {
    && (s.lock.HeldByConsumer? <==> HoldsLock(s.consumer))
    && (forall t :: t in s.threads && (s.threads[t].Locked? || s.threads[t].Signalled?) ==> s.lock == HeldBy(t))
    && (s.lock.HeldBy? ==>
         s.lock.thread in s.threads && (At(s, s.lock.thread, Locked) || At(s, s.lock.thread, Signalled)))
  }

  ghost predicate SomePublishing(s: State) {
    exists t :: t in s.threads && s.threads[t].Publishing?
  }

  ghost predicate SomeBumped(s: State) {
    exists t :: t in s.threads && s.threads[t].Bumped?
  }

  ghost predicate SomeSignalDue(s: State) {
    exists t :: t in s.threads && (s.threads[t].Bumped? || s.threads[t].Locked?)
  }

  predicate Queued(s: State) {
    s.l.ring.items != []
  }

  /** Something the consumer should wake for. */
  predicate Work(s: State) {
    Queued(s) || s.closed
  }

  /** What the consumer's snapshot of `seq` promises at each point of the wait. */
  ghost predicate WaitOk(s: State) {
    match s.consumer
    case Outside | Enter | Resync(_) => true
    case Scan(n) => n <= s.seq_
    case CheckClosed(n) => n <= s.seq_
    case Acquire(n) => n <= s.seq_
    case ScanLocked(n) => n <= s.seq_
    case Release(n, _) => n <= s.seq_
    case CheckClosedLocked(n) => n <= s.seq_ && (Queued(s) ==> n < s.seq_ || SomePublishing(s))
    case CompareSeq(n) => n <= s.seq_ && (Work(s) ==> n < s.seq_ || SomePublishing(s))
    case TestSeq(n) => n <= s.seq_ && (Work(s) ==> n < s.seq_ || SomePublishing(s))
    case Waking(n, _) => n <= s.seq_ && (Work(s) ==> n < s.seq_ || SomePublishing(s))
    case TestClosed(n) => n <= s.seq_ && (Work(s) ==> n < s.seq_ || SomePublishing(s)) && (n < s.seq_ ==> SomeBumped(s))
    case Sleepy(n) => n <= s.seq_ && (Work(s) ==> n < s.seq_ || SomePublishing(s)) && (n < s.seq_ ==> SomeBumped(s))
    case Sleeping(n) =>
      n <= s.seq_ && (Work(s) ==> n < s.seq_ || SomePublishing(s)) && (n < s.seq_ ==> SomeSignalDue(s))
  }

  ghost predicate EventsOk(s: State) {
    Conserved(s.l) && forall t :: t in s.threads && s.threads[t].Displacing? ==> !IsTick(s.threads[t].event)
  }

  /** The consumer has passed the test of a zero timeout. */
  predicate PastZeroTest(c: ConsumerPc) {
    !c.Outside? && !c.Enter? && !c.Scan? && !c.CheckClosed?
  }

  /** Only a wait with a deadline ever finds itself timed out, and only after that deadline. */
  predicate DeadlineOk(s: State) {
    && (s.expired ==> s.timeout > 0)
    && (PastZeroTest(s.consumer) ==> s.timeout != 0)
    && (s.consumer.Waking? && s.consumer.timedOut ==> s.expired)
    && (s.consumer.Resync? && s.consumer.timedOut ==> s.expired)
    && (s.consumer.Release? && s.consumer.timedOut ==> s.expired)
  }

  ghost predicate Inv(s: State) {
    EventsOk(s) && LockOk(s) && WaitOk(s) && DeadlineOk(s)
  }

  /** The steps of a producer or closer. */
  predicate IsThreadStep(step: Step) {
    !step.TryPopStep? && !step.WaitCall? && !step.ConsumerStep? && !step.SpuriousStep? && !step.TimeoutStep?
  }

  lemma LedgerStep(s: State, step: Step)
    requires Inv(s) && Enabled(s, step)
    ensures Conserved(Apply(s, step).l)
  {
    match step
    case PushStep(t, e) => OfferConserves(s.l, e);
    case DisplaceStep(t) => DisplaceConserves(s.l, s.threads[t].event);
    case TryPopStep => TakeConserves(s.l);
    case ConsumerStep => TakeConserves(s.l);
    case _ =>
  }

  lemma DisplacingStep(s: State, step: Step)
    requires EventsOk(s) && Enabled(s, step)
    ensures var s' := Apply(s, step);
      forall t :: t in s'.threads && s'.threads[t].Displacing? ==> !IsTick(s'.threads[t].event)
  {
    var s' := Apply(s, step);
    if IsThreadStep(step) {
      OtherThreads(s, step);
    } else {
      assert s'.threads == s.threads;
    }
  }

  /** A thread's step leaves the other threads where they were. */
  lemma OtherThreads(s: State, step: Step)
    requires s.l.ring.capacity > 0 && Enabled(s, step) && IsThreadStep(step)
    ensures var s' := Apply(s, step);
      && s'.threads.Keys == s.threads.Keys && step.t in s.threads
      && (forall u :: u in s.threads && u != step.t ==> s'.threads[u] == s.threads[u])
  {
  }

  lemma LockSteps(s: State, step: Step)
    requires Inv(s) && Enabled(s, step)
    ensures LockOk(Apply(s, step))
  {
    if IsThreadStep(step) {
      LockThread(s, step);
    } else {
      assert Apply(s, step).threads == s.threads;
    }
  }

  lemma LockThread(s: State, step: Step)
    requires Inv(s) && Enabled(s, step) && IsThreadStep(step)
    ensures LockOk(Apply(s, step))
  {
    OtherThreads(s, step);
    var s' := Apply(s, step);
    forall u | u in s'.threads && (s'.threads[u].Locked? || s'.threads[u].Signalled?)
      ensures s'.lock == HeldBy(u)
    {
      assert u in s.threads;
    }
  }

  /** How a thread's step moves the three promises that WaitOk is made of. */
  lemma ThreadPromises(s: State, step: Step)
    requires Inv(s) && Enabled(s, step) && IsThreadStep(step)
    ensures var s' := Apply(s, step);
      && s.seq_ <= s'.seq_ && (step.BumpStep? <==> s'.seq_ == s.seq_ + 1) && (!step.BumpStep? <==> s'.seq_ == s.seq_)
      && (Queued(s') ==> Queued(s) || SomePublishing(s'))
      && (Work(s') ==> Work(s) || SomePublishing(s'))
      && (SomePublishing(s) ==> SomePublishing(s') || step.BumpStep?)
      && (SomeBumped(s) ==> SomeBumped(s') || step.LockStep?)
      && (SomeSignalDue(s) ==> SomeSignalDue(s') || step.SignalStep?)
      && (step.BumpStep? ==> SomeBumped(s') && SomeSignalDue(s'))
  {
    var s' := Apply(s, step);
    var t := step.t;
    OtherThreads(s, step);
    if SomePublishing(s) && !step.BumpStep? {
      var u :| u in s.threads && s.threads[u].Publishing?;
      assert u in s'.threads && s'.threads[u].Publishing?;
    }
    if SomeBumped(s) && !step.LockStep? {
      var u :| u in s.threads && s.threads[u].Bumped?;
      assert u in s'.threads && s'.threads[u].Bumped?;
    }
    if SomeSignalDue(s) && !step.SignalStep? {
      var u :| u in s.threads && (s.threads[u].Bumped? || s.threads[u].Locked?);
      assert u in s'.threads && (s'.threads[u].Bumped? || s'.threads[u].Locked?);
    }
    if s'.threads[t].Publishing? {
      assert SomePublishing(s');
    }
    if step.PushStep? {
      OfferConserves(s.l, step.event);
    }
  }

  lemma WaitThread(s: State, step: Step)
    requires Inv(s) && Enabled(s, step) && IsThreadStep(step)
    ensures WaitOk(Apply(s, step))
  {
    ThreadPromises(s, step);
    var s' := Apply(s, step);
    if !step.SignalStep? {
      assert s'.consumer == s.consumer;
    }
  }

  /** What a step of the consumer, or of time, leaves as it is. */
  lemma SamePromises(s: State, step: Step)
    requires Inv(s) && Enabled(s, step) && !IsThreadStep(step)
    ensures var s' := Apply(s, step);
      && s'.threads == s.threads && s'.seq_ == s.seq_ && s'.closed == s.closed
      && SomePublishing(s') == SomePublishing(s) && SomeBumped(s') == SomeBumped(s)
      && SomeSignalDue(s') == SomeSignalDue(s) && (SomeBumped(s) ==> SomeSignalDue(s))
      && (Queued(s') ==> Queued(s))
  {
    assert Apply(s, step).threads == s.threads;
  }

  lemma WaitConsumer(s: State, step: Step)
    requires Inv(s) && Enabled(s, step) && !IsThreadStep(step)
    ensures WaitOk(Apply(s, step))
  {
    SamePromises(s, step);
    if step.ConsumerStep? {
      WaitConsume(s);
    }
  }

  lemma WaitConsume(s: State)
    requires Inv(s) && Enabled(s, ConsumerStep)
    ensures WaitOk(Consume(s))
  {
    SamePromises(s, ConsumerStep);
  }

  lemma DeadlineStep(s: State, step: Step)
    requires Inv(s) && Enabled(s, step)
    ensures DeadlineOk(Apply(s, step))
  {
  }

  lemma StepKeepsInv(s: State, step: Step)
    requires Inv(s) && Enabled(s, step)
    ensures Inv(Apply(s, step))
  {
    LedgerStep(s, step);
    DisplacingStep(s, step);
    LockSteps(s, step);
    DeadlineStep(s, step);
    if IsThreadStep(step) {
      WaitThread(s, step);
    } else {
      WaitConsumer(s, step);
    }
  }

  lemma {:induction false} RunKeepsInv(s: State, steps: seq<Step>)
    requires Inv(s) && Feasible(s, steps)
    ensures Inv(After(s, steps))
    decreases |steps|
  {
    if steps != [] {
      StepKeepsInv(s, steps[0]);
      RunKeepsInv(Apply(s, steps[0]), steps[1..]);
    }
  }

  lemma InitInv(capacity: nat, threads: set<nat>)
    requires capacity > 0
    ensures Inv(Init(capacity, threads))
  {
  }

  // ----- How a wait ends -----

  /** The step ends a wait. */
  predicate Leaves(s: State, step: Step)
    requires Enabled(s, step) && s.l.ring.capacity > 0
  {
    !s.consumer.Outside? && Apply(s, step).consumer.Outside?
  }

  /** Whether, after these steps, the deadline of the latest wait has passed; before says so for the start. */
  predicate DeadlinePassed(steps: seq<Step>, before: bool)
    decreases |steps|
  {
    if steps == [] then before
    else DeadlinePassed(steps[1..],
           if steps[0].TimeoutStep? then true else if steps[0].WaitCall? then false else before)
  }

  lemma {:induction false} ExpiredIsHistory(s: State, steps: seq<Step>)
    requires Inv(s) && Feasible(s, steps)
    ensures After(s, steps).expired == DeadlinePassed(steps, s.expired)
    decreases |steps|
  {
    if steps != [] {
      StepKeepsInv(s, steps[0]);
      ExpiredIsHistory(Apply(s, steps[0]), steps[1..]);
    }
  }

  /** A step inside a wait that does not end it takes no event; one that ends it hands over the oldest event, or
      none, and then the queue is closed, the wait was not to wait, or its deadline has passed. */
  lemma ConsumerStepEnds(s: State, step: Step)
    requires Inv(s) && Enabled(s, step) && !IsThreadStep(step) && !s.consumer.Outside?
    ensures var s' := Apply(s, step);
      if Leaves(s, step) && s'.answer.Some? then
        && Queued(s) && s'.answer == Some(s.l.ring.items[0])
        && s'.l.ring.items == s.l.ring.items[1..]
      else
        && s'.l == s.l
        && (Leaves(s, step) ==> s.closed || s.timeout == 0 || s.expired)
  {
  }

  /** How a wait ends, in every run: with the oldest queued event, which it removes, or empty-handed because the
      queue is closed, the timeout is zero, or a positive timeout has run out during this very call. */
  lemma WaitEnds(capacity: nat, threads: set<nat>, steps: seq<Step>, step: Step)
    requires capacity > 0 && Feasible(Init(capacity, threads), steps)
    requires var s := After(Init(capacity, threads), steps);
      && s.l.ring.capacity > 0 && Enabled(s, step) && Leaves(s, step)
    ensures var s := After(Init(capacity, threads), steps);
      var s' := Apply(s, step);
      if s'.answer.Some? then
        && Queued(s) && s'.answer == Some(s.l.ring.items[0]) && s'.l.ring.items == s.l.ring.items[1..]
      else
        && s'.l == s.l
        && (s.closed || s.timeout == 0 || (s.timeout > 0 && DeadlinePassed(steps, false)))
  {
    InitInv(capacity, threads);
    RunKeepsInv(Init(capacity, threads), steps);
    ExpiredIsHistory(Init(capacity, threads), steps);
    ConsumerStepEnds(After(Init(capacity, threads), steps), step);
  }

  /** Steps of the consumer alone until its wait ends, when there is work and no producer is under way. */
  function StepsToReturn(s: State): nat {
    match s.consumer
    case Outside => 0
    case Enter => 6
    case Scan(_) => 5
    case CheckClosed(_) => 4
    case Acquire(_) => 3
    case ScanLocked(_) => 2
    case CheckClosedLocked(_) => if s.closed then 1 else 10
    case CompareSeq(_) => 9
    case TestSeq(_) => 9
    case Waking(_, _) => 10
    case Resync(_) => 8
    case Release(_, _) => 7
    case _ => 0
  }

  ghost predicate AtRest(s: State) {
    forall t :: t in s.threads ==> s.threads[t].Idle?
  }

  lemma RestMeansAwake(s: State)
    requires Inv(s) && AtRest(s) && Work(s) && !s.consumer.Outside?
    ensures !s.consumer.Sleeping? && !s.consumer.Sleepy? && !s.consumer.TestClosed? && Enabled(s, ConsumerStep)
    ensures (s.consumer.CompareSeq? || s.consumer.TestSeq?) ==> s.consumer.snap < s.seq_
  {
    assert !SomePublishing(s) && !SomeBumped(s) && !SomeSignalDue(s);
    assert !s.lock.HeldBy?;
  }

  lemma ReturnComesCloser(s: State)
    requires Inv(s) && Work(s) && Enabled(s, ConsumerStep) && !s.consumer.Sleepy? && !s.consumer.TestClosed?
    requires (s.consumer.CompareSeq? || s.consumer.TestSeq?) ==> s.consumer.snap < s.seq_
    ensures var s' := Apply(s, ConsumerStep);
      && s'.threads == s.threads && StepsToReturn(s) > 0
      && (s'.consumer.Outside? || (Work(s') && StepsToReturn(s') < StepsToReturn(s)))
  {
    if s.consumer.Scan? || s.consumer.ScanLocked? {
      ScanComesCloser(s);
    }
  }

  lemma ScanComesCloser(s: State)
    requires Inv(s) && Work(s) && (s.consumer.Scan? || s.consumer.ScanLocked?)
    ensures var s' := Consume(s);
      && s'.threads == s.threads
      && (s'.consumer.Outside? || (Work(s') && StepsToReturn(s') < StepsToReturn(s)))
  {
    ConsumerStepEnds(s, ConsumerStep);
  }

  /** With every producer at rest and an event queued or the queue closed, the consumer is not asleep, and at most
      ten steps of its own end its wait. */
  lemma {:induction false} WaitReturns(s: State) returns (steps: seq<Step>)
    requires Inv(s) && AtRest(s) && Work(s) && !s.consumer.Outside?
    ensures |steps| <= StepsToReturn(s) <= 10 && (forall i :: 0 <= i < |steps| ==> steps[i].ConsumerStep?)
    ensures !s.consumer.Sleeping? && Feasible(s, steps) && After(s, steps).consumer.Outside?
    decreases StepsToReturn(s)
  {
    RestMeansAwake(s);
    ReturnComesCloser(s);
    StepKeepsInv(s, ConsumerStep);
    var s1 := Apply(s, ConsumerStep);
    if s1.consumer.Outside? {
      steps := [ConsumerStep];
      Unfold1(s, steps);
    } else {
      var rest := WaitReturns(s1);
      steps := [ConsumerStep] + rest;
      assert steps[1..] == rest;
    }
  }

  /** No lost wakeup. */
  lemma NoLostWakeup(capacity: nat, threads: set<nat>, steps: seq<Step>)
    requires capacity > 0 && Feasible(Init(capacity, threads), steps)
    ensures var s := After(Init(capacity, threads), steps);
      s.consumer.Sleeping? && Work(s) ==>
        exists t :: t in s.threads && (s.threads[t].Publishing? || s.threads[t].Bumped? || s.threads[t].Locked?)
  {
    InitInv(capacity, threads);
    RunKeepsInv(Init(capacity, threads), steps);
  }

  /** Nor can the sleep last: from any reachable state some schedule of at most four producer steps,
      none of which waits for the consumer, wakes it. */
  lemma SleeperCanBeWoken(s: State) returns (steps: seq<Step>)
    requires Inv(s) && s.consumer.Sleeping? && Work(s)
    ensures |steps| <= 4 && Feasible(s, steps) && After(s, steps).consumer.Waking?
    ensures forall i :: 0 <= i < |steps| ==> IsThreadStep(steps[i])
  {
    if s.lock.HeldBy? && At(s, s.lock.thread, Locked) {
      steps := [SignalStep(s.lock.thread)];
      Unfold1(s, steps);
    } else if s.lock.HeldBy? {
      var u := s.lock.thread;
      var s1 := Apply(s, UnlockStep(u));
      StepKeepsInv(s, UnlockStep(u));
      var rest := WakeWithFreeLock(s1);
      steps := [UnlockStep(u)] + rest;
      assert steps[1..] == rest;
    } else {
      steps := WakeWithFreeLock(s);
    }
  }

  lemma Unfold1(s: State, steps: seq<Step>)
    requires Inv(s) && |steps| == 1 && Enabled(s, steps[0])
    ensures Feasible(s, steps) && After(s, steps) == Apply(s, steps[0])
  {
    StepKeepsInv(s, steps[0]);
    assert steps[1..] == [];
  }

  lemma WakeWithFreeLock(s: State) returns (steps: seq<Step>)
    requires Inv(s) && s.consumer.Sleeping? && Work(s) && s.lock.Free?
    ensures |steps| <= 3 && Feasible(s, steps) && After(s, steps).consumer.Waking?
    ensures forall i :: 0 <= i < |steps| ==> IsThreadStep(steps[i])
  {
    if SomeBumped(s) {
      var t :| t in s.threads && s.threads[t].Bumped?;
      steps := LockAndSignal(s, t);
    } else {
      var t :| t in s.threads && s.threads[t].Publishing?;
      StepKeepsInv(s, BumpStep(t));
      var rest := LockAndSignal(Apply(s, BumpStep(t)), t);
      steps := [BumpStep(t)] + rest;
      assert steps[1..] == rest;
    }
  }

  lemma LockAndSignal(s: State, t: nat) returns (steps: seq<Step>)
    requires Inv(s) && s.consumer.Sleeping? && s.lock.Free? && At(s, t, Bumped)
    ensures steps == [LockStep(t), SignalStep(t)] && Feasible(s, steps) && After(s, steps).consumer.Waking?
  {
    steps := [LockStep(t), SignalStep(t)];
    StepKeepsInv(s, LockStep(t));
    assert steps[1..] == [SignalStep(t)];
    Unfold1(Apply(s, LockStep(t)), steps[1..]);
  }

  /** Critical events survive every interleaving, and the tick data is conserved modulo 2^32. */
  lemma NothingLost(capacity: nat, threads: set<nat>, steps: seq<Step>)
    requires capacity > 0 && Feasible(Init(capacity, threads), steps)
    ensures var l := After(Init(capacity, threads), steps).l;
      && l.accepted == l.delivered + Criticals(l.ring.items)
      && Ticks(l.ring.items) <= 1
      && l.tickIn % U32 == (l.tickOut + TickData(l.ring.items) + l.tickDisplaced + l.tickDropped) % U32
  {
    InitInv(capacity, threads);
    RunKeepsInv(Init(capacity, threads), steps);
  }
}
