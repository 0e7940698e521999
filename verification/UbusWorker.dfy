/** The worker thread between the task queue and the result queue, with any number of producers of
    tasks and consumers of results. Each step is one lock region or one test of `running`. */
module UbusWorker {
  import opened Words
  import opened RingSpec
  import opened Seqs
  import opened Tasks
  import opened Results

  const ETIMEDOUT: int := 110
  const ENOTSUP: int := 95
  const ECANCELED: int := 125

  /** What a ubus call reports; None stands for a missing HAL. */
  datatype Invocation = Invocation(success: bool, errorCode: int, installed: bool, running: bool)

  /** strncpy into a 32-byte name that starts out zeroed. */
  function CName(s: string): string {
    if |s| <= 31 then s else s[..31]
  }

  function Failure(t: Task, code: int): UbusResult {
    UbusResult(CName(t.service), t.action, false, code, t.requestId, false, false)
  }

  function Process(t: Task, nowMs: nat, hal: Option<Invocation>): UbusResult {
    if IsExpired(t, nowMs) then Failure(t, -ETIMEDOUT)
    else if hal.None? then Failure(t, -ENOTSUP)
    else UbusResult(CName(t.service), t.action, hal.value.success, hal.value.errorCode, t.requestId,
                    hal.value.installed, hal.value.running)
  }

  /** What an answer was made from: the clock and what the call would report, or the stop. */
  datatype Cause = Ran(nowMs: nat, hal: Option<Invocation>) | Stopped

  /** The task has waited longer than it may; the clock counts modulo 2^64. */
  predicate Late(t: Task, nowMs: nat) {
    t.timeoutMs > 0 &&
    if t.enqueueMs <= nowMs then t.enqueueMs + t.timeoutMs < nowMs
    else t.enqueueMs + t.timeoutMs < nowMs + 0x1_0000_0000_0000_0000
  }

  predicate FailedWith(r: UbusResult, code: int) {
    !r.success && r.errorCode == code && !r.installed && !r.running
  }

  /** r is the answer that t deserves: failed with -ETIMEDOUT when it came too late, with -ENOTSUP when there is no
      call, with -ECANCELED when the worker was stopped, and otherwise what the call reported. */
  predicate Answers(r: UbusResult, t: Task, cause: Cause) {
    match cause
    case Stopped => FailedWith(r, -125)
    case Ran(now, hal) =>
      t.enqueueMs < U64 && now < U64 ==>
        if Late(t, now) then FailedWith(r, -110)
        else if hal.None? then FailedWith(r, -95)
        else && r.success == hal.value.success && r.errorCode == hal.value.errorCode
             && r.installed == hal.value.installed && r.running == hal.value.running
  }

  lemma ExpiredIffLate(t: Task, nowMs: nat)
    requires t.enqueueMs < U64 && nowMs < U64
    ensures IsExpired(t, nowMs) <==> Late(t, nowMs)
  {
  }

  lemma ProcessAnswers(t: Task, nowMs: nat, hal: Option<Invocation>)
    ensures Carries(Process(t, nowMs, hal), t) && Answers(Process(t, nowMs, hal), t, Ran(nowMs, hal))
  {
    if t.enqueueMs < U64 && nowMs < U64 {
      ExpiredIffLate(t, nowMs);
    }
  }

  datatype Pc =
    | Top                 // about to test `running`
    | Popping             // inner loop: about to pop
    | Busy(task: Task)    // popped, result not yet pushed
    | Polling
    | LastPopping         // after the loop: about to pop
    | Cancelling(task: Task)
    | Pushing(result: UbusResult, phase: Phase, last: bool)  // inside result_queue_push; last: after the loop
    | Done

  /** popping counts the consumers that have taken a result and not yet counted the pop. taken, attempted and causes
      record the tasks popped, the results whose push was begun, and what they were made from, in order; late counts
      the tasks accepted as new since the worker ended. */
  datatype State = State(
    tasks: TaskQ, results: ResultQ, popping: nat, running: bool, pc: Pc,
    taken: seq<Task>, attempted: seq<UbusResult>, causes: seq<Cause>, accepted: nat, late: nat)

  datatype Step =
    | Produce(task: Task)
    | Consume       // ring region of result_queue_try_pop
    | CountConsumed // its statistics region
    | MarkStep(id: uint32)
    | ClearStep(id: uint32)
    | Stop
    | Work(nowMs: nat, hal: Option<Invocation>)

  function Init(taskCapacity: nat, resultCapacity: nat): State {
    State(EmptyQ(taskCapacity), EmptyResults(resultCapacity), 0, true, Top, [], [], [], 0, 0)
  }

  ghost predicate Capable(s: State) {
    s.tasks.ring.capacity > 0 && s.results.ring.capacity > 0
  }

  function TakeTask(s: State, onTask: Task -> Pc, onEmpty: Pc): (r: State)
    ensures Capable(s) ==> Capable(r)
  {
    var (q, out) := PopTask(s.tasks);
    if out.None? then s.(pc := onEmpty, late := 0)
    else s.(tasks := q, taken := s.taken + [out.value], pc := onTask(out.value))
  }

  /** The call of result_queue_push. */
  function Call(s: State, r: UbusResult, cause: Cause, last: bool): (s': State)
    ensures Capable(s) ==> Capable(s')
  {
    s.(results := s.results.(attempts := s.results.attempts + 1), attempted := s.attempted + [r],
       causes := s.causes + [cause], pc := Pushing(r, Checking, last))
  }

  /** The next lock region of that call. */
  function Continue(s: State): (s': State)
    requires Capable(s) && s.pc.Pushing?
    ensures Capable(s')
  {
    var (q, next) := PushStep(s.results, s.pc.result, s.pc.phase);
    s.(results := q,
       pc := if next.Some? then Pushing(s.pc.result, next.value, s.pc.last)
         else if s.pc.last then LastPopping else Popping)
  }

  function WorkStep(s: State, nowMs: nat, hal: Option<Invocation>): (r: State)
    requires Capable(s)
    ensures Capable(r)
  {
    match s.pc
    case Top => s.(pc := if s.running then Popping else LastPopping)
    case Popping => TakeTask(s, t => Busy(t), Polling)
    case Busy(t) => Call(s, Process(t, nowMs, hal), Ran(nowMs, hal), false)
    case Polling => s.(pc := Top)
    case LastPopping => TakeTask(s, t => Cancelling(t), Done)
    case Cancelling(t) => Call(s, Failure(t, -ECANCELED), Stopped, true)
    case Pushing(_, _, _) => Continue(s)
    case Done => s
  }

  function Apply(s: State, step: Step): (r: State)
    requires Capable(s)
    ensures Capable(r)
  {
    match step
    case Produce(t) =>
      var (q, res) := PushTask(s.tasks, t);
      s.(tasks := q, accepted := s.accepted + if res.Ok? then 1 else 0, late := s.late + if res.Ok? then 1 else 0)
    case Consume =>
      var (ring, out) := Pop(s.results.ring);
      if out.None? then s else s.(results := s.results.(ring := ring), popping := s.popping + 1)
    case CountConsumed =>
      if s.popping == 0 then s
      else s.(results := s.results.(stats := s.results.stats.(pops := s.results.stats.pops + 1)),
        popping := s.popping - 1)
    case MarkStep(id) => s.(results := Mark(s.results, id))
    case ClearStep(id) => s.(results := Clear(s.results, id))
    case Stop => s.(running := false)
    case Work(now, hal) => WorkStep(s, now, hal)
  }

  function Run(s: State, steps: seq<Step>): State
    requires Capable(s)
    decreases |steps|
  {
    if steps == [] then s else Run(Apply(s, steps[0]), steps[1..])
  }

  function InFlight(s: State): seq<Task> {
    if s.pc.Busy? || s.pc.Cancelling? then [s.pc.task] else []
  }

  ghost predicate Carries(r: UbusResult, t: Task) {
    r.service == CName(t.service) && r.action == t.action && r.requestId == t.requestId
  }

  function PoppedTasks(log: seq<Entry>): seq<Task> {
    if log == [] then [] else
      PoppedTasks(log[..|log| - 1]) + if log[|log| - 1].Popped? then [log[|log| - 1].task] else []
  }

  /** Results that are in no queue and no counter because a push or a pop is under way. */
  function InTransit(s: State): nat {
    s.popping + if s.pc.Pushing? then Transit(Some(s.pc.phase)) else 0
  }

  ghost predicate Inv(s: State) {
    && IntentInv(s.tasks) && Sound(s.results) && Gap(s.results) == InTransit(s)
    && s.accepted == |s.tasks.ring.items| + |s.taken|
    && |s.taken| == |s.attempted| + |InFlight(s)|
    && (InFlight(s) != [] ==> s.taken[|s.taken| - 1] == s.pc.task)
    && |s.causes| == |s.attempted|
    && (forall i :: 0 <= i < |s.attempted| ==>
          Carries(s.attempted[i], s.taken[i]) && Answers(s.attempted[i], s.taken[i], s.causes[i]))
    && s.results.attempts == |s.attempted|
    && s.taken == PoppedTasks(s.tasks.log)
    && (s.pc.Done? ==> |s.tasks.ring.items| == s.late)
  }

  lemma PoppedGrows(log: seq<Entry>, e: Entry)
    ensures PoppedTasks(log + [e]) == PoppedTasks(log) + if e.Popped? then [e.task] else []
  {
    assert (log + [e])[..|log|] == log;
  }

  lemma TakeKeepsInv(s: State, onTask: Task -> Pc, onEmpty: Pc)
    requires Inv(s) && InFlight(s) == [] && !s.pc.Pushing? && !s.pc.Done?
    requires forall t :: onTask(t) == Busy(t) || onTask(t) == Cancelling(t)
    requires onEmpty.Polling? || onEmpty.Done?
    ensures Inv(TakeTask(s, onTask, onEmpty))
  {
    PopKeepsIntent(s.tasks);
    if s.tasks.ring.items != [] {
      var t := s.tasks.ring.items[0];
      PoppedGrows(s.tasks.log, Popped(t));
      assert onTask(t).task == t;
    }
  }

  lemma CallKeepsInv(s: State, r: UbusResult, cause: Cause, last: bool)
    requires Inv(s) && InFlight(s) != [] && Carries(r, s.pc.task) && Answers(r, s.pc.task, cause)
    ensures Inv(Call(s, r, cause, last))
  {
  }

  lemma ContinueKeepsInv(s: State)
    requires Inv(s) && s.pc.Pushing?
    ensures Inv(Continue(s))
  {
    PushStepAccounts(s.results, s.pc.result, s.pc.phase);
  }

  lemma WorkKeepsInv(s: State, nowMs: nat, hal: Option<Invocation>)
    requires Inv(s)
    ensures Inv(WorkStep(s, nowMs, hal))
  {
    match s.pc
    case Popping => TakeKeepsInv(s, t => Busy(t), Polling);
    case LastPopping => TakeKeepsInv(s, t => Cancelling(t), Done);
    case Busy(t) =>
      ProcessAnswers(t, nowMs, hal);
      CallKeepsInv(s, Process(t, nowMs, hal), Ran(nowMs, hal), false);
    case Cancelling(t) => CallKeepsInv(s, Failure(t, -ECANCELED), Stopped, true);
    case Pushing(_, _, _) => ContinueKeepsInv(s);
    case _ =>
  }

  lemma ProduceKeepsInv(s: State, t: Task)
    requires Inv(s)
    ensures Inv(Apply(s, Produce(t)))
  {
    PushKeepsIntent(s.tasks, t);
    PoppedGrows(s.tasks.log, Accepted(t));
  }

  /** A change of the results that leaves the attempts alone and moves the gap as much as the pops under way. */
  lemma ResultsKeepInv(s: State, q: ResultQ, popping: nat)
    requires Inv(s) && Sound(q) && q.attempts == s.results.attempts && Gap(q) - popping == Gap(s.results) - s.popping
    ensures Inv(s.(results := q, popping := popping))
  {
  }

  lemma ConsumerKeepsInv(s: State, step: Step)
    requires Inv(s) && (step.Consume? || step.CountConsumed?)
    ensures Inv(Apply(s, step))
  {
    var s' := Apply(s, step);
    ResultsKeepInv(s, s'.results, s'.popping);
  }

  lemma StepKeepsInv(s: State, step: Step)
    requires Inv(s)
    ensures Inv(Apply(s, step))
  {
    match step
    case Produce(t) => ProduceKeepsInv(s, t);
    case Consume => ConsumerKeepsInv(s, step);
    case CountConsumed => ConsumerKeepsInv(s, step);
    case MarkStep(id) =>
      MarkAccounts(s.results, id);
      ResultsKeepInv(s, Mark(s.results, id), s.popping);
    case ClearStep(id) =>
      ClearAccounts(s.results, id);
      ResultsKeepInv(s, Clear(s.results, id), s.popping);
    case Stop =>
    case Work(now, hal) => WorkKeepsInv(s, now, hal);
  }

  lemma {:induction false} RunKeepsInv(s: State, steps: seq<Step>)
    requires Inv(s)
    ensures Inv(Run(s, steps))
    decreases |steps|
  {
    if steps != [] {
      StepKeepsInv(s, steps[0]);
      RunKeepsInv(Apply(s, steps[0]), steps[1..]);
    }
  }

  /** At every step, every task accepted as new is queued, in flight, or answered once; and every answer
      was delivered, is queued, was dropped, was abandoned, or is in transit in a push or a pop under way.
      Answers carry their task's identity. */
  lemma Conservation(taskCapacity: nat, resultCapacity: nat, steps: seq<Step>)
    requires taskCapacity > 0 && resultCapacity > 0
    ensures var s := Run(Init(taskCapacity, resultCapacity), steps);
      && s.accepted == |s.tasks.ring.items| + |InFlight(s)| + |s.attempted|
      && |s.attempted| == s.results.stats.pops + |s.results.ring.items| + s.results.stats.drops
                          + s.results.stats.dropsAbandoned + InTransit(s)
      && PoppedTasks(s.tasks.log) == s.taken && |s.attempted| <= |s.taken|
      && (forall i :: 0 <= i < |s.attempted| ==> Carries(s.attempted[i], s.taken[i]))
      && (s.pc.Done? ==> |s.tasks.ring.items| == s.late)
  {
    RunKeepsInv(Init(taskCapacity, resultCapacity), steps);
  }

  /** The step that answers a task answers it from its own clock and call. */
  lemma AnswerFromStep(s: State, nowMs: nat, hal: Option<Invocation>)
    requires Inv(s) && (s.pc.Busy? || s.pc.Cancelling?)
    ensures var s' := Apply(s, Work(nowMs, hal));
      var cause := if s.pc.Busy? then Ran(nowMs, hal) else Stopped;
      && s'.causes == s.causes + [cause] && |s'.attempted| == |s.attempted| + 1
      && s'.attempted[..|s.attempted|] == s.attempted
      && Carries(s'.attempted[|s.attempted|], s.pc.task) && Answers(s'.attempted[|s.attempted|], s.pc.task, cause)
  {
    WorkKeepsInv(s, nowMs, hal);
    if s.pc.Busy? {
      ProcessAnswers(s.pc.task, nowMs, hal);
    }
  }

  /** In every run, every answer is the one its task deserves; so no late task is ever answered with a success. */
  lemma EveryAnswerRight(taskCapacity: nat, resultCapacity: nat, steps: seq<Step>, i: nat)
    requires taskCapacity > 0 && resultCapacity > 0
    requires i < |Run(Init(taskCapacity, resultCapacity), steps).attempted|
    ensures var s := Run(Init(taskCapacity, resultCapacity), steps);
      && i < |s.taken| && i < |s.causes|
      && Carries(s.attempted[i], s.taken[i]) && Answers(s.attempted[i], s.taken[i], s.causes[i])
      && (s.attempted[i].success && s.taken[i].enqueueMs < U64 && s.causes[i].Ran? && s.causes[i].nowMs < U64 ==>
            !Late(s.taken[i], s.causes[i].nowMs) && s.causes[i].hal.Some? && s.causes[i].hal.value.success)
      && (s.causes[i].Stopped? ==> !s.attempted[i].success)
  {
    RunKeepsInv(Init(taskCapacity, resultCapacity), steps);
  }

  function CancelAll(tasks: seq<Task>): seq<UbusResult> {
    seq(|tasks|, i requires 0 <= i < |tasks| => Failure(tasks[i], -ECANCELED))
  }

  lemma CancelNext(tasks: seq<Task>, n: nat)
    requires n < |tasks|
    ensures CancelAll(tasks[..n]) + [Failure(tasks[n], -ECANCELED)] == CancelAll(tasks[..n + 1])
  {
  }

  lemma CancelHead(tasks: seq<Task>)
    requires tasks != []
    ensures CancelAll(tasks) == [Failure(tasks[0], -ECANCELED)] + CancelAll(tasks[1..])
  {
  }

  predicate AfterLoop(pc: Pc) {
    pc.LastPopping? || pc.Cancelling? || (pc.Pushing? && pc.last) || pc.Done?
  }

  /** The cancellations that a worker after its loop still has to push. */
  function Owed(s: State): seq<UbusResult> {
    (if s.pc.Cancelling? then [Failure(s.pc.task, -ECANCELED)] else []) + CancelAll(s.tasks.ring.items)
  }

  /** After the loop, a step of the worker pays what it owes in order, or leaves it as it is. */
  lemma OwedShrinks(s: State, nowMs: nat, hal: Option<Invocation>)
    requires Inv(s) && AfterLoop(s.pc) && !s.pc.Done?
    ensures var s' := WorkStep(s, nowMs, hal);
      && AfterLoop(s'.pc) && s'.attempted + Owed(s') == s.attempted + Owed(s)
      && (s'.pc.Done? ==> s'.tasks.ring.items == [])
  {
    var s' := WorkStep(s, nowMs, hal);
    match s.pc
    case LastPopping =>
      if s.tasks.ring.items != [] {
        CancelHead(s.tasks.ring.items);
      }
    case Cancelling(t) =>
      assert [] + CancelAll(s.tasks.ring.items) == CancelAll(s.tasks.ring.items);
      Assoc(s.attempted, [Failure(t, -ECANCELED)], CancelAll(s.tasks.ring.items));
    case _ =>
  }

  /** The worker's steps left once it was stopped: six for each queued task, and the way out. */
  function Distance(s: State): nat {
    6 * |s.tasks.ring.items| +
    match s.pc
    case Done => 0
    case LastPopping => 1
    case Cancelling(_) => 6
    case Top => 2
    case Polling => 3
    case Popping => 4
    case Busy(_) => 9
    case Pushing(_, phase, last) => StepsLeft(phase) + if last then 1 else 4
  }

  lemma StoppedWorkerAdvances(s: State, nowMs: nat, hal: Option<Invocation>)
    requires Inv(s) && !s.running && !s.pc.Done?
    ensures var s' := WorkStep(s, nowMs, hal);
      && !s'.running && s'.accepted == s.accepted && Distance(s') < Distance(s)
      && (s'.pc.Done? ==> s'.tasks.ring.items == [])
  {
    if s.pc.Pushing? {
      PushStepAccounts(s.results, s.pc.result, s.pc.phase);
    }
  }

  ghost predicate WorkOnly(steps: seq<Step>) {
    forall i :: 0 <= i < |steps| ==> steps[i].Work?
  }

  lemma {:induction false} DoneStays(s: State, steps: seq<Step>)
    requires Capable(s) && s.pc.Done? && WorkOnly(steps)
    ensures Run(s, steps) == s
    decreases |steps|
  {
    if steps != [] {
      assert steps[0].Work?;
      DoneStays(s, steps[1..]);
    }
  }

  lemma {:induction false} Drains(s: State, steps: seq<Step>)
    requires Inv(s) && !s.running && !s.pc.Done? && WorkOnly(steps) && |steps| >= Distance(s)
    ensures var s' := Run(s, steps);
      s'.pc.Done? && s'.tasks.ring.items == [] && s'.accepted == s.accepted
    decreases |steps|
  {
    var s1 := OneWorkStep(s, steps);
    StoppedWorkerAdvances(s, steps[0].nowMs, steps[0].hal);
    if s1.pc.Done? {
      DoneStays(s1, steps[1..]);
    } else {
      Drains(s1, steps[1..]);
    }
  }

  lemma OneWorkStep(s: State, steps: seq<Step>) returns (s1: State)
    requires Inv(s) && WorkOnly(steps) && steps != []
    ensures steps[0].Work? && s1 == WorkStep(s, steps[0].nowMs, steps[0].hal)
    ensures Inv(s1) && WorkOnly(steps[1..]) && Run(s, steps) == Run(s1, steps[1..])
  {
    assert steps[0].Work?;
    s1 := WorkStep(s, steps[0].nowMs, steps[0].hal);
    WorkKeepsInv(s, steps[0].nowMs, steps[0].hal);
  }

  /** After the loop, whatever is not yet paid is still owed. */
  lemma {:induction false} OwedIsPaid(s: State, steps: seq<Step>)
    requires Inv(s) && AfterLoop(s.pc) && WorkOnly(steps)
    requires s.pc.Done? ==> s.tasks.ring.items == []
    ensures var s' := Run(s, steps); s'.attempted + Owed(s') == s.attempted + Owed(s)
    decreases |steps|
  {
    if steps != [] {
      if s.pc.Done? {
        DoneStays(s, steps);
      } else {
        var s1 := OneWorkStep(s, steps);
        OwedShrinks(s, steps[0].nowMs, steps[0].hal);
        OwedIsPaid(s1, steps[1..]);
      }
    }
  }

  lemma NothingOwed(s: State)
    requires s.pc.Done? && s.tasks.ring.items == []
    ensures s.attempted + Owed(s) == s.attempted
  {
  }

  /** Once stopped and left alone, wherever it stands and whatever the clock and the calls answer, the worker
      ends with an empty queue and every accepted task answered; after its loop by cancellations, in order. */
  lemma StoppedWorkerEnds(s: State, steps: seq<Step>)
    requires Inv(s) && !s.running && !s.pc.Done? && WorkOnly(steps) && |steps| >= Distance(s)
    ensures var s' := Run(s, steps);
      && s'.pc.Done? && s'.tasks.ring.items == [] && s'.accepted == s.accepted == |s'.attempted|
      && (AfterLoop(s.pc) ==> s'.attempted == s.attempted + Owed(s))
  {
    Drains(s, steps);
    RunKeepsInv(s, steps);
    if AfterLoop(s.pc) {
      OwedIsPaid(s, steps);
      NothingOwed(Run(s, steps));
    }
  }
}

/** The worker's own code over the two queue objects, with no other thread running. */
module UbusThread {
  import opened Words
  import opened Tasks
  import opened Results
  import opened UbusWorker
  import TaskQueue
  import ResultQueue

  /** Pushing a sequence of results, one after the other. */
  function AdmitAll(q: ResultQ, rs: seq<UbusResult>): ResultQ
    requires q.ring.capacity > 0
    decreases |rs|
  {
    if rs == [] then q else
      assert Admit(q, rs[0]).0.ring.capacity > 0;
      AdmitAll(Admit(q, rs[0]).0, rs[1..])
  }

  lemma {:induction false} AdmitOneMore(q: ResultQ, rs: seq<UbusResult>, r: UbusResult)
    requires q.ring.capacity > 0
    ensures AdmitAll(q, rs).ring.capacity > 0
    ensures AdmitAll(q, rs + [r]) == Admit(AdmitAll(q, rs), r).0
    decreases |rs|
  {
    if rs == [] {
      assert rs + [r] == [r] && [r][1..] == [];
      assert AdmitAll(q, [r]) == AdmitAll(Admit(q, r).0, []);
    } else {
      assert (rs + [r])[1..] == rs[1..] + [r];
      AdmitOneMore(Admit(q, rs[0]).0, rs[1..], r);
    }
  }

  class UbusThread {
    const taskQueue: TaskQueue.TaskQueue
    const resultQueue: ResultQueue.ResultQueue

    ghost predicate Valid()
      reads this, taskQueue, taskQueue.ring, taskQueue.ring.buffer,
            resultQueue, resultQueue.ring, resultQueue.ring.buffer, resultQueue.abandonedIds
    {
      taskQueue.Valid() && resultQueue.Valid()
    }

    constructor (tq: TaskQueue.TaskQueue, rq: ResultQueue.ResultQueue)
      requires tq.Valid() && rq.Valid()
      ensures Valid() && taskQueue == tq && resultQueue == rq
    {
      taskQueue, resultQueue := tq, rq;
    }

    method ProcessTask(task: Task, nowMs: nat, hal: Option<Invocation>) returns (result: UbusResult)
      requires Valid()
      modifies resultQueue, resultQueue.ring, resultQueue.ring.buffer
      ensures Valid() && taskQueue.Abs() == old(taskQueue.Abs())
      ensures Carries(result, task) && Answers(result, task, Ran(nowMs, hal)) && result == Process(task, nowMs, hal)
      ensures resultQueue.Abs() == Admit(old(resultQueue.Abs()), result).0
    {
      ProcessAnswers(task, nowMs, hal);
      if IsExpired(task, nowMs) {
        result := Failure(task, -ETIMEDOUT);
        var _ := resultQueue.Push(result);
        return;
      }
      result := Failure(task, -ENOTSUP);
      if hal.Some? {
        result := UbusResult(CName(task.service), task.action, hal.value.success, hal.value.errorCode,
                             task.requestId, hal.value.installed, hal.value.running);
      }
      var _ := resultQueue.Push(result);
    }

    /** Answers one task with a cancellation. */
    method Cancel(task: Task, ghost start: ResultQ, ghost done: seq<UbusResult>)
      requires Valid() && start.ring.capacity > 0 && resultQueue.Abs() == AdmitAll(start, done)
      modifies resultQueue, resultQueue.ring, resultQueue.ring.buffer
      ensures Valid() && taskQueue.Abs() == old(taskQueue.Abs())
      ensures resultQueue.Abs() == AdmitAll(start, done + [Failure(task, -ECANCELED)])
    {
      AdmitOneMore(start, done, Failure(task, -ECANCELED));
      var _ := resultQueue.Push(Failure(task, -ECANCELED));
    }

    /** n of the tasks that were queued at the start have been answered; task is the next one, popped. */
    ghost predicate Draining(items: seq<Task>, start: ResultQ, n: nat, task: Option<Task>)
      reads this, taskQueue, taskQueue.ring, taskQueue.ring.buffer,
            resultQueue, resultQueue.ring, resultQueue.ring.buffer, resultQueue.abandonedIds
    {
      && Valid() && start.ring.capacity > 0
      && (if n < |items| then task == Some(items[n]) && taskQueue.Abs().ring.items == items[n + 1..]
          else n == |items| && task.None? && taskQueue.Abs().ring.items == [])
      && (n <= |items| ==> resultQueue.Abs() == AdmitAll(start, CancelAll(items[..n])))
    }

    /** The body of the drain loop. */
    method CancelAndPop(task: Task, ghost items: seq<Task>, ghost start: ResultQ, ghost n: nat)
      returns (next: Option<Task>)
      requires Draining(items, start, n, Some(task))
      modifies taskQueue, taskQueue.ring, taskQueue.ring.buffer, resultQueue, resultQueue.ring, resultQueue.ring.buffer
      ensures Draining(items, start, n + 1, next)
    {
      CancelNext(items, n);
      Cancel(task, start, CancelAll(items[..n]));
      ghost var done := resultQueue.Abs();
      next := taskQueue.TryPop();
      assert resultQueue.Abs() == done;
    }

    /** The loop after the main loop: every queued task is answered with a cancellation, in order. */
    method CancelRemaining()
      requires Valid()
      modifies taskQueue, taskQueue.ring, taskQueue.ring.buffer, resultQueue, resultQueue.ring, resultQueue.ring.buffer
      ensures Valid() && taskQueue.Abs().ring.items == []
      ensures resultQueue.Abs() == AdmitAll(old(resultQueue.Abs()), CancelAll(old(taskQueue.Abs().ring.items)))
    {
      ghost var items := taskQueue.Abs().ring.items;
      ghost var start := resultQueue.Abs();
      ghost var n: nat := 0;
      var task := taskQueue.TryPop();
      assert CancelAll(items[..0]) == [];
      while task.Some?
        invariant n <= |items| && Draining(items, start, n, task)
        decreases |items| - n
      {
        task := CancelAndPop(task.value, items, start, n);
        n := n + 1;
      }
      assert items[..n] == items;
    }
  }
}
