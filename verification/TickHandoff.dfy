/** How the UI thread hands a timer period to the event loop: a stored period, an eventfd count, and an
    atomic exchange. One step per atomic access, read, write or call; a run is any interleaving. */
module TickHandoff {
  /** Where the UI thread stands in ui_thread_apply_tick and event_loop_request_tick. */
  datatype UiPc = UiIdle | Stored(ms: int) | Written(ms: int)

  /** Where another thread stands in event_loop_request_shutdown. */
  datatype ShutdownPc = ShutdownIdle | ShutdownStored

  /** Where the loop stands in event_loop_run and event_loop_handle_control. */
  datatype LoopPc = Polling | Reading | Drained | Exchanged(ms: int) | TestShutdown | Exited

  /** tickMs is the period the loop's timer runs at; belief is the UI thread's record of it. */
  datatype State = State(
    pending: int, fd: nat, tickMs: int, belief: int, shutdown: bool,
    ui: UiPc, requester: ShutdownPc, loop: LoopPc)

  datatype Step =
    | UiApply(ms: nat)  // ui_thread_apply_tick: stores the period unless it equals the belief
    | UiWrite
    | UiBelieve
    | ShutdownStore
    | ShutdownWrite
    | LoopStep

  function Init(): State {
    State(-1, 0, 0, 0, false, UiIdle, ShutdownIdle, Polling)
  }

  predicate Enabled(s: State, step: Step) {
    match step
    case UiApply(_) => s.ui.UiIdle?
    case UiWrite => s.ui.Stored?
    case UiBelieve => s.ui.Written?
    case ShutdownStore => s.requester.ShutdownIdle?
    case ShutdownWrite => s.requester.ShutdownStored?
    case LoopStep => !s.loop.Exited? && (s.loop.Polling? ==> s.fd > 0)
  }

  /** poll returns with the eventfd readable; reads return until the count is zero; then the exchange,
      the timer, and the shutdown flag. */
  function LoopNext(s: State): State
    requires !s.loop.Exited?
  {
    match s.loop
    case Polling => s.(loop := Reading)
    case Reading => if s.fd > 0 then s.(fd := 0) else s.(loop := Drained)
    case Drained => s.(pending := -1, loop := Exchanged(s.pending))
    case Exchanged(v) => s.(tickMs := if v >= 0 then v else s.tickMs, loop := TestShutdown)
    case TestShutdown => s.(loop := if s.shutdown then Exited else Polling)
  }

  function Apply(s: State, step: Step): State
    requires Enabled(s, step)
  {
    match step
    case UiApply(ms) => if ms == s.belief then s else s.(pending := ms, ui := Stored(ms))
    case UiWrite => s.(fd := s.fd + 1, ui := Written(s.ui.ms))
    case UiBelieve => s.(belief := s.ui.ms, ui := UiIdle)
    case ShutdownStore => s.(shutdown := true, requester := ShutdownStored)
    case ShutdownWrite => s.(fd := s.fd + 1, requester := ShutdownIdle)
    case LoopStep => LoopNext(s)
  }

  /** The last period the UI thread asked for. */
  function Latest(s: State): int {
    if s.ui.UiIdle? then s.belief else s.ui.ms
  }

  /** The period the loop will run at once everything on its way has arrived. */
  function Effective(s: State): int {
    if s.pending >= 0 then s.pending
    else if s.loop.Exchanged? && s.loop.ms >= 0 then s.loop.ms
    else s.tickMs
  }

  predicate InTransit(s: State) {
    s.pending >= 0 || !s.ui.UiIdle? || (s.loop.Exchanged? && s.loop.ms >= 0)
  }

  /** A stored period is never left unannounced, and nothing else is ever in effect or on its way. */
  predicate Inv(s: State) {
    && s.pending >= -1
    && (s.loop.Exchanged? ==> s.loop.ms >= -1)
    && Latest(s) == Effective(s) >= 0
    && (s.pending >= 0 ==> s.fd > 0 || s.ui.Stored? || s.loop.Reading? || s.loop.Drained?)
  }

  lemma StepKeepsInv(s: State, step: Step)
    requires Inv(s) && Enabled(s, step)
    ensures Inv(Apply(s, step))
  {
  }

  predicate Feasible(s: State, steps: seq<Step>)
    decreases |steps|
  {
    steps == [] || (Enabled(s, steps[0]) && Feasible(Apply(s, steps[0]), steps[1..]))
  }

  function After(s: State, steps: seq<Step>): State
    requires Feasible(s, steps)
    decreases |steps|
  {
    if steps == [] then s else After(Apply(s, steps[0]), steps[1..])
  }

  lemma {:induction false} RunKeepsInv(s: State, steps: seq<Step>)
    requires Inv(s) && Feasible(s, steps)
    ensures Inv(After(s, steps))
    decreases |steps|
  {
    if steps != [] {
      RunKeepsInv(Apply(s, steps[0]), steps[1..]);
    }
  }

  /** Whenever nothing is in transit the loop runs at the period the UI thread believes in. */
  lemma BeliefIsTruth(steps: seq<Step>)
    requires Feasible(Init(), steps)
    ensures var s := After(Init(), steps); !InTransit(s) ==> s.tickMs == s.belief
  {
    RunKeepsInv(Init(), steps);
  }

  /** Skipping a request for the believed period is sound: that period is already what the loop will run at. */
  lemma SuppressionIsSound(steps: seq<Step>, ms: nat)
    requires Feasible(Init(), steps) && Enabled(After(Init(), steps), UiApply(ms))
    ensures var s := After(Init(), steps);
      Apply(s, UiApply(ms)) == s <==> Effective(s) == ms
  {
    RunKeepsInv(Init(), steps);
  }

  /** A stored period cannot be slept through: with the UI thread at rest, poll has something to return for. */
  lemma PollReturns(steps: seq<Step>)
    requires Feasible(Init(), steps)
    ensures var s := After(Init(), steps);
      s.pending >= 0 && s.ui.UiIdle? && s.loop.Polling? ==> Enabled(s, LoopStep)
  {
    RunKeepsInv(Init(), steps);
  }

  predicate Settled(s: State) {
    s.pending == -1 && !(s.loop.Exchanged? && s.loop.ms >= 0)
  }

  /** Loop steps left until nothing is in transit. */
  function Distance(s: State): nat {
    if Settled(s) then 0 else
      match s.loop
      case Exchanged(_) => if s.pending >= 0 then 7 else 1
      case TestShutdown => 6
      case Polling => 5
      case Reading => if s.fd > 0 then 4 else 3
      case Drained => 2
      case Exited => 0
  }

  /** From any reachable state, if the UI thread rests and no shutdown was asked for, at most seven steps
      of the loop alone bring it to the believed period. */
  lemma {:induction false} LoopCatchesUp(s: State) returns (n: nat)
    requires Inv(s) && s.ui.UiIdle? && !s.shutdown && !s.loop.Exited?
    ensures n <= Distance(s) <= 7 && Feasible(s, Repeat(n))
    ensures var s' := After(s, Repeat(n)); Settled(s') && s'.tickMs == s.belief == s'.belief
    decreases Distance(s)
  {
    if Settled(s) {
      n := 0;
    } else {
      StepKeepsInv(s, LoopStep);
      var m := LoopCatchesUp(LoopNext(s));
      n := m + 1;
      assert Repeat(n)[1..] == Repeat(m);
    }
  }

  function Repeat(n: nat): seq<Step> {
    seq(n, _ => LoopStep)
  }

  /** The steps of one event_loop_handle_control with no other thread in between. */
  function PassLength(s: State): nat {
    if s.fd > 0 then 5 else 4
  }

  lemma OnePass(s: State)
    requires s.loop.Reading?
    ensures Feasible(s, Repeat(PassLength(s)))
    ensures After(s, Repeat(PassLength(s))) ==
      s.(fd := 0, pending := -1, tickMs := if s.pending >= 0 then s.pending else s.tickMs,
         loop := if s.shutdown then Exited else Polling)
  {
    if s.fd > 0 {
      Unroll(s, 5);
    }
    var s1 := s.(fd := 0);
    var s2 := s1.(loop := Drained);
    Unroll(s1, 4);
    Unroll(s2, 3);
    Unroll(LoopNext(s2), 2);
    Unroll(LoopNext(LoopNext(s2)), 1);
  }

  lemma Unroll(s: State, n: nat)
    requires n > 0 && Enabled(s, LoopStep)
    ensures Feasible(s, Repeat(n)) <==> Feasible(LoopNext(s), Repeat(n - 1))
    ensures Feasible(s, Repeat(n)) ==> After(s, Repeat(n)) == After(LoopNext(s), Repeat(n - 1))
  {
    assert Repeat(n)[1..] == Repeat(n - 1);
  }
}

/** The loop's handling of control events with no other thread in between. */
module EventLoop {
  import opened TickHandoff
  import Events
  import EventQueue

  class EventLoop {
    const queue: EventQueue.EventQueue
    var pendingTickMs: int
    var eventFd: nat
    var tickMs: int
    var shutdownRequested: bool
    var running: bool
    ghost var ui: UiPc     // where the UI thread stands
    ghost var belief: int  // the period it believes in

    /** The hand-off between two calls of these methods. */
    ghost function Abs(): State
      reads this
    {
      State(pendingTickMs, eventFd, tickMs, belief, shutdownRequested, ui, ShutdownIdle,
            if running then Polling else Exited)
    }

    ghost predicate Valid()
      reads this
    {
      Inv(Abs())
    }

    /** event_loop_init, and event_loop_run up to its first poll. */
    constructor (queue: EventQueue.EventQueue)
      ensures this.queue == queue && Valid() && Abs() == Init()
    {
      this.queue := queue;
      pendingTickMs, eventFd, tickMs, shutdownRequested, running := -1, 0, 0, false, true;
      ui, belief := UiIdle, 0;
    }

    /** A request for a period the UI thread does not already believe in is its first two steps of the hand-off. */
    method RequestTick(ms: int)
      requires ui.UiIdle?
      modifies this`pendingTickMs, this`eventFd, this`ui
      ensures pendingTickMs == ms && eventFd == old(eventFd) + 1
      ensures ms >= 0 && ms != belief ==> Abs() == Apply(Apply(old(Abs()), UiApply(ms)), UiWrite)
      ensures ms >= 0 && ms != belief && old(Valid()) ==> Valid() && InTransit(Abs()) && Effective(Abs()) == ms
    {
      pendingTickMs := ms;
      eventFd := eventFd + 1;
      ui := if ms >= 0 then Written(ms) else ui;
    }

    /** A request for shutdown is both steps of its protocol: with the loop in poll it has something to return for,
        and its period is not disturbed. */
    method RequestShutdown()
      modifies this`shutdownRequested, this`eventFd
      ensures Abs() == Apply(Apply(old(Abs()), ShutdownStore), ShutdownWrite)
      ensures old(Valid()) ==> Valid() && Effective(Abs()) == Effective(old(Abs()))
      ensures running ==> Enabled(Abs(), LoopStep)
    {
      shutdownRequested := true;
      eventFd := eventFd + 1;
    }

    /** Once poll has returned, one pass is a run of the loop's own steps: it leaves no count and no stored period;
        a requested shutdown is queued and ends the loop. */
    method HandleControl(nowNs: nat)
      requires queue.Valid()
      modifies this`eventFd, this`pendingTickMs, this`tickMs, this`running, queue, queue.ring, queue.ring.buffer
      ensures queue.Valid() && eventFd == 0 && pendingTickMs == -1
      ensures tickMs == if old(pendingTickMs) >= 0 then old(pendingTickMs) else old(tickMs)
      ensures running == (old(running) && !shutdownRequested)
      ensures var start := old(Abs()).(loop := Reading);
        && Feasible(start, Repeat(PassLength(start)))
        && (old(running) ==> Abs() == After(start, Repeat(PassLength(start))))
      ensures old(running) && old(Valid()) ==> Valid()
      ensures queue.ledger == if shutdownRequested
        then Events.PushEvent(old(queue.ledger), Events.Event(Events.Shutdown, 0, nowNs, 0)).0 else old(queue.ledger)
    {
      OnePass(Abs().(loop := Reading));
      while eventFd > 0
        invariant pendingTickMs == old(pendingTickMs) && tickMs == old(tickMs) && running == old(running)
        invariant queue.Valid() && queue.ledger == old(queue.ledger)
      {
        eventFd := 0;
      }
      var pending := pendingTickMs;
      pendingTickMs := -1;
      if pending >= 0 {
        tickMs := pending;
      }
      if shutdownRequested {
        var _ := queue.Push(Events.Event(Events.Shutdown, 0, nowNs, 0));
        running := false;
      }
    }
  }
}

/** When the UI thread asks for which period. */
module UiThread {
  import opened Words
  import opened Events
  import TickHandoff
  import EventLoop

  const ANIM_TICK_MS: int := 50
  const IDLE_TICK_MS: int := 1000
  const ANIM_TICKS: int := 10
  const INT_MAX: int := 0x7FFF_FFFF

  /** The cast of an unsigned 32-bit count to int. */
  function ToInt32(x: uint32): int {
    if x <= INT_MAX then x else x - U32
  }

  /** Subtraction of ints. C leaves it undefined when the difference does not fit; here it wraps. */
  function IntSub(a: int, b: int): int {
    ToInt32((a - b) % U32)
  }

  predicate IsButton(k: EventType) {
    k.K1Short? || k.K2Short? || k.K3Short? || k.K1Long? || k.K2Long? || k.K3Long?
  }

  /** The tick state of the thread, and the periods it asked the loop for. */
  datatype Ui = Ui(tickMs: int, animTicksLeft: int, tickActive: bool, requests: seq<int>)

  /** An event; powerOn and animating are as the controllers left them. */
  datatype Input = Input(event: Event, powerOn: bool, animating: bool)

  function ApplyTick(u: Ui, ms: int): Ui {
    if ms == u.tickMs then u else u.(tickMs := ms, requests := u.requests + [ms])
  }

  /** How many ticks a tick event stands for. */
  function StepOf(data: uint32): uint32 {
    if data != 0 then data else 1
  }

  /** What the thread's tick state becomes after an event. */
  function Handle(u: Ui, x: Input): Ui {
    var kind := x.event.kind;
    if kind.Shutdown? || !x.powerOn then
      if u.tickActive then ApplyTick(u, 0).(tickActive := false, animTicksLeft := 0) else u
    else if kind.Tick? && u.tickActive then
      if x.animating then ApplyTick(u, ANIM_TICK_MS).(animTicksLeft := ANIM_TICKS)
      else
        var step := ToInt32(StepOf(x.event.data));
        if u.animTicksLeft <= 0 then u
        else if step >= u.animTicksLeft then ApplyTick(u, IDLE_TICK_MS).(animTicksLeft := 0)
        else u.(animTicksLeft := IntSub(u.animTicksLeft, step))
    else if IsButton(kind) then ApplyTick(u, ANIM_TICK_MS).(tickActive := true, animTicksLeft := ANIM_TICKS)
    else u
  }

  /** Fast ticks exactly while a countdown runs, slow ticks when it has run out, none when inactive; no
      period is asked for twice in a row. */
  ghost predicate Inv(u: Ui) {
    && 0 <= u.animTicksLeft <= INT_MAX && (!u.tickActive ==> u.animTicksLeft == 0)
    && u.tickMs == (if !u.tickActive then 0 else if u.animTicksLeft > 0 then ANIM_TICK_MS else IDLE_TICK_MS)
    && u.requests != [] && u.requests[|u.requests| - 1] == u.tickMs
    && forall i :: 0 < i < |u.requests| ==> u.requests[i - 1] != u.requests[i]
  }

  /** The event counts down. */
  predicate CountsDown(u: Ui, x: Input) {
    x.event.kind.Tick? && x.powerOn && !x.animating && u.tickActive && u.animTicksLeft > 0
  }

  /** A merged count just past what an int holds. */
  predicate Overflows(u: Ui, x: Input) {
    CountsDown(u, x) && 0x8000_0000 <= x.event.data <= 0x8000_0000 + u.animTicksLeft
  }

  /** The difference that the countdown stores, when it stores one, fits an int exactly for these counts. */
  lemma DifferenceFitsIff(left: int, data: uint32)
    requires 0 < left <= INT_MAX
    ensures var step := ToInt32(StepOf(data));
      step >= left || -INT_MAX - 1 <= left - step <= INT_MAX <==> !(0x8000_0000 <= data <= 0x8000_0000 + left)
  {
  }

  /** A tick keeps the discipline exactly when its difference fits: past it, the countdown turns negative and
      fast ticks go on without end. */
  lemma HandleKeepsInvIff(u: Ui, x: Input)
    requires Inv(u)
    ensures Inv(Handle(u, x)) <==> !Overflows(u, x)
  {
    if CountsDown(u, x) {
      DifferenceFitsIff(u.animTicksLeft, x.event.data);
    }
  }

  /** While the difference fits, a tick moves the countdown down exactly when its merged count fits an int. */
  lemma CountdownFallsIff(u: Ui, x: Input)
    requires Inv(u) && CountsDown(u, x) && !Overflows(u, x)
    ensures Handle(u, x).animTicksLeft < u.animTicksLeft <==> x.event.data < 0x8000_0000
  {
  }

  /** A merged count of 2^31 on a full countdown: the difference, 2^31 + 10, is no int. */
  lemma CountdownCanOverflow()
    ensures var u := Ui(50, 10, true, [50]);
      var x := Input(Event(Tick, 0, 0, 0x8000_0000), true, false);
      && Inv(u) && Overflows(u, x)
      && u.animTicksLeft - ToInt32(x.event.data) == 2147483658 > INT_MAX
      && Handle(u, x) == u.(animTicksLeft := -2147483638)
      && forall more: seq<Input> :: (forall i :: 0 <= i < |more| ==> more[i] == x) ==>
           Run(Handle(u, x), more) == Handle(u, x)
  {
    var u := Ui(50, 10, true, [50]);
    var x := Input(Event(Tick, 0, 0, 0x8000_0000), true, false);
    forall more: seq<Input> | forall i :: 0 <= i < |more| ==> more[i] == x
      ensures Run(Handle(u, x), more) == Handle(u, x)
    {
      StuckFast(Handle(u, x), more);
    }
  }

  /** A negative countdown never ends by ticks alone. */
  lemma {:induction false} StuckFast(u: Ui, inputs: seq<Input>)
    requires u.tickActive && u.animTicksLeft < 0
    requires forall i :: 0 <= i < |inputs| ==> inputs[i].event.kind.Tick? && inputs[i].powerOn && !inputs[i].animating
    ensures Run(u, inputs) == u
    decreases |inputs|
  {
    if inputs != [] {
      assert Handle(u, inputs[0]) == u;
      StuckFast(u, inputs[1..]);
    }
  }

  /** What each event does. Shutdown and a dark screen stop the ticks. A button starts fast ones and a countdown of
      ten. A tick during an animation starts the countdown anew; on a static screen it counts down by the ticks it
      stands for, at least one, and the last makes the ticks slow. Nothing else matters. */
  lemma HandleMeaning(u: Ui, x: Input)
    requires Inv(u) && (x.event.kind.Tick? ==> x.event.data < 0x8000_0000)
    ensures var u', kind := Handle(u, x), x.event.kind;
      if kind.Shutdown? || !x.powerOn then u'.tickMs == 0 && !u'.tickActive && u'.animTicksLeft == 0
      else if IsButton(kind) then u'.tickMs == 50 && u'.tickActive && u'.animTicksLeft == 10
      else if !kind.Tick? || !u.tickActive then u' == u
      else if x.animating then u'.tickMs == 50 && u'.tickActive && u'.animTicksLeft == 10
      else
        var left := u.animTicksLeft - (if x.event.data == 0 then 1 else x.event.data);
        u'.tickActive && if left > 0 then u'.animTicksLeft == left && u'.tickMs == 50
                         else u'.animTicksLeft == 0 && u'.tickMs == 1000
    ensures Handle(u, x).requests == if Handle(u, x).tickMs == u.tickMs then u.requests
                                     else u.requests + [Handle(u, x).tickMs]
  {
  }

  function Run(u: Ui, inputs: seq<Input>): Ui
    decreases |inputs|
  {
    if inputs == [] then u else Run(Handle(u, inputs[0]), inputs[1..])
  }

  /** The discipline holds after every event of the run. */
  ghost predicate AlwaysInv(u: Ui, inputs: seq<Input>)
    decreases |inputs|
  {
    Inv(u) && (inputs == [] || AlwaysInv(Handle(u, inputs[0]), inputs[1..]))
  }

  predicate NoOverflow(u: Ui, inputs: seq<Input>)
    decreases |inputs|
  {
    inputs == [] || (!Overflows(u, inputs[0]) && NoOverflow(Handle(u, inputs[0]), inputs[1..]))
  }

  lemma {:induction false} AlwaysInvIff(u: Ui, inputs: seq<Input>)
    requires Inv(u)
    ensures AlwaysInv(u, inputs) <==> NoOverflow(u, inputs)
    ensures NoOverflow(u, inputs) ==> Inv(Run(u, inputs))
    decreases |inputs|
  {
    if inputs != [] {
      HandleKeepsInvIff(u, inputs[0]);
      if !Overflows(u, inputs[0]) {
        AlwaysInvIff(Handle(u, inputs[0]), inputs[1..]);
      } else {
        assert !AlwaysInv(Handle(u, inputs[0]), inputs[1..]);
      }
    }
  }

  function Started(): Ui {
    ApplyTick(Ui(0, 0, true, []), IDLE_TICK_MS)
  }

  ghost predicate SmallCounts(inputs: seq<Input>) {
    forall i :: 0 <= i < |inputs| && inputs[i].event.kind.Tick? ==> inputs[i].event.data < 0x8000_0000
  }

  lemma {:induction false} SmallCountsFit(u: Ui, inputs: seq<Input>)
    requires SmallCounts(inputs) && u.animTicksLeft <= ANIM_TICKS
    ensures NoOverflow(u, inputs) && Run(u, inputs).animTicksLeft <= ANIM_TICKS
    decreases |inputs|
  {
    if inputs != [] {
      assert inputs[0].event.kind.Tick? ==> inputs[0].event.data < 0x8000_0000;
      SmallCountsFit(Handle(u, inputs[0]), inputs[1..]);
    }
  }

  /** From the start, the periods follow the activity throughout exactly as long as no difference overflows;
      with counts below 2^31 none does, and the countdown stays within its ten ticks. */
  lemma PeriodFollowsActivity(inputs: seq<Input>)
    ensures AlwaysInv(Started(), inputs) <==> NoOverflow(Started(), inputs)
    ensures SmallCounts(inputs) ==>
      && AlwaysInv(Started(), inputs) && Inv(Run(Started(), inputs))
      && Run(Started(), inputs).animTicksLeft <= ANIM_TICKS
  {
    AlwaysInvIff(Started(), inputs);
    if SmallCounts(inputs) {
      SmallCountsFit(Started(), inputs);
    }
  }

  class UiThread {
    const loop: EventLoop.EventLoop
    var tickMs: int
    var animTicksLeft: int
    var tickActive: bool
    ghost var requests: seq<int>

    ghost function Abs(): Ui
      reads this
    {
      Ui(tickMs, animTicksLeft, tickActive, requests)
    }

    /** The thread is not inside a request, and its record is what the hand-off calls its belief. */
    ghost predicate Valid()
      reads this, loop
    {
      loop.Valid() && loop.ui.UiIdle? && loop.belief == tickMs
    }

    /** ui_thread_start_default up to the launch of the thread. */
    constructor (loop: EventLoop.EventLoop)
      requires loop.Valid() && loop.ui.UiIdle? && loop.belief == 0
      modifies loop`pendingTickMs, loop`eventFd, loop`ui, loop`belief
      ensures Valid() && this.loop == loop && Abs() == Started() && Inv(Abs())
    {
      this.loop := loop;
      tickMs, animTicksLeft, tickActive, requests := 0, 0, false, [];
      new;
      SwitchIdleTick();
    }

    /** A whole request is the UI thread's three steps of the hand-off; one for the believed period is none. */
    method RequestTick(ms: int)
      requires Valid() && ms >= 0
      modifies this`tickMs, this`requests, loop`pendingTickMs, loop`eventFd, loop`ui, loop`belief
      ensures Valid() && Abs() == ApplyTick(old(Abs()), ms) && TickHandoff.Effective(loop.Abs()) == ms
      ensures loop.Abs() == if ms == old(tickMs) then old(loop.Abs())
        else HandedOff(old(loop.Abs()), ms)
    {
      if ms == tickMs {
        return;
      }
      loop.RequestTick(ms);
      requests := requests + [ms];
      tickMs := ms;
      loop.ui, loop.belief := TickHandoff.UiIdle, ms;
    }

    method StopTick()
      requires Valid()
      modifies this, loop`pendingTickMs, loop`eventFd, loop`ui, loop`belief
      ensures Valid()
      ensures Abs() == if old(tickActive) then ApplyTick(old(Abs()), 0).(tickActive := false, animTicksLeft := 0)
        else old(Abs())
    {
      if !tickActive {
        return;
      }
      RequestTick(0);
      tickActive := false;
      animTicksLeft := 0;
    }

    method StartTick()
      requires Valid()
      modifies this, loop`pendingTickMs, loop`eventFd, loop`ui, loop`belief
      ensures Valid() && Abs() == ApplyTick(old(Abs()), ANIM_TICK_MS).(tickActive := true, animTicksLeft := ANIM_TICKS)
    {
      tickActive := true;
      animTicksLeft := ANIM_TICKS;
      RequestTick(ANIM_TICK_MS);
    }

    method SwitchIdleTick()
      requires Valid()
      modifies this, loop`pendingTickMs, loop`eventFd, loop`ui, loop`belief
      ensures Valid() && Abs() == ApplyTick(old(Abs()), IDLE_TICK_MS).(tickActive := true, animTicksLeft := 0)
    {
      tickActive := true;
      animTicksLeft := 0;
      RequestTick(IDLE_TICK_MS);
    }

    method DefaultHandle(x: Input)
      requires Valid()
      modifies this, loop`pendingTickMs, loop`eventFd, loop`ui, loop`belief
      ensures Valid() && Abs() == Handle(old(Abs()), x)
    {
      if x.event.kind.Shutdown? {
        StopTick();
        return;
      }
      if !x.powerOn {
        StopTick();
        return;
      }
      if x.event.kind.Tick? && tickActive {
        if x.animating {
          animTicksLeft := ANIM_TICKS;
          if tickMs != ANIM_TICK_MS {
            RequestTick(ANIM_TICK_MS);
          }
        } else {
          CountDown(x.event.data);
        }
        return;
      }
      if IsButton(x.event.kind) {
        StartTick();
      }
    }

    /** The static-screen branch of a tick. */
    method CountDown(data: uint32)
      requires Valid() && tickActive
      modifies this, loop`pendingTickMs, loop`eventFd, loop`ui, loop`belief
      ensures Valid() && Abs() == Handle(old(Abs()), Input(Event(Tick, 0, 0, data), true, false))
    {
      var step := if data != 0 then data else 1;
      if animTicksLeft > 0 {
        if ToInt32(step) >= animTicksLeft {
          animTicksLeft := 0;
          SwitchIdleTick();
        } else {
          animTicksLeft := IntSub(animTicksLeft, ToInt32(step));
        }
      }
    }
  }

  /** The hand-off after the UI thread's three steps for a new period. */
  function HandedOff(s: TickHandoff.State, ms: int): TickHandoff.State
    requires s.ui.UiIdle? && ms >= 0 && ms != s.belief
  {
    var s1 := TickHandoff.Apply(s, TickHandoff.UiApply(ms));
    TickHandoff.Apply(TickHandoff.Apply(s1, TickHandoff.UiWrite), TickHandoff.UiBelieve)
  }
}
