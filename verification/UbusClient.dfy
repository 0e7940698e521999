/** The code that drives the request table: the ubus HAL's entry points and callbacks, and the two
    sys_status callbacks they call back into, over one object for the program's global state.
    `*` stands for what libubus, malloc and the clock answer. */
module UbusClient {
  import opened Words
  import opened UbusTable

  const TIMEOUT_RESET_THRESHOLD: nat := 3
  const BACKOFF_MAX_SEC: nat := 60
  const REFRESH_INTERVAL_MS: nat := 5000

  /** The libubus statuses that the completion callback tells apart. */
  datatype Ret = RetOk | RetTimeout | RetNotFound | RetConnectionFailed | RetInvalidArgument | RetOther

  function HalStatus(ret: Ret): int {
    match ret
    case RetOk => STATUS_OK
    case RetTimeout => STATUS_TIMEOUT
    case RetNotFound => STATUS_NOT_FOUND
    case RetConnectionFailed => STATUS_CONN_FAILED
    case RetInvalidArgument => STATUS_ERROR
    case RetOther => STATUS_ERROR
  }

  /** The statuses by number. Only OK is OK; a refused argument and anything unknown is a general error. */
  lemma HalStatusMeaning(ret: Ret)
    ensures HalStatus(ret) == match ret
      case RetOk => 0
      case RetConnectionFailed => 4
      case RetNotFound => 5
      case RetTimeout => 7
      case _ => -1
    ensures HalStatus(ret) == STATUS_OK <==> ret.RetOk?
  {
  }

  const INT_MAX: int := 0x7FFF_FFFF

  /** The value of `1 << n`, if there is one. */
  function Pow2(n: nat): (p: nat)
    ensures p > n
  {
    if n == 0 then 1 else 2 * Pow2(n - 1)
  }

  /** The delay after so many failures in a row; None where the shift of an int is undefined. */
  function BackoffDelay(failures: nat): Option<nat> {
    if failures == 0 then Some(0)
    else if Pow2(failures - 1) > INT_MAX then None
    else Some(if Pow2(failures - 1) > BACKOFF_MAX_SEC then BACKOFF_MAX_SEC else Pow2(failures - 1))
  }

  lemma {:induction false} Pow2Grows(m: nat, n: nat)
    requires m <= n
    ensures Pow2(m) <= Pow2(n)
    decreases n
  {
    if m < n {
      Pow2Grows(m, n - 1);
    }
  }

  lemma Pow2Of31()
    ensures Pow2(30) == 0x4000_0000 && Pow2(31) == 0x8000_0000
  {
    assert Pow2(6) == 0x40;
    assert Pow2(12) == 0x1000;
    assert Pow2(18) == 0x4_0000;
    assert Pow2(24) == 0x100_0000;
  }

  /** The code has a delay exactly up to the 31st failure in a row. */
  lemma DelayDefinedIff(failures: nat)
    ensures BackoffDelay(failures).Some? <==> failures <= 31
  {
    Pow2Of31();
    if 0 < failures <= 31 {
      Pow2Grows(failures - 1, 30);
    } else if failures > 31 {
      Pow2Grows(31, failures - 1);
    }
  }

  /** It is then between 1 and 60 s after a failure, and each further failure doubles it up to 60 s. */
  lemma BackoffDoubles(failures: nat)
    requires 0 < failures <= 31
    ensures BackoffDelay(failures).Some? && 1 <= BackoffDelay(failures).value <= 60
    ensures failures < 31 ==>
      var d := 2 * BackoffDelay(failures).value;
      BackoffDelay(failures + 1) == Some(if d > 60 then 60 else d)
  {
    DelayDefinedIff(failures);
    DelayDefinedIff(failures + 1);
  }

  /** From the seventh failure to the 31st the delay is at its limit; it is not before. */
  lemma LimitReachedIff(failures: nat)
    requires failures <= 31
    ensures BackoffDelay(failures) == Some(60) <==> failures >= 7
  {
    DelayDefinedIff(failures);
    assert Pow2(5) == 32 && Pow2(6) == 64;
    if failures >= 7 {
      Pow2Grows(6, failures - 1);
    } else if failures > 0 {
      Pow2Grows(failures - 1, 5);
    }
  }

  /** The 32nd failure in a row asks for 2^31, which is no int. */
  lemma NoDelayAfter32()
    ensures BackoffDelay(31) == Some(BACKOFF_MAX_SEC) && BackoffDelay(32).None? && Pow2(31) == INT_MAX + 1
  {
    DelayDefinedIff(32);
    LimitReachedIff(31);
    Pow2Of31();
  }

  /** One attribute of a reply: a table with a name and a running flag, or something else. */
  datatype Attr = Attr(isTable: bool, name: string, running: bool)

  function FirstReply(attrs: seq<Attr>, service: string): Option<Attr> {
    if attrs == [] then None
    else if attrs[0].isTable && attrs[0].name == service then Some(attrs[0])
    else FirstReply(attrs[1..], service)
  }

  function Heard(s: Slot, attrs: seq<Attr>): Slot {
    var a := FirstReply(attrs, s.service);
    if a.None? then s else s.(installed := true, running := s.running || a.value.running)
  }

  /** strncpy into a 32-byte name that is then terminated. */
  function CName(s: string): string {
    if |s| < 32 then s else s[..31]
  }

  /** A reply counts if some attribute is a table named after the service: then the first of these says that the
      service exists, and may say that it runs; a service once heard to run stays so. */
  lemma {:induction false} HeardMeaning(s: Slot, attrs: seq<Attr>, n: nat)
    requires n <= |attrs| && forall i :: 0 <= i < n ==> !(attrs[i].isTable && attrs[i].name == s.service)
    requires n < |attrs| ==> attrs[n].isTable && attrs[n].name == s.service
    ensures Heard(s, attrs) ==
      if n == |attrs| then s else s.(installed := true, running := s.running || attrs[n].running)
    decreases n
  {
    if n > 0 {
      HeardMeaning(s, attrs[1..], n - 1);
    }
  }

  /** The same contexts, for the same services and purposes; calls and frees may have been added. */
  ghost predicate SameContexts(before: seq<Ctx>, after: seq<Ctx>) {
    && |after| == |before|
    && forall c :: 0 <= c < |after| ==>
         after[c].purpose == before[c].purpose && after[c].owner == before[c].owner
           && after[c].rejected == before[c].rejected
  }

  /** A service that sys_status_query_services asks about: not pending, and not heard of lately. */
  predicate Due(s: Service, nowMs: nat) {
    !s.queryPending && !(s.lastUpdateMs > 0 && Sub64(nowMs, s.lastUpdateMs) < REFRESH_INTERVAL_MS)
  }

  /** A service that nothing was asked about or heard of for 5 s; the clock counts modulo 2^64. */
  predicate NeedsQuery(s: Service, nowMs: nat) {
    && !s.queryPending
    && (s.lastUpdateMs == 0 ||
        if s.lastUpdateMs <= nowMs then s.lastUpdateMs + 5000 <= nowMs
        else s.lastUpdateMs + 5000 <= nowMs + 0x1_0000_0000_0000_0000)
  }

  lemma DueIff(s: Service, nowMs: nat)
    requires s.lastUpdateMs < U64 && nowMs < U64
    ensures Due(s, nowMs) <==> NeedsQuery(s, nowMs)
  {
  }

  /** Of the first n services, each that needed a query in b and got memory owns a new context in a; and each new
      context belongs to a service that got memory, and needed a query in b or was called back since. */
  ghost predicate AskedRight(b: Table, a: Table, n: nat, nowMs: nat, memory: seq<bool>) {
    && (forall k :: 0 <= k < n && k < |b.services| && k < |memory| && memory[k] && NeedsQuery(b.services[k], nowMs) ==>
          exists c :: |b.heap| <= c < |a.heap| && a.heap[c].owner == k)
    && forall c :: |b.heap| <= c < |a.heap| ==>
         var k := a.heap[c].owner;
         && k < |b.services| && k < |memory| && memory[k]
         && (NeedsQuery(b.services[k], nowMs) || Called(b.heap, a.heap, k))
  }

  /** Every live slot was released and its callback called with status; nothing else moved. */
  ghost predicate AllAborted(b: Table, a: Table, status: int) {
    && |a.slots| == |b.slots| && |a.heap| == |b.heap| && CalledBack(b, a)
    && (forall j :: 0 <= j < |b.slots| ==>
         a.slots[j] == if Live(b.slots, j) then Released(Taken(b.slots[j])) else b.slots[j])
    && (forall c :: 0 <= c < |b.heap| ==> a.heap[c] == if Held(b, c) then Freed(b.heap[c], status) else b.heap[c])
  }

  lemma BusyAborted(b: Table, a: Table, status: int, busy: set<int>)
    requires AllAborted(b, a, status) && Busy(b.slots, busy)
    ensures Busy(a.slots, busy)
    ensures forall j :: 0 <= j < |a.slots| && j !in busy ==> !a.slots[j].inUse
  {
    forall j | 0 <= j < |a.slots| ensures HalfDone(a.slots, j) == HalfDone(b.slots, j) {
    }
    forall j | 0 <= j < |a.slots| && j !in busy ensures !a.slots[j].inUse {
      assert !HalfDone(b.slots, j);
    }
  }

  /** The back-off delay after these failures is not over. */
  predicate TooSoon(now: int, lastAttempt: int, failures: nat) {
    0 < failures && BackoffDelay(failures).Some? && now - lastAttempt < BackoffDelay(failures).value
  }

  lemma TooSoonIff(now: int, lastAttempt: int, failures: nat)
    requires failures <= 31
    ensures BackoffDelay(failures).Some?
    ensures TooSoon(now, lastAttempt, failures) <==> failures > 0 && now < lastAttempt + BackoffDelay(failures).value
  {
    DelayDefinedIff(failures);
  }

  datatype LoopEvent =
    | TimeoutFires(slot: nat)
    | ReplyArrives(slot: nat, attrs: seq<Attr>)
    | RequestCompletes(slot: nat, ret: Ret)
    | QueryServices(nowMs: nat, memory: seq<bool>)
    | ControlService(index: int, start: bool)
    | InitHal
    | CleanupHal

  class UbusClient {
    const slots: array<Slot>
    const services: array<Service>
    var heap: seq<Ctx>
    var connected: bool
    var rcId: nat
    var failures: nat
    var lastAttempt: int
    var initialized: bool
    var nextRequestId: uint32
    ghost var leaked: set<nat>

    ghost function View(): Table
      reads this, slots, services
    {
      Table(slots[..], services[..], heap, connected, leaked)
    }

    ghost predicate Ok(hand: set<nat>)
      reads this, slots, services
    {
      Inv(View(), hand)
    }

    ghost predicate Valid()
      reads this, slots, services
    {
      && Quiet(View()) && nextRequestId != 0
      && (initialized || forall i :: 0 <= i < slots.Length ==> !slots[i].inUse)
    }

    /** The callback of context c waits in a slot, or has been called once with a failure. */
    ghost predicate Promised(c: nat)
      reads this, slots, services
    {
      c < |heap| && (Held(View(), c) || heap[c].outcomes == [STATUS_CONN_FAILED] || heap[c].outcomes == [STATUS_ERROR])
    }

    /** The program before ubus_hal->init, monitoring services with distinct names. */
    constructor (names: seq<string>)
      requires |names| <= 8
      requires forall k :: 0 <= k < |names| ==> |names[k]| < 32
      requires forall j, k :: 0 <= j < k < |names| ==> names[j] != names[k]
      ensures Valid() && heap == [] && leaked == {} && !initialized
      ensures services.Length == |names| && forall k :: 0 <= k < |names| ==> services[k].name == names[k]
    {
      slots := new Slot[16](_ => Slot(false, false, false, "", 0, false, false, false, false));
      services := new Service[|names|](k requires 0 <= k < |names| =>
        Service(names[k], false, false, false, false, 0, 0, 0));
      heap, connected, rcId, failures, lastAttempt := [], false, 0, 0, 0;
      initialized, nextRequestId, leaked := false, 1, {};
    }

    method SetSlot(i: nat, s: Slot)
      requires i < slots.Length
      modifies slots
      ensures slots[..] == old(slots[..])[i := s]
    {
      slots[i] := s;
    }

    method SetService(k: nat, s: Service)
      requires k < services.Length
      modifies services
      ensures services[..] == old(services[..])[k := s]
    {
      services[k] := s;
    }

    /** service_query_cb */
    method ServiceQueryCb(name: string, installed: bool, running: bool, status: int, c: nat) returns (nowMs: nat)
      requires c < |heap| && heap[c].purpose.Query?
      modifies this`heap, services
      ensures View() == DeliverQuery(old(View()), c, name, installed, running, status, nowMs)
    {
      nowMs := *;
      var k := 0;
      while k < services.Length
        invariant 0 <= k <= services.Length && k <= Named(services[..], name)
        invariant View() == old(View())
      {
        if services[k].name == name {
          assert k == Named(services[..], name);
          if services[k].requestId == heap[c].purpose.requestId {
            SetService(k, Answered(services[k], installed, running, status, nowMs));
          }
          break;
        }
        k := k + 1;
      }
      heap := heap[c := Freed(heap[c], status)];
    }

    /** service_control_cb */
    method ServiceControlCb(status: int, c: nat)
      requires c < |heap| && heap[c].purpose.Control?
      modifies this`heap, services
      ensures View() == DeliverControl(old(View()), c, status)
    {
      var k := heap[c].owner;
      if k < services.Length {
        SetService(k, services[k].(lastUpdateMs := 0,
          running := if status == STATUS_OK then heap[c].purpose.start else services[k].running));
      }
      heap := heap[c := Freed(heap[c], status)];
    }

    /** The call of a slot's own callback. The answer always reaches the service it was asked for. */
    method Notify(i: nat, installed: bool, running: bool, status: int, ghost hand: set<nat>) returns (nowMs: nat)
      requires Ok(hand) && HalfDone(slots[..], i)
      requires var c := slots[i].priv;
        c in hand && heap[c].purpose.Query? == slots[i].isQuery
        && heap[c].owner < services.Length && slots[i].service == services[heap[c].owner].name
      modifies this`heap, services
      ensures Ok(hand - {slots[i].priv}) && CalledBack(old(View()), View())
      ensures heap == old(heap)[slots[i].priv := Freed(old(heap)[slots[i].priv], status)]
      ensures slots[i].isQuery ==> var k := old(heap)[slots[i].priv].owner;
        services[..] == old(services[..])[k := Answered(old(services[k]), installed, running, status, nowMs)]
    {
      var c := slots[i].priv;
      if slots[i].isQuery {
        DeliverQueryAnyTime(hand, c, slots[i].service, installed, running, status);
        nowMs := ServiceQueryCb(slots[i].service, installed, running, status, c);
      } else {
        DeliverControlKeeps(View(), hand, c, status);
        nowMs := 0;
        ServiceControlCb(status, c);
      }
    }

    lemma DeliverQueryAnyTime(hand: set<nat>, c: nat, name: string, installed: bool, running: bool, status: int)
      requires Ok(hand) && c in hand && heap[c].purpose.Query?
        && heap[c].owner < services.Length && name == services[heap[c].owner].name
      ensures forall now :: 0 <= now ==>
        var m', k := DeliverQuery(View(), c, name, installed, running, status, now), heap[c].owner;
        && m'.services == View().services[k := Answered(View().services[k], installed, running, status, now)]
        && Inv(m', hand - {c}) && CalledBack(View(), m')
    {
      forall now | 0 <= now
        ensures var m', k := DeliverQuery(View(), c, name, installed, running, status, now), heap[c].owner;
          && m'.services == View().services[k := Answered(View().services[k], installed, running, status, now)]
          && Inv(m', hand - {c}) && CalledBack(View(), m')
      {
        DeliverQueryKeeps(View(), hand, c, name, installed, running, status, now);
      }
    }

    /** Slot i is half done and its callback still has to be called. */
    ghost predicate Owed(i: nat, hand: set<nat>)
      reads this, slots, services
    {
      && Ok(hand) && HalfDone(slots[..], i)
      && var c := slots[i].priv;
      && c in hand && heap[c].purpose.Query? == slots[i].isQuery
      && heap[c].owner < services.Length && slots[i].service == services[heap[c].owner].name
    }

    /** Marks a live slot completed and cancels its timer. */
    method TakeSlot(i: nat, ghost hand: set<nat>)
      requires Ok(hand) && Live(slots[..], i)
      modifies slots
      ensures slots[..] == old(slots[..])[i := Taken(old(slots[i]))]
      ensures slots[i].priv !in hand && Owed(i, hand + {slots[i].priv})
    {
      TakeKeeps(View(), hand, i);
      SetSlot(i, Taken(slots[i]));
    }

    /** Calls the callback of a half-done slot, then releases the slot. */
    method NotifyAndRelease(i: nat, installed: bool, running: bool, status: int, ghost hand: set<nat>)
      returns (nowMs: nat)
      requires Owed(i, hand)
      modifies this`heap, slots, services
      ensures Ok(hand - {old(slots[i]).priv}) && CalledBack(old(View()), View())
      ensures slots[..] == old(slots[..])[i := Released(old(slots[i]))]
      ensures heap == old(heap)[old(slots[i]).priv := Freed(old(heap)[old(slots[i]).priv], status)]
      ensures old(slots[i]).isQuery ==> var k := old(heap)[old(slots[i]).priv].owner;
        services[..] == old(services[..])[k := Answered(old(services[k]), installed, running, status, nowMs)]
    {
      ghost var c := slots[i].priv;
      nowMs := Notify(i, installed, running, status, hand);
      IdleSlotKeeps(View(), hand - {c}, i, Released(slots[i]));
      SetSlot(i, Released(slots[i]));
    }

    /** The completion callback: only a live slot is answered, once, and released. */
    method QueryCompleteCb(i: nat, ret: Ret, ghost hand: set<nat>) returns (nowMs: nat)
      requires Ok(hand) && i < slots.Length
      modifies this`heap, this`rcId, this`failures, slots, services
      ensures Ok(hand) && CalledBack(old(View()), View())
      ensures !Live(old(slots[..]), i) ==> View() == old(View()) && rcId == old(rcId) && failures == old(failures)
      ensures Live(old(slots[..]), i) ==>
        && slots[..] == old(slots[..])[i := Released(Taken(old(slots[i])))]
        && heap == old(heap)[old(slots[i]).priv := Freed(old(heap)[old(slots[i]).priv], HalStatus(ret))]
        && failures == (if ret.RetOk? then 0 else if ret.RetConnectionFailed? then old(failures) + 1 else old(failures))
        && rcId == (if ret.RetNotFound? || ret.RetConnectionFailed? || ret.RetInvalidArgument? then 0 else old(rcId))
      ensures Live(old(slots[..]), i) && old(slots[i]).isQuery ==>
        var k := old(heap)[old(slots[i]).priv].owner;
        services[..] == old(services[..])[k :=
          Answered(old(services[k]), old(slots[i]).installed, old(slots[i]).running, HalStatus(ret), nowMs)]
    {
      nowMs := 0;
      if !slots[i].inUse || slots[i].completed {
        return;
      }
      NoteRet(ret);
      nowMs := AnswerSlot(i, HalStatus(ret), hand);
    }

    /** What a completion status says about the connection. */
    method NoteRet(ret: Ret)
      modifies this`rcId, this`failures
      ensures failures == (
        if ret.RetOk? then 0 else if ret.RetConnectionFailed? then old(failures) + 1 else old(failures))
      ensures rcId == (if ret.RetNotFound? || ret.RetConnectionFailed? || ret.RetInvalidArgument? then 0 else old(rcId))
    {
      match ret {
        case RetOk => failures := 0;
        case RetNotFound => rcId := 0;
        case RetConnectionFailed => failures := failures + 1; rcId := 0;
        case RetInvalidArgument => rcId := 0;
        case _ =>
      }
    }

    /** Takes a live slot, calls its callback, and releases it. */
    method AnswerSlot(i: nat, status: int, ghost hand: set<nat>) returns (nowMs: nat)
      requires Ok(hand) && Live(slots[..], i)
      modifies this`heap, slots, services
      ensures Ok(hand) && CalledBack(old(View()), View())
      ensures slots[..] == old(slots[..])[i := Released(Taken(old(slots[i])))]
      ensures heap == old(heap)[old(slots[i]).priv := Freed(old(heap)[old(slots[i]).priv], status)]
      ensures old(slots[i]).isQuery ==> var k := old(heap)[old(slots[i]).priv].owner;
        services[..] == old(services[..])[k :=
          Answered(old(services[k]), old(slots[i]).installed, old(slots[i]).running, status, nowMs)]
    {
      ghost var c := slots[i].priv;
      TakeSlot(i, hand);
      assert hand + {c} - {c} == hand;
      nowMs := NotifyAndRelease(i, slots[i].installed, slots[i].running, status, hand + {c});
    }

    /** ubus_abort_request, which may call the completion callback of the same request synchronously. */
    method AbortRequest(i: nat, ghost hand: set<nat>)
      requires Ok(hand) && i < slots.Length && !Live(slots[..], i)
      modifies this`heap, this`rcId, this`failures, slots, services
      ensures View() == old(View()) && rcId == old(rcId) && failures == old(failures)
    {
      if * {
        var ret: Ret := *;
        var _ := QueryCompleteCb(i, ret, hand);
      }
    }

    /** The body of the loop of abort_all_pending. */
    method AbortOne(i: nat, status: int, ghost hand: set<nat>)
      requires Ok(hand) && Live(slots[..], i)
      modifies this`heap, this`rcId, this`failures, slots, services
      ensures Ok(hand) && CalledBack(old(View()), View()) && rcId == old(rcId) && failures == old(failures)
      ensures slots[..] == old(slots[..])[i := Released(Taken(old(slots[i])))]
      ensures heap == old(heap)[old(slots[i]).priv := Freed(old(heap)[old(slots[i]).priv], status)]
    {
      ghost var c := slots[i].priv;
      TakeSlot(i, hand);
      if connected {
        AbortRequest(i, hand + {c});
      }
      assert hand + {c} - {c} == hand;
      var _ := NotifyAndRelease(i, false, false, status, hand + {c});
    }

    method AbortAllPending(status: int, ghost hand: set<nat>)
      requires Ok(hand)
      modifies this`heap, this`rcId, this`failures, slots, services
      ensures Ok(hand) && AllAborted(old(View()), View(), status)
      ensures rcId == old(rcId) && failures == old(failures)
    {
      ghost var before := View();
      for i := 0 to SLOTS
        invariant Ok(hand) && rcId == old(rcId) && failures == old(failures)
        invariant AbortedBelow(before, View(), i, status)
      {
        AbortNext(before, i, status, hand);
      }
      HeldBelowAll(before);
    }

    method AbortNext(ghost before: Table, i: nat, status: int, ghost hand: set<nat>)
      requires Ok(hand) && i < SLOTS && AbortedBelow(before, View(), i, status)
      modifies this`heap, this`rcId, this`failures, slots, services
      ensures Ok(hand) && rcId == old(rcId) && failures == old(failures)
      ensures AbortedBelow(before, View(), i + 1, status)
    {
      ghost var was := View();
      if slots[i].inUse && !slots[i].completed {
        AbortOne(i, status, hand);
      }
      AbortedOneMore(before, was, View(), i, status);
    }

    /** ubus_free comes after every callback. */
    method ResetConnection(ghost hand: set<nat>)
      requires Ok(hand)
      modifies this`heap, this`rcId, this`failures, this`connected, slots, services
      ensures Ok(hand) && !connected && rcId == 0 && failures == old(failures)
      ensures AllAborted(old(View()), View(), STATUS_CONN_FAILED)
    {
      AbortAllPending(STATUS_CONN_FAILED, hand);
      ConnectionKeeps(View(), hand, false);
      if connected {
        connected := false;
      }
      rcId := 0;
    }

    /** A timeout counts as a failure; enough of them in a row reset the connection. */
    method CountTimeout(ghost hand: set<nat>)
      requires Ok(hand)
      modifies this`heap, this`rcId, this`failures, this`connected, slots, services
      ensures Ok(hand) && rcId == 0 && failures == old(failures) + 1
      ensures failures < TIMEOUT_RESET_THRESHOLD ==> View() == old(View())
      ensures failures >= TIMEOUT_RESET_THRESHOLD ==> !connected && AllAborted(old(View()), View(), STATUS_CONN_FAILED)
    {
      failures := failures + 1;
      if failures >= TIMEOUT_RESET_THRESHOLD {
        ResetConnection(hand);
      } else {
        rcId := 0;
      }
    }

    /** The timer of a slot fires. */
    method RequestTimeoutCb(i: nat)
      requires Quiet(View()) && i < slots.Length
      modifies this`heap, this`rcId, this`failures, this`connected, slots, services
      ensures Quiet(View())
      ensures !Live(old(slots[..]), i) ==> View() == old(View()) && rcId == old(rcId) && failures == old(failures)
      ensures Live(old(slots[..]), i) ==> rcId == 0 && failures == old(failures) + 1
      ensures Live(old(slots[..]), i) ==> TimedOut(old(View()), View(), i, failures >= 3)
    {
      if !slots[i].inUse || slots[i].completed {
        return;
      }
      ExpireSlot(i);
    }

    /** The callbacks of every other slot may run, through a reset, before that of slot i. */
    method ExpireSlot(i: nat)
      requires Quiet(View()) && Live(slots[..], i)
      modifies this`heap, this`rcId, this`failures, this`connected, slots, services
      ensures Quiet(View()) && rcId == 0 && failures == old(failures) + 1
      ensures TimedOut(old(View()), View(), i, failures >= TIMEOUT_RESET_THRESHOLD)
    {
      ghost var before := View();
      assert {} + {slots[i].priv} == {slots[i].priv};
      TakeSlot(i, {});
      PunishTimeout(i, before);
      ReportTimeout(i, before, failures >= TIMEOUT_RESET_THRESHOLD);
    }

    /** The last step of a timeout: the slot's own callback, and its release. */
    method ReportTimeout(i: nat, ghost before: Table, ghost reset: bool)
      requires i < slots.Length && Quiet(before) && Owed(i, {slots[i].priv})
      requires Counted(before, View(), i, reset) && slots[i] == Taken(before.slots[i])
      modifies this`heap, slots, services
      ensures Quiet(View()) && TimedOut(before, View(), i, reset)
    {
      ghost var c := slots[i].priv;
      assert {c} - {c} == {};
      ghost var counted := View();
      var _ := NotifyAndRelease(i, false, false, STATUS_TIMEOUT, {c});
      TimeoutReported(before, counted, View(), i, reset);
    }

    /** Aborts the request of slot i, which is taken but not yet answered, and counts the failure. */
    method PunishTimeout(i: nat, ghost before: Table)
      requires i < slots.Length && Quiet(before) && Live(before.slots, i) && Owed(i, {slots[i].priv})
      requires View() == before.(slots := before.slots[i := Taken(before.slots[i])])
      modifies this`heap, this`rcId, this`failures, this`connected, slots, services
      ensures slots[i] == Taken(before.slots[i]) && Owed(i, {slots[i].priv})
        && rcId == 0 && failures == old(failures) + 1
      ensures Counted(before, View(), i, failures >= TIMEOUT_RESET_THRESHOLD)
    {
      ghost var c := slots[i].priv;
      if connected {
        AbortRequest(i, {c});
      }
      CountTimeout({c});
      TimeoutCounted(before, View(), i, failures >= TIMEOUT_RESET_THRESHOLD);
    }

    /** Up to 31 failures in a row, a connection is attempted exactly when the back-off delay is over; beyond,
        the delay is whatever the shift yields. */
    method EnsureContext(now: int, ghost hand: set<nat>) returns (ok: bool)
      requires Ok(hand)
      modifies this`connected, this`rcId, this`failures, this`lastAttempt
      ensures Ok(hand) && ok == connected
      ensures old(connected) ==>
        connected && rcId == old(rcId) && failures == old(failures) && lastAttempt == old(lastAttempt)
      ensures !old(connected) && 0 < old(failures) <= 31 && TooSoon(now, old(lastAttempt), old(failures)) ==>
        !ok && failures == old(failures) && lastAttempt == old(lastAttempt)
      ensures !old(connected) && old(failures) <= 31 && !TooSoon(now, old(lastAttempt), old(failures)) ==>
        lastAttempt == now && failures == if ok then 0 else old(failures) + 1
      ensures !old(connected) && ok ==> failures == 0 && lastAttempt == now
    {
      if connected {
        return true;
      }
      var wait := BackingOff(now);
      if wait {
        return false;
      }
      lastAttempt := now;
      ok := Connect(hand);
    }

    method BackingOff(now: int) returns (wait: bool)
      ensures failures <= 31 ==> wait == TooSoon(now, lastAttempt, failures)
    {
      if failures == 0 {
        return false;
      }
      DelayDefinedIff(failures);
      var delay: int := *;
      if BackoffDelay(failures).Some? {
        delay := BackoffDelay(failures).value;
      }
      return now - lastAttempt < delay;
    }

    method Connect(ghost hand: set<nat>) returns (ok: bool)
      requires Ok(hand) && !connected
      modifies this`connected, this`rcId, this`failures
      ensures Ok(hand) && ok == connected && failures == if ok then 0 else old(failures) + 1
    {
      ConnectionKeeps(View(), hand, true);
      connected := *;
      if connected {
        failures := 0;
      } else {
        rcId := 0;
        failures := failures + 1;
      }
      ok := connected;
    }

    /** The synchronous lookup. Meanwhile replies and completions of other requests may be processed. */
    method LookupId(ghost hand: set<nat>) returns (found: bool)
      requires Ok(hand)
      modifies this`heap, this`rcId, this`failures, slots, services
      ensures Ok(hand) && Progressed(old(View()), View())
    {
      ghost var start := View();
      var messages: int := *;
      while messages > 0
        invariant Ok(hand) && Progressed(start, View())
        decreases messages
      {
        ghost var before := View();
        ProcessOne(hand);
        ProgressedOn(start, before, View());
        messages := messages - 1;
      }
      found := *;
      rcId := *;
    }

    /** One message for another request. */
    method ProcessOne(ghost hand: set<nat>)
      requires Ok(hand)
      modifies this`heap, this`rcId, this`failures, slots, services
      ensures Ok(hand) && Progressed(old(View()), View())
    {
      ghost var before := View();
      var i: int := *;
      if i < 0 || i >= slots.Length {
        return;
      }
      if * {
        var ret: Ret := *;
        var _ := QueryCompleteCb(i, ret, hand);
        if Live(before.slots, i) {
          CompletedIsProgress(before, View(), hand, i, HalStatus(ret));
        }
      } else {
        var attrs: seq<Attr> := *;
        QueryDataCb(i, attrs, hand);
        assert slots[..] == before.slots[i := Heard(before.slots[i], attrs)];
        HeardIsProgress(before, View(), i, attrs);
      }
    }

    /** With a connection and an id nothing happens. Otherwise other requests may move on while the id is looked
        up, up to the state middle; a failure then aborts every request that is left. */
    method EnsureRcId(ghost hand: set<nat>) returns (ok: bool, ghost middle: Table)
      requires Ok(hand)
      modifies this`heap, this`rcId, this`failures, this`connected, this`lastAttempt, slots, services
      ensures Ok(hand) && ok == connected
      ensures old(connected) && old(rcId) != 0 ==> ok && View() == old(View())
      ensures Progressed(old(View()).(connected := middle.connected), middle)
      ensures if ok then View() == middle else AllAborted(middle, View(), STATUS_CONN_FAILED)
    {
      var now: int := *;
      ghost var start := View();
      ok := EnsureContext(now, hand);
      middle := View();
      if ok {
        ghost var open := View();
        ok, middle := FindId(hand);
        ProgressedOn(start, open, middle);
      } else {
        NothingToAbort(middle, hand);
      }
    }

    /** The rest of ensure_rc_id, on a connection. */
    method FindId(ghost hand: set<nat>) returns (ok: bool, ghost middle: Table)
      requires Ok(hand) && connected
      modifies this`heap, this`rcId, this`failures, this`connected, slots, services
      ensures Ok(hand) && ok == connected && Progressed(old(View()), middle)
      ensures if ok then View() == middle else AllAborted(middle, View(), STATUS_CONN_FAILED)
      ensures old(rcId) != 0 ==> ok && View() == old(View())
    {
      if rcId != 0 {
        return true, View();
      }
      ok, middle := LookupOrReset(hand);
    }

    method LookupOrReset(ghost hand: set<nat>) returns (ok: bool, ghost middle: Table)
      requires Ok(hand) && connected
      modifies this`heap, this`rcId, this`failures, this`connected, slots, services
      ensures Ok(hand) && ok == connected && Progressed(old(View()), middle)
      ensures if ok then View() == middle else AllAborted(middle, View(), STATUS_CONN_FAILED)
    {
      ok := LookupId(hand);
      middle := View();
      if !ok {
        ResetConnection(hand);
      }
    }

    /** alloc_request: the first slot not in use; slots.Length when there is none. Its fields are written
        where the caller has them all. */
    method FreeSlot() returns (i: nat)
      ensures i <= slots.Length
      ensures i < slots.Length ==> !slots[i].inUse
      ensures forall j :: 0 <= j < i ==> slots[j].inUse
    {
      i := 0;
      while i < slots.Length && slots[i].inUse
        invariant 0 <= i <= slots.Length
        invariant forall j :: 0 <= j < i ==> slots[j].inUse
      {
        i := i + 1;
      }
    }

    /** The direct call of the callback when no slot was taken. */
    method AnswerAtOnce(c: nat, name: string, status: int, ghost hand: set<nat>)
      requires Ok(hand) && c in hand && heap[c].owner < services.Length && name == services[heap[c].owner].name
      modifies this`heap, services
      ensures Ok(hand - {c}) && heap == old(heap)[c := Freed(old(heap)[c], status)]
      ensures CalledBack(old(View()), View())
    {
      if heap[c].purpose.Query? {
        DeliverQueryAnyTime(hand, c, name, false, false, status);
        var _ := ServiceQueryCb(name, false, false, status, c);
      } else {
        DeliverControlKeeps(View(), hand, c, status);
        ServiceControlCb(status, c);
      }
    }

    /** The same, as the last thing a request does. */
    method AnswerFailed(c: nat, name: string, status: int)
      requires Inv(View(), {c}) && Busy(slots[..], {}) && heap[c].outcomes == []
      requires heap[c].owner < services.Length && name == services[heap[c].owner].name
      requires status == STATUS_CONN_FAILED || status == STATUS_ERROR
      modifies this`heap, services
      ensures Quiet(View()) && SameContexts(old(heap), heap) && Promised(c) && heap[c].outcomes == [status]
      ensures CalledBack(old(View()), View())
    {
      assert {c} - {c} == {};
      AnswerAtOnce(c, name, status, {c});
    }

    /** Writes slot i, which was free. */
    method PutBack(i: nat, s: Slot, c: nat)
      requires Inv(View(), {c}) && Busy(slots[..], {}) && i < slots.Length && !slots[i].inUse && !s.inUse
      modifies slots
      ensures Inv(View(), {c}) && Busy(slots[..], {}) && slots[..] == old(slots[..])[i := s]
    {
      BusyUpdate(slots[..], {}, i, s);
      assert {} - {i} == {};
      IdleSlotKeeps(View(), {c}, i, s);
      SetSlot(i, s);
    }

    /** Hands context c over to the free slot i. */
    method Attach(i: nat, s: Slot, c: nat)
      requires Inv(View(), {c}) && Busy(slots[..], {}) && i < slots.Length && !slots[i].inUse && connected
      requires s.inUse && !s.completed && s.timerArmed && s.priv == c && s.isQuery == heap[c].purpose.Query?
      requires heap[c].owner < services.Length && s.service == services[heap[c].owner].name
      modifies slots
      ensures Quiet(View()) && slots[..] == old(slots[..])[i := s] && Promised(c)
    {
      BusyUpdate(slots[..], {}, i, s);
      assert {} - {i} == {} && {c} - {c} == {};
      AttachKeeps(View(), {c}, i, s);
      SetSlot(i, s);
      assert Live(slots[..], i);
    }

    /** EnsureRcId for a request whose context c is in hand: whatever it aborts, c is untouched. */
    method ConnectFor(c: nat) returns (ok: bool)
      requires Inv(View(), {c}) && Busy(slots[..], {})
      modifies this`heap, this`rcId, this`failures, this`connected, this`lastAttempt, slots, services
      ensures Inv(View(), {c}) && Busy(slots[..], {}) && ok == connected
      ensures SameContexts(old(heap), heap) && CalledBack(old(View()), View()) && heap[c].outcomes == []
    {
      ghost var middle: Table;
      ok, middle := EnsureRcId({c});
      ProgressKeepsBusy(old(View()), middle, {});
      if !ok {
        BusyAborted(middle, View(), STATUS_CONN_FAILED, {});
        MovedOn(old(View()), middle, View(), 0);
      }
      InHand(View(), {c}, c);
    }

    /** real_query_service_async and real_control_service_async: they differ in the slot fields they fill.
        Zero promises the callback: it has run when the call returns, or it waits in a slot. */
    method RequestAsync(name: string, c: nat, isQuery: bool, start: bool) returns (ret: int)
      requires Inv(View(), {c}) && Busy(slots[..], {}) && heap[c].purpose.Query? == isQuery
      requires heap[c].owner < services.Length && name == services[heap[c].owner].name
      modifies this`heap, this`rcId, this`failures, this`connected, this`lastAttempt, slots, services
      ensures ret == if initialized then 0 else -1
      ensures !initialized ==> View() == old(View())
      ensures initialized ==> Quiet(View())
      ensures initialized ==> SameContexts(old(heap), heap) && Promised(c)
      ensures CalledBack(old(View()), View())
    {
      if !initialized {
        return -1;
      }
      Send(name, c, isQuery, start);
      return 0;
    }

    method Send(name: string, c: nat, isQuery: bool, start: bool)
      requires Inv(View(), {c}) && Busy(slots[..], {}) && heap[c].purpose.Query? == isQuery
      requires heap[c].owner < services.Length && name == services[heap[c].owner].name
      modifies this`heap, this`rcId, this`failures, this`connected, this`lastAttempt, slots, services
      ensures Quiet(View()) && SameContexts(old(heap), heap) && Promised(c)
      ensures CalledBack(old(View()), View())
    {
      ghost var before := View();
      var ok := ConnectFor(c);
      ghost var middle := View();
      if ok {
        var _ := FileRequest(name, c, isQuery, start);
      } else {
        AnswerFailed(c, name, STATUS_CONN_FAILED);
      }
      assert SameContexts(middle.heap, heap);
      MovedOn(before, middle, View(), 0);
    }

    /** The rest of the request, on a working connection: a slot, the invocation, the timer. The slot starts afresh:
        nothing heard, nothing running, whatever its last user left. */
    method FileRequest(name: string, c: nat, isQuery: bool, start: bool) returns (i: nat)
      requires Inv(View(), {c}) && Busy(slots[..], {}) && c < |heap| && heap[c].purpose.Query? == isQuery
      requires connected && heap[c].owner < services.Length && name == services[heap[c].owner].name
        && heap[c].outcomes == []
      modifies this`heap, slots, services
      ensures Quiet(View()) && SameContexts(old(heap), heap) && Promised(c)
      ensures CalledBack(old(View()), View())
      ensures i <= slots.Length && (i == slots.Length ==> heap[c].outcomes == [STATUS_ERROR])
      ensures i < slots.Length ==> !old(slots[i]).inUse && heap == old(heap)
      ensures i < slots.Length ==> slots[..] == old(slots[..])[i :=
        Slot(true, false, isQuery, CName(name), c, true, false, false, !isQuery && start)]
    {
      i := FreeSlot();
      if i == slots.Length {
        AnswerFailed(c, name, STATUS_ERROR);
        return;
      }
      var s := Slot(true, false, isQuery, CName(name), c, false, false, false, !isQuery && start);
      var invoked: bool := *;
      if !invoked {
        PutBack(i, s.(inUse := false), c);
        AnswerFailed(c, name, STATUS_ERROR);
        return slots.Length;
      }
      Attach(i, s.(timerArmed := true), c);
    }

    /** query_data_cb: the first table named after the service says whether it runs. */
    method QueryDataCb(i: nat, attrs: seq<Attr>, ghost hand: set<nat>)
      requires Ok(hand) && i < slots.Length
      modifies slots
      ensures Ok(hand) && slots[..] == old(slots[..])[i := Heard(old(slots[i]), attrs)]
    {
      ghost var slot := slots[i];
      var n := 0;
      while n < |attrs|
        invariant 0 <= n <= |attrs| && slots[..] == old(slots[..])
        invariant FirstReply(attrs[n..], slot.service) == FirstReply(attrs, slot.service)
      {
        assert attrs[n..][1..] == attrs[n + 1..];
        if attrs[n].isTable && attrs[n].name == slots[i].service {
          HeardKeeps(View(), hand, i, true, slots[i].running || attrs[n].running);
          SetSlot(i, slots[i].(installed := true, running := slots[i].running || attrs[n].running));
          return;
        }
        n := n + 1;
      }
    }

    /** sys_status_query_services: at most one new query per service, in service order; one for every service that
        needed it at entry and got memory; none for any other, unless a callback of this very call released it. */
    method SysQueryServices(nowMs: nat, memory: seq<bool>) returns (sent: nat)
      requires Valid()
      modifies this`heap, this`rcId, this`failures, this`connected, this`lastAttempt, this`nextRequestId,
        slots, services
      ensures Valid()
      ensures Asks(old(heap), heap, services.Length, !initialized)
      ensures sent == if initialized then |heap| - |old(heap)| else 0
      ensures Clocked(old(View()).services, nowMs) ==> AskedRight(old(View()), View(), services.Length, nowMs, memory)
    {
      sent := 0;
      ghost var start := View();
      for k := 0 to services.Length
        invariant Valid()
        invariant Asking(start, View(), k, !initialized, nowMs, memory)
        invariant sent == if initialized then |heap| - |start.heap| else 0
      {
        sent := AskNext(start, k, nowMs, memory, sent);
      }
    }

    /** The body of that loop, with what the loop knows. */
    method AskNext(ghost start: Table, k: nat, nowMs: nat, memory: seq<bool>, sent: nat) returns (sent': nat)
      requires Valid() && k < services.Length && Asking(start, View(), k, !initialized, nowMs, memory)
      requires sent == if initialized then |heap| - |start.heap| else 0
      modifies this`heap, this`rcId, this`failures, this`connected, this`lastAttempt, this`nextRequestId,
        slots, services
      ensures Valid() && Asking(start, View(), k + 1, !initialized, nowMs, memory)
      ensures sent' == if initialized then |heap| - |start.heap| else 0
    {
      ghost var was := View();
      var asked := AskIfDue(k, nowMs, k < |memory| && memory[k]);
      AskingOneMore(start, was, View(), k, !initialized, nowMs, memory);
      sent' := if asked && initialized then sent + 1 else sent;
    }

    /** One service; without memory for a context the service is skipped. */
    method AskIfDue(k: nat, nowMs: nat, allocated_: bool) returns (asked: bool)
      requires Valid() && k < services.Length
      modifies this`heap, this`rcId, this`failures, this`connected, this`lastAttempt, this`nextRequestId,
        slots, services
      ensures Valid() && asked == (Due(old(services[k]), nowMs) && allocated_)
      ensures !asked ==> View() == old(View()) && nextRequestId == old(nextRequestId)
      ensures asked ==> SameContexts(old(heap) + [Ctx(Query(old(nextRequestId)), k, [], 0, !initialized)], heap)
      ensures asked && initialized ==> Promised(|old(heap)|)
      ensures MovedFrom(old(View()), View(), k + 1)
    {
      asked := false;
      if services[k].queryPending {
        return;
      }
      if services[k].lastUpdateMs > 0 && Sub64(nowMs, services[k].lastUpdateMs) < REFRESH_INTERVAL_MS {
        return;
      }
      if !allocated_ {
        return;
      }
      asked := true;
      var _ := QueryOne(k, nowMs);
    }

    /** g_next_request_id++, which skips 0. */
    method NextRequestId() returns (id: uint32)
      requires nextRequestId != 0
      modifies this`nextRequestId
      ensures id == old(nextRequestId) && nextRequestId == if id == U32 - 1 then 1 else id + 1
    {
      id := nextRequestId;
      nextRequestId := Add32(id, 1);
      if nextRequestId == 0 {
        nextRequestId := 1;
      }
    }

    /** Allocates the context of a query for service k, with the next request id, and marks k pending. */
    method OpenQueryFor(k: nat, nowMs: nat) returns (c: nat)
      requires Valid() && k < services.Length && !services[k].queryPending
      modifies this`heap, this`nextRequestId, services
      ensures c == |old(heap)| && nextRequestId != 0
      ensures heap == old(heap) + [Ctx(Query(old(nextRequestId)), k, [], 0, false)]
      ensures services[..] == old(services[..])[k := Asked(old(services[k]), old(nextRequestId), nowMs)]
      ensures Inv(View(), {c})
    {
      var id := NextRequestId();
      c := |heap|;
      IssueQueryKeeps(View(), {}, k, id, nowMs);
      assert {} + {c} == {c};
      heap := heap + [Ctx(Query(id), k, [], 0, false)];
      SetService(k, Asked(services[k], id, nowMs));
    }

    /** The HAL refused: the caller takes the request back and frees the context. */
    method TakeBack(c: nat)
      requires Inv(View(), {c})
      modifies this`heap, services
      ensures Inv(View(), {}) && View() == Refuse(old(View()), c)
    {
      RefuseKeeps(View(), {c}, c);
      assert {c} - {c} == {};
      if heap[c].purpose.Query? {
        SetService(heap[c].owner, services[heap[c].owner].(queryPending := false));
      }
      heap := heap[c := heap[c].(frees := heap[c].frees + 1, rejected := true)];
    }

    /** The body of the loop, once a context was allocated. */
    method QueryOne(k: nat, nowMs: nat) returns (ret: int)
      requires Valid() && k < services.Length && !services[k].queryPending
      modifies this`heap, this`rcId, this`failures, this`connected, this`lastAttempt, this`nextRequestId,
        slots, services
      ensures Valid() && ret == if initialized then 0 else -1
      ensures SameContexts(old(heap) + [Ctx(Query(old(nextRequestId)), k, [], 0, !initialized)], heap)
      ensures initialized ==> Promised(|old(heap)|)
      ensures !initialized ==> !services[k].queryPending
      ensures MovedFrom(old(View()), View(), k + 1)
    {
      ghost var before := View();
      var c := OpenQueryFor(k, nowMs);
      ghost var asking := View();
      ret := TryRequest(c, false);
      MovedOn(before, asking, View(), k + 1);
      assert asking.heap[c := asking.heap[c].(rejected := !initialized)]
        == before.heap + [Ctx(Query(old(nextRequestId)), k, [], 0, !initialized)];
    }

    /** The request for the newest context; if the HAL refuses it, the caller's clean-up. */
    method TryRequest(c: nat, start: bool) returns (ret: int)
      requires Inv(View(), {c}) && Busy(slots[..], {}) && nextRequestId != 0
      requires initialized || forall i :: 0 <= i < slots.Length ==> !slots[i].inUse
      modifies this`heap, this`rcId, this`failures, this`connected, this`lastAttempt, slots, services
      ensures Valid() && ret == if initialized then 0 else -1
      ensures SameContexts(old(heap)[c := old(heap)[c].(rejected := !initialized)], heap)
      ensures initialized ==> Promised(c)
      ensures !initialized && old(heap)[c].purpose.Query? ==> !services[old(heap)[c].owner].queryPending
      ensures MovedFrom(old(View()), View(), old(heap)[c].owner + 1)
    {
      ghost var before := View();
      InHand(before, {c}, c);
      ret := RequestAsync(services[heap[c].owner].name, c, heap[c].purpose.Query?, start);
      if ret < 0 {
        RefuseMoves(View(), c);
        TakeBack(c);
      } else {
        AcceptMoves(before, View(), c);
      }
    }

    /** sys_status_control_service */
    method SysControlService(index: int, start: bool) returns (ret: int)
      requires Valid()
      modifies this`heap, this`rcId, this`failures, this`connected, this`lastAttempt, slots, services
      ensures Valid() && (ret == 0 || ret == -1)
      ensures ret == 0 ==> initialized && 0 <= index < services.Length && Promised(|old(heap)|)
      ensures ret == 0 ==> SameContexts(old(heap) + [Ctx(Control(start), index, [], 0, false)], heap)
      ensures ret == -1 && View() != old(View()) ==> !initialized && 0 <= index < services.Length
      ensures ret == -1 && View() != old(View()) ==>
        SameContexts(old(heap) + [Ctx(Control(start), index, [], 0, true)], heap)
    {
      if index < 0 || index >= services.Length {
        return -1;
      }
      var allocated_: bool := *;
      if !allocated_ {
        return -1;
      }
      ret := ControlOne(index, start);
    }

    /** Allocates the context of a control call for service k. */
    method OpenControlFor(k: nat, start: bool) returns (c: nat)
      requires Valid() && k < services.Length
      modifies this`heap
      ensures c == |old(heap)| && heap == old(heap) + [Ctx(Control(start), k, [], 0, false)]
      ensures Inv(View(), {c})
    {
      c := |heap|;
      IssueControlKeeps(View(), {}, k, start);
      assert {} + {c} == {c};
      heap := heap + [Ctx(Control(start), k, [], 0, false)];
    }

    /** The call itself, once a context was allocated. */
    method ControlOne(k: nat, start: bool) returns (ret: int)
      requires Valid() && k < services.Length
      modifies this`heap, this`rcId, this`failures, this`connected, this`lastAttempt, slots, services
      ensures Valid() && SameContexts(old(heap) + [Ctx(Control(start), k, [], 0, !initialized)], heap)
      ensures ret == if initialized then 0 else -1
      ensures initialized ==> Promised(|old(heap)|)
    {
      var c := OpenControlFor(k, start);
      ghost var asking := heap;
      ret := TryRequest(c, start);
      assert asking[c := asking[c].(rejected := !initialized)]
        == old(heap) + [Ctx(Control(start), k, [], 0, !initialized)];
    }

    /** real_init: clears the table, which is empty, and tries to connect. */
    method Init()
      requires Valid()
      modifies this`connected, this`rcId, this`failures, this`lastAttempt, this`initialized, slots
      ensures Valid() && initialized
      ensures old(initialized) ==> View() == old(View())
    {
      if initialized {
        return;
      }
      ClearSlots();
      var now: int := *;
      var _ := EnsureContext(now, {});
      initialized := true;
    }

    method ClearSlots()
      requires Quiet(View()) && forall j :: 0 <= j < slots.Length ==> !slots[j].inUse
      modifies slots
      ensures Quiet(View())
    {
      var i := 0;
      while i < slots.Length
        invariant 0 <= i <= slots.Length && Quiet(View())
        invariant forall j :: 0 <= j < slots.Length ==> !slots[j].inUse
      {
        var blank := Slot(false, false, false, "", 0, false, false, false, false);
        IdleSlotKeeps(View(), {}, i, blank);
        BusyUpdate(slots[..], {}, i, blank);
        SetSlot(i, blank);
        i := i + 1;
      }
    }

    /** real_cleanup: empties the table and calls no one; every context still held is leaked. */
    method Cleanup()
      requires Valid()
      modifies this`heap, this`connected, this`rcId, this`failures, this`initialized, this`leaked, slots, services
      ensures Valid() && !initialized && heap == old(heap) && services[..] == old(services[..])
      ensures forall i :: 0 <= i < slots.Length ==> !slots[i].inUse
      ensures forall c :: c in leaked <==> c in old(leaked) || (old(initialized) && Held(old(View()), c))
    {
      if !initialized {
        return;
      }
      DropAll();
      FreeConnection();
      initialized := false;
    }

    method FreeConnection()
      requires Quiet(View()) && forall j :: 0 <= j < slots.Length ==> !slots[j].inUse
      modifies this`connected, this`rcId
      ensures Quiet(View()) && View() == old(View()).(connected := false) && rcId == 0
    {
      ConnectionKeeps(View(), {}, false);
      connected := false;
      rcId := 0;
    }

    method DropAll()
      requires Quiet(View())
      modifies this`heap, this`rcId, this`failures, this`leaked, slots, services
      ensures Quiet(View()) && heap == old(heap) && services[..] == old(services[..])
      ensures forall j :: 0 <= j < slots.Length ==> !slots[j].inUse
      ensures forall c :: c in leaked <==> c in old(leaked) || Held(old(View()), c)
    {
      ghost var before := View();
      for i := 0 to slots.Length
        invariant Quiet(View()) && DroppedBelow(before, View(), i)
      {
        DropNext(before, i);
      }
      HeldBelowAll(before);
    }

    method DropNext(ghost before: Table, i: nat)
      requires Quiet(before) && Quiet(View()) && i < SLOTS && DroppedBelow(before, View(), i)
      modifies this`heap, this`rcId, this`failures, this`leaked, slots, services
      ensures Quiet(View()) && DroppedBelow(before, View(), i + 1)
    {
      ghost var was := View();
      if slots[i].inUse {
        assert !HalfDone(slots[..], i) && Live(slots[..], i);
        DropSlot(i);
      }
      DroppedOneMore(before, was, View(), i);
    }

    method DropSlot(i: nat)
      requires Quiet(View()) && Live(slots[..], i)
      modifies this`heap, this`rcId, this`failures, this`leaked, slots, services
      ensures Quiet(View())
      ensures View() == old(View()).(slots := old(slots[..])[i := Released(Taken(old(slots[i])))],
        leaked := old(leaked) + {old(slots[i]).priv})
    {
      ghost var before := View();
      ghost var c := slots[i].priv;
      DropKeeps(before, i);
      TakeSlot(i, {});
      assert {} + {c} == {c};
      ghost var taken := View();
      if connected {
        AbortRequest(i, {c});
      }
      assert View() == taken;
      SetSlot(i, Released(slots[i]));
      assert slots[..] == before.slots[i := Released(Taken(before.slots[i]))];
      leaked := leaked + {c};
    }

    method OnTimeout(i: nat)
      requires Valid() && i < slots.Length
      modifies this`heap, this`rcId, this`failures, this`connected, slots, services
      ensures Valid()
    {
      RequestTimeoutCb(i);
    }

    method OnReply(i: nat, attrs: seq<Attr>)
      requires Valid() && i < slots.Length
      modifies slots
      ensures Valid() && slots[..] == old(slots[..])[i := Heard(old(slots[i]), attrs)]
    {
      BusyUpdate(slots[..], {}, i, Heard(slots[i], attrs));
      assert !HalfDone(slots[..], i) && {} - {i} == {};
      QueryDataCb(i, attrs, {});
    }

    method OnComplete(i: nat, ret: Ret)
      requires Valid() && i < slots.Length
      modifies this`heap, this`rcId, this`failures, slots, services
      ensures Valid()
    {
      BusyUpdate(slots[..], {}, i, Released(Taken(slots[i])));
      assert {} - {i} == {};
      var _ := QueryCompleteCb(i, ret, {});
    }

    /** One event-loop callback. */
    method Dispatch(e: LoopEvent)
      requires Valid()
      modifies this, slots, services
      ensures Valid() && (!e.CleanupHal? ==> leaked == old(leaked))
    {
      match e {
        case TimeoutFires(i) =>
          if i < slots.Length { OnTimeout(i); }
        case ReplyArrives(i, attrs) =>
          if i < slots.Length { OnReply(i, attrs); }
        case RequestCompletes(i, ret) =>
          if i < slots.Length { OnComplete(i, ret); }
        case QueryServices(now, memory) => var _ := SysQueryServices(now, memory);
        case ControlService(index, start) => var _ := SysControlService(index, start);
        case InitHal => Init();
        case CleanupHal => Cleanup();
      }
    }

    /** Any run of the event loop, whatever arrives and whatever libubus answers: every accepted callback has
        run exactly once or still waits in one live slot, no pending service is without its request, and no
        request is without its service. */
    method Run(events: seq<LoopEvent>)
      requires Valid()
      modifies this, slots, services
      ensures Valid()
      ensures (forall n :: 0 <= n < |events| ==> !events[n].CleanupHal?) ==> leaked == old(leaked)
      ensures forall c :: 0 <= c < |heap| && !heap[c].rejected && c !in leaked ==>
        if Held(View(), c) then heap[c].outcomes == [] && heap[c].frees == 0
        else |heap[c].outcomes| == 1 && heap[c].frees == 1
      ensures leaked == {} ==> forall k :: 0 <= k < services.Length ==>
        (services[k].queryPending <==> exists i :: Carries(View(), i, k))
    {
      var n := 0;
      while n < |events|
        invariant 0 <= n <= |events| && Valid()
        invariant (forall j :: 0 <= j < n ==> !events[j].CleanupHal?) ==> leaked == old(leaked)
      {
        Dispatch(events[n]);
        n := n + 1;
      }
      forall c | 0 <= c < |heap| && !heap[c].rejected && c !in leaked
        ensures if Held(View(), c) then heap[c].outcomes == [] && heap[c].frees == 0
                else |heap[c].outcomes| == 1 && heap[c].frees == 1
      {
        CalledExactlyOnce(View(), c);
      }
      if leaked == {} {
        forall k | 0 <= k < services.Length
          ensures services[k].queryPending <==> exists i :: Carries(View(), i, k)
        {
          PendingIffOneSlot(View(), k);
        }
      }
    }
  }

  /** The live requests among the first n slots are aborted; the rest is untouched. */
  ghost predicate AbortedBelow(b: Table, a: Table, n: nat, status: int) {
    && OwnContexts(b) && |a.slots| == |b.slots| && |a.heap| == |b.heap| && CalledBack(b, a)
    && (forall j :: 0 <= j < |b.slots| ==>
          a.slots[j] == if j < n && Live(b.slots, j) then Released(Taken(b.slots[j])) else b.slots[j])
    && (forall c :: 0 <= c < |b.heap| ==>
          a.heap[c] == if HeldBelow(b, c, n) then Freed(b.heap[c], status) else b.heap[c])
  }

  lemma AbortedOneMore(b: Table, m: Table, a: Table, i: nat, status: int)
    requires i < |b.slots| && AbortedBelow(b, m, i, status) && CalledBack(m, a)
    requires Live(b.slots, i) ==> b.slots[i].priv < |b.heap|
    requires if Live(b.slots, i) then
        a.slots == m.slots[i := Released(Taken(m.slots[i]))]
        && a.heap == m.heap[m.slots[i].priv := Freed(m.heap[m.slots[i].priv], status)]
      else a == m
    ensures AbortedBelow(b, a, i + 1, status)
  {
    HeldOneMore(b, i);
    MovedOn(b, m, a, 0);
  }

  /** The first n slots are empty and the contexts they held are leaked; the rest is untouched. */
  ghost predicate DroppedBelow(b: Table, a: Table, n: nat) {
    && a.heap == b.heap && a.services == b.services && |a.slots| == |b.slots| && n <= |a.slots|
    && (forall j :: 0 <= j < |a.slots| ==> if j < n then !a.slots[j].inUse else a.slots[j] == b.slots[j])
    && forall c :: c in a.leaked <==> c in b.leaked || HeldBelow(b, c, n)
  }

  lemma DroppedOneMore(b: Table, m: Table, a: Table, i: nat)
    requires Quiet(b) && i < |b.slots| && DroppedBelow(b, m, i)
    requires if Live(b.slots, i) then
        a.heap == m.heap && a.services == m.services
        && a.slots == m.slots[i := Released(Taken(m.slots[i]))] && a.leaked == m.leaked + {m.slots[i].priv}
      else a == m
    ensures DroppedBelow(b, a, i + 1)
  {
    HeldOneMore(b, i);
    assert !HalfDone(b.slots, i);
  }

  /** after has, beyond before, one query context for some of the first k services, in order. */
  ghost predicate Asks(before: seq<Ctx>, after: seq<Ctx>, k: nat, rejected: bool) {
    && |before| <= |after| && SameContexts(before, after[..|before|])
    && (forall c :: |before| <= c < |after| ==>
         after[c].purpose.Query? && after[c].owner < k && after[c].rejected == rejected)
    && forall c, d :: |before| <= c < d < |after| ==> after[c].owner < after[d].owner
  }

  /** The clock readings are 64-bit numbers. */
  ghost predicate Clocked(services: seq<Service>, nowMs: nat) {
    nowMs < U64 && forall k :: 0 <= k < |services| ==> services[k].lastUpdateMs < U64
  }

  /** The state of the loop before service k. */
  ghost predicate Asking(b: Table, a: Table, k: nat, rejected: bool, nowMs: nat, memory: seq<bool>) {
    && Asks(b.heap, a.heap, k, rejected) && MovedFrom(b, a, k)
    && (Clocked(b.services, nowMs) ==> AskedRight(b, a, k, nowMs, memory))
  }

  lemma AskingOneMore(b: Table, m: Table, a: Table, k: nat, rejected: bool, nowMs: nat, memory: seq<bool>)
    requires k < |b.services| && Asking(b, m, k, rejected, nowMs, memory) && MovedFrom(m, a, k + 1)
    requires if Due(m.services[k], nowMs) && k < |memory| && memory[k]
      then exists id :: SameContexts(m.heap + [Ctx(Query(id), k, [], 0, rejected)], a.heap) else a == m
    ensures Asking(b, a, k + 1, rejected, nowMs, memory)
  {
    AsksOneMore(b.heap, m.heap, a.heap, k, rejected);
    MovedOn(b, m, a, k + 1);
    if Clocked(b.services, nowMs) {
      AskedOneMore(b, m, a, k, nowMs, memory);
    }
  }

  lemma AcceptMoves(b: Table, a: Table, c: nat)
    requires c < |b.heap| && !b.heap[c].rejected && SameContexts(b.heap, a.heap) && CalledBack(b, a)
    ensures SameContexts(b.heap[c := b.heap[c].(rejected := false)], a.heap)
    ensures MovedFrom(b, a, b.heap[c].owner + 1)
  {
  }

  lemma RefuseMoves(m: Table, c: nat)
    requires c < |m.heap|
    ensures SameContexts(m.heap[c := m.heap[c].(rejected := true)], Refuse(m, c).heap)
    ensures MovedFrom(m, Refuse(m, c), m.heap[c].owner + 1)
  {
  }

  lemma AskedOneMore(b: Table, m: Table, a: Table, k: nat, nowMs: nat, memory: seq<bool>)
    requires k < |b.services| && nowMs < U64 && b.services[k].lastUpdateMs < U64
    requires AskedRight(b, m, k, nowMs, memory) && MovedFrom(b, m, k) && HeapGrows(m.heap, a.heap)
    requires if Due(m.services[k], nowMs) && k < |memory| && memory[k]
      then |a.heap| == |m.heap| + 1 && a.heap[|m.heap|].owner == k else |a.heap| == |m.heap|
    ensures AskedRight(b, a, k + 1, nowMs, memory)
  {
    DueIff(b.services[k], nowMs);
    forall j | Called(b.heap, m.heap, j) ensures Called(b.heap, a.heap, j) {
      var c :| 0 <= c < |b.heap| && b.heap[c].owner == j && b.heap[c].frees == 0 && m.heap[c].frees > 0;
      assert a.heap[c].frees > 0;
    }
    forall j | 0 <= j <= k && j < |memory| && memory[j] && NeedsQuery(b.services[j], nowMs)
      ensures exists c :: |b.heap| <= c < |a.heap| && a.heap[c].owner == j
    {
      if j < k {
        var c :| |b.heap| <= c < |m.heap| && m.heap[c].owner == j;
        assert a.heap[c].owner == j;
      } else {
        assert a.heap[|m.heap|].owner == k;
      }
    }
    forall c | |b.heap| <= c < |a.heap|
      ensures a.heap[c].owner < |b.services| && a.heap[c].owner < |memory| && memory[a.heap[c].owner]
      ensures NeedsQuery(b.services[a.heap[c].owner], nowMs) || Called(b.heap, a.heap, a.heap[c].owner)
    {
      if c < |m.heap| {
        assert a.heap[c].owner == m.heap[c].owner;
      }
    }
  }

  lemma AsksOneMore(before: seq<Ctx>, was: seq<Ctx>, now: seq<Ctx>, k: nat, rejected: bool)
    requires Asks(before, was, k, rejected)
    requires now == was || exists id :: SameContexts(was + [Ctx(Query(id), k, [], 0, rejected)], now)
    ensures Asks(before, now, k + 1, rejected)
  {
    if now != was {
      var id :| SameContexts(was + [Ctx(Query(id), k, [], 0, rejected)], now);
      var all := was + [Ctx(Query(id), k, [], 0, rejected)];
      assert forall c :: 0 <= c < |was| ==> all[c] == was[c];
    }
  }

  predicate SameRequest(before: Slot, after: Slot) {
    after == before.(installed := after.installed, running := after.running)
  }

  /** From b to a some replies came in and some live requests were answered, each exactly once; no new request
      appeared, and no other context was touched. */
  ghost predicate Progressed(b: Table, a: Table) {
    && CalledBack(b, a) && a.connected == b.connected && a.leaked == b.leaked
    && |a.slots| == |b.slots| && SameContexts(b.heap, a.heap)
    && (forall j :: 0 <= j < |b.slots| ==>
          SameRequest(b.slots[j], a.slots[j]) || (Live(b.slots, j) && !a.slots[j].inUse))
    && forall c :: 0 <= c < |b.heap| ==>
         if Held(b, c) && !Held(a, c) then a.heap[c].frees == 1 && |a.heap[c].outcomes| == 1
         else a.heap[c] == b.heap[c] && Held(a, c) == Held(b, c)
  }

  lemma ProgressedOn(b: Table, m: Table, a: Table)
    requires Progressed(b.(connected := m.connected), m) && Progressed(m, a)
    ensures Progressed(b.(connected := a.connected), a)
  {
    var b' := b.(connected := m.connected);
    assert forall c :: Held(b', c) == Held(b, c);
    assert forall c :: Held(b.(connected := a.connected), c) == Held(b, c);
    MovedOn(b, m, a, 0);
  }

  lemma ProgressKeepsBusy(b: Table, a: Table, busy: set<int>)
    requires Progressed(b.(connected := a.connected), a) && Busy(b.slots, busy)
    ensures Busy(a.slots, busy)
  {
    forall j | HalfDone(a.slots, j) ensures HalfDone(b.slots, j) {
    }
  }

  lemma CompletedIsProgress(b: Table, a: Table, hand: set<nat>, i: nat, status: int)
    requires Inv(b, hand) && Live(b.slots, i)
    requires a.slots == b.slots[i := Released(Taken(b.slots[i]))]
    requires a.heap == b.heap[b.slots[i].priv := Freed(b.heap[b.slots[i].priv], status)]
    requires CalledBack(b, a) && a.connected == b.connected && a.leaked == b.leaked
    ensures Progressed(b, a)
  {
    var c := b.slots[i].priv;
    assert forall j :: Live(a.slots, j) <==> Live(b.slots, j) && j != i;
    assert !Held(a, c) && Held(b, c);
    forall d | d != c ensures Held(a, d) == Held(b, d) {
      if Held(b, d) {
        var j :| Live(b.slots, j) && b.slots[j].priv == d;
        assert Live(a.slots, j) && a.slots[j].priv == d;
      }
    }
  }

  lemma HeardIsProgress(b: Table, a: Table, i: nat, attrs: seq<Attr>)
    requires i < |b.slots| && a == b.(slots := b.slots[i := Heard(b.slots[i], attrs)])
    ensures Progressed(b, a)
  {
    forall c ensures Held(a, c) == Held(b, c) {
      if Held(b, c) {
        var j :| Live(b.slots, j) && b.slots[j].priv == c;
        assert Live(a.slots, j) && a.slots[j].priv == c;
      }
    }
  }

  lemma NothingToAbort(m: Table, hand: set<nat>)
    requires Inv(m, hand) && !m.connected
    ensures AllAborted(m, m, STATUS_CONN_FAILED)
  {
    assert forall j :: !Live(m.slots, j);
  }

  /** The slot whose timer fired is released and its callback called with a timeout; if the connection was
      reset, every other live slot is released and called with a failure; nothing else moves. */
  ghost predicate TimedOut(b: Table, a: Table, i: nat, reset: bool) {
    && Live(b.slots, i) && |a.heap| == |b.heap| && |a.slots| == |b.slots|
    && var c := b.slots[i].priv;
    && (forall d :: 0 <= d < |b.heap| ==>
          a.heap[d] == if d == c then Freed(b.heap[d], STATUS_TIMEOUT)
                       else if reset && Held(b, d) then Freed(b.heap[d], STATUS_CONN_FAILED) else b.heap[d])
    && (if reset then !a.connected && forall j :: 0 <= j < |a.slots| ==> !a.slots[j].inUse
        else a.connected == b.connected && a.slots == b.slots[i := Released(Taken(b.slots[i]))])
  }

  /** The state between counting a timeout and calling its callback. */
  ghost predicate Counted(b: Table, m: Table, i: nat, reset: bool) {
    && Live(b.slots, i)
    && var taken := b.(slots := b.slots[i := Taken(b.slots[i])]);
    if reset then AllAborted(taken, m, STATUS_CONN_FAILED) && !m.connected else m == taken
  }

  lemma TimeoutCounted(b: Table, m: Table, i: nat, reset: bool)
    requires Inv(b, {}) && Busy(b.slots, {}) && Counted(b, m, i, reset)
    ensures m.slots[i] == Taken(b.slots[i]) && |m.heap| == |b.heap|
    ensures forall d :: 0 <= d < |b.heap| ==>
      m.heap[d] == if reset && d != b.slots[i].priv && Held(b, d)
        then Freed(b.heap[d], STATUS_CONN_FAILED) else b.heap[d]
    ensures Busy(m.slots, {i}) && (reset ==> forall j :: 0 <= j < |m.slots| && j != i ==> !m.slots[j].inUse)
  {
    var taken := b.(slots := b.slots[i := Taken(b.slots[i])]);
    HeldAfterTake(b, i);
    BusyUpdate(b.slots, {}, i, Taken(b.slots[i]));
    assert Busy(taken.slots, {i});
    if reset {
      BusyAborted(taken, m, STATUS_CONN_FAILED, {i});
    }
  }

  lemma TimeoutReported(b: Table, m: Table, a: Table, i: nat, reset: bool)
    requires Inv(b, {}) && Busy(b.slots, {}) && Counted(b, m, i, reset)
    requires a.slots == m.slots[i := Released(m.slots[i])] && a.connected == m.connected
    requires b.slots[i].priv < |m.heap|
    requires a.heap == m.heap[b.slots[i].priv := Freed(m.heap[b.slots[i].priv], STATUS_TIMEOUT)]
    ensures Busy(a.slots, {}) && TimedOut(b, a, i, reset)
  {
    TimeoutCounted(b, m, i, reset);
    BusyUpdate(m.slots, {i}, i, Released(m.slots[i]));
    assert {i} - {i} == {};
  }

  /** No two live slots share a context. */
  ghost predicate OwnContexts(m: Table) {
    forall j, k :: Live(m.slots, j) && Live(m.slots, k) && m.slots[j].priv == m.slots[k].priv ==> j == k
  }

  lemma HeldAfterTake(m: Table, i: nat)
    requires Live(m.slots, i) && OwnContexts(m)
    ensures var m' := m.(slots := m.slots[i := Taken(m.slots[i])]);
      forall d :: Held(m', d) <==> Held(m, d) && d != m.slots[i].priv
  {
    var m' := m.(slots := m.slots[i := Taken(m.slots[i])]);
    assert forall j :: Live(m'.slots, j) <==> Live(m.slots, j) && j != i;
    forall d | Held(m, d) && d != m.slots[i].priv ensures Held(m', d) {
      var j :| Live(m.slots, j) && m.slots[j].priv == d;
      assert Live(m'.slots, j) && m'.slots[j].priv == d;
    }
  }

  lemma HeldBelowAll(m: Table)
    requires |m.slots| == SLOTS
    ensures forall c :: HeldBelow(m, c, SLOTS) == Held(m, c)
  {
  }

  lemma HeldOneMore(m: Table, i: nat)
    requires i < |m.slots| && OwnContexts(m)
    ensures forall d :: HeldBelow(m, d, i + 1) <==> HeldBelow(m, d, i) || (Live(m.slots, i) && d == m.slots[i].priv)
    ensures Live(m.slots, i) ==> !HeldBelow(m, m.slots[i].priv, i)
  {
    if Live(m.slots, i) {
      assert HeldBelow(m, m.slots[i].priv, i + 1);
    }
  }

  ghost predicate HeldBelow(m: Table, c: int, n: int) {
    exists j :: 0 <= j < n && Live(m.slots, j) && m.slots[j].priv == c
  }
}
