/** The asynchronous request table of the ubus HAL together with the per-service query state of
    sys_status, as values. Callback contexts are numbered in the order they are allocated. */
module UbusTable {
  import opened Words

  const SLOTS: nat := 16
  const STATUS_OK: int := 0
  const STATUS_CONN_FAILED: int := 4
  const STATUS_NOT_FOUND: int := 5
  const STATUS_TIMEOUT: int := 7
  const STATUS_ERROR: int := -1

  datatype Slot = Slot(
    inUse: bool, completed: bool, isQuery: bool, service: string, priv: nat,
    timerArmed: bool, installed: bool, running: bool, startOp: bool)

  datatype Service = Service(
    name: string, installed: bool, running: bool, queryPending: bool, statusValid: bool,
    requestId: uint32, requestTimeMs: nat, lastUpdateMs: nat)

  datatype Purpose = Query(requestId: uint32) | Control(start: bool)

  /** An allocated callback context: whose it is, the status of every call of its callback, and how often
      it was freed. rejected marks one whose request the HAL did not accept. */
  datatype Ctx = Ctx(purpose: Purpose, owner: nat, outcomes: seq<int>, frees: nat, rejected: bool)

  datatype Table = Table(slots: seq<Slot>, services: seq<Service>, heap: seq<Ctx>, connected: bool, leaked: set<nat>)

  predicate Live(slots: seq<Slot>, i: int) {
    0 <= i < |slots| && slots[i].inUse && !slots[i].completed
  }

  /** Marked completed, callback possibly still running, slot not yet released. */
  predicate HalfDone(slots: seq<Slot>, i: int) {
    0 <= i < |slots| && slots[i].inUse && slots[i].completed
  }

  ghost predicate Held(m: Table, c: int) {
    exists i :: Live(m.slots, i) && m.slots[i].priv == c
  }

  ghost predicate ServicesOk(services: seq<Service>) {
    && (forall k :: 0 <= k < |services| ==> |services[k].name| < 32)
    && (forall j, k :: 0 <= j < k < |services| ==> services[j].name != services[k].name)
  }

  /** Every unanswered slot has an armed timer, a connection, and a context of its own that was neither
      called nor freed. */
  ghost predicate SlotsOk(m: Table, hand: set<nat>) {
    && |m.slots| == SLOTS
    && (forall i :: Live(m.slots, i) ==>
          var s := m.slots[i];
          && s.timerArmed && m.connected
          && s.priv < |m.heap| && s.priv !in hand && s.priv !in m.leaked && m.heap[s.priv].frees == 0
          && m.heap[s.priv].purpose.Query? == s.isQuery
          && m.heap[s.priv].owner < |m.services| && s.service == m.services[m.heap[s.priv].owner].name)
    && (forall i, j :: Live(m.slots, i) && Live(m.slots, j) && m.slots[i].priv == m.slots[j].priv ==> i == j)
  }

  /** A context is unfreed exactly while it is in a live slot, in the hands of running code, or leaked by
      cleanup; freed once, after its callback was called once, otherwise. */
  ghost predicate HeapOk(m: Table, hand: set<nat>) {
    && (forall c :: c in hand ==> c < |m.heap| && c !in m.leaked)
    && (forall c :: c in m.leaked ==> c < |m.heap|)
    && (forall c :: 0 <= c < |m.heap| ==>
          var x := m.heap[c];
          && x.owner < |m.services| && x.frees <= 1 && (x.rejected ==> x.frees == 1)
          && |x.outcomes| == (if x.rejected then 0 else x.frees)
          && (x.frees == 0 <==> c in hand || c in m.leaked || Held(m, c)))
  }

  predicate OpenQuery(m: Table, c: int) {
    0 <= c < |m.heap| && m.heap[c].frees == 0 && m.heap[c].purpose.Query?
  }

  /** query_pending and request_id mirror the unfreed query contexts, one per service. */
  ghost predicate PendingOk(m: Table) {
    && (forall c :: OpenQuery(m, c) ==>
          var x := m.heap[c];
          x.owner < |m.services| && m.services[x.owner].queryPending
            && m.services[x.owner].requestId == x.purpose.requestId)
    && (forall c, d :: OpenQuery(m, c) && OpenQuery(m, d) && m.heap[c].owner == m.heap[d].owner ==> c == d)
    && (forall k :: 0 <= k < |m.services| && m.services[k].queryPending ==>
         exists c :: OpenQuery(m, c) && m.heap[c].owner == k)
  }

  /** hand is the set of contexts held by code that is running. */
  ghost predicate Inv(m: Table, hand: set<nat>) {
    ServicesOk(m.services) && SlotsOk(m, hand) && HeapOk(m, hand) && PendingOk(m)
  }

  /** Only the slots in busy can be half done. */
  ghost predicate Busy(slots: seq<Slot>, busy: set<int>) {
    forall i :: HalfDone(slots, i) ==> i in busy
  }

  lemma BusyUpdate(slots: seq<Slot>, busy: set<int>, i: nat, s: Slot)
    requires Busy(slots, busy) && i < |slots|
    ensures Busy(slots[i := s], if s.inUse && s.completed then busy + {i} else busy - {i})
  {
    forall j | HalfDone(slots[i := s], j) && j != i ensures HalfDone(slots, j) {
    }
  }

  /** The state between two event-loop callbacks. */
  ghost predicate Quiet(m: Table) {
    Inv(m, {}) && Busy(m.slots, {})
  }

  /** The first service of that name, or |services|. */
  function Named(services: seq<Service>, name: string): (k: nat)
    ensures k <= |services|
    ensures k < |services| ==> services[k].name == name
    ensures forall j :: 0 <= j < k ==> services[j].name != name
  {
    if services == [] || services[0].name == name then 0 else
      var k := Named(services[1..], name);
      assert forall j :: 1 <= j < k + 1 ==> services[j] == services[1..][j - 1];
      k + 1
  }

  function Freed(x: Ctx, status: int): Ctx {
    x.(outcomes := x.outcomes + [status], frees := x.frees + 1)
  }

  function Answered(s: Service, installed: bool, running: bool, status: int, nowMs: nat): Service {
    var s1 := s.(queryPending := false, lastUpdateMs := nowMs);
    if status == STATUS_OK then s1.(installed := installed, running := running, statusValid := true)
    else s1.(statusValid := false)
  }

  /** service_query_cb */
  function DeliverQuery(m: Table, c: nat, name: string, installed: bool, running: bool, status: int, nowMs: nat): Table
    requires c < |m.heap| && m.heap[c].purpose.Query?
  {
    var k := Named(m.services, name);
    m.(heap := m.heap[c := Freed(m.heap[c], status)],
       services := if k < |m.services| && m.services[k].requestId == m.heap[c].purpose.requestId
                   then m.services[k := Answered(m.services[k], installed, running, status, nowMs)] else m.services)
  }

  /** service_control_cb */
  function DeliverControl(m: Table, c: nat, status: int): Table
    requires c < |m.heap| && m.heap[c].purpose.Control?
  {
    var k := m.heap[c].owner;
    m.(heap := m.heap[c := Freed(m.heap[c], status)],
       services := if k >= |m.services| then m.services else
         m.services[k := m.services[k].(lastUpdateMs := 0,
           running := if status == STATUS_OK then m.heap[c].purpose.start else m.services[k].running)])
  }

  // ----- What callbacks do to the services -----

  /** Some context of service k that was open in before has been closed in after. */
  ghost predicate Called(before: seq<Ctx>, after: seq<Ctx>, k: nat) {
    exists c :: 0 <= c < |before| && c < |after| && before[c].owner == k && before[c].frees == 0 && after[c].frees > 0
  }

  ghost predicate HeapGrows(before: seq<Ctx>, after: seq<Ctx>) {
    && |before| <= |after|
    && forall c :: 0 <= c < |before| ==> before[c].owner == after[c].owner && before[c].frees <= after[c].frees
  }

  /** What callbacks can make of a service: they never start a query, and of a service without one they touch no more
      than the running flag and the time of the last update, which they can only reset. */
  predicate ServiceMoved(before: Service, after: Service) {
    && after.name == before.name && after.requestId == before.requestId
    && (after.queryPending ==> before.queryPending)
    && (!before.queryPending ==> after.lastUpdateMs == before.lastUpdateMs || after.lastUpdateMs == 0)
  }

  /** From service n on, only callbacks have moved the services, each a service of its own. */
  ghost predicate MovedFrom(b: Table, a: Table, n: nat) {
    && |a.services| == |b.services| && HeapGrows(b.heap, a.heap)
    && forall k :: n <= k < |b.services| ==>
         && ServiceMoved(b.services[k], a.services[k])
         && (a.services[k] == b.services[k] || Called(b.heap, a.heap, k))
  }

  /** Only callbacks have run. */
  ghost predicate CalledBack(b: Table, a: Table) {
    MovedFrom(b, a, 0) && |a.heap| == |b.heap|
  }

  lemma MovedOn(b: Table, m: Table, a: Table, n: nat)
    requires MovedFrom(b, m, n) && MovedFrom(m, a, n)
    requires forall c :: |b.heap| <= c < |m.heap| ==> m.heap[c].owner < n
    ensures MovedFrom(b, a, n)
  {
    forall k | n <= k < |b.services| && a.services[k] != b.services[k] ensures Called(b.heap, a.heap, k) {
      if a.services[k] != m.services[k] {
        var c :| 0 <= c < |m.heap| && m.heap[c].owner == k && m.heap[c].frees == 0 && a.heap[c].frees > 0;
        assert c < |b.heap| && b.heap[c].frees == 0;
      } else {
        var c :| 0 <= c < |b.heap| && b.heap[c].owner == k && b.heap[c].frees == 0 && m.heap[c].frees > 0;
        assert a.heap[c].frees > 0;
      }
    }
  }

  lemma OneCalledBack(b: Table, a: Table, c: nat)
    requires c < |b.heap| && b.heap[c].frees == 0 && b.heap[c].owner < |b.services|
    requires |a.heap| == |b.heap| && a.heap[c].owner == b.heap[c].owner && a.heap[c].frees > 0
    requires forall d :: 0 <= d < |b.heap| && d != c ==> a.heap[d] == b.heap[d]
    requires |a.services| == |b.services|
    requires forall k :: 0 <= k < |b.services| && k != b.heap[c].owner ==> a.services[k] == b.services[k]
    requires ServiceMoved(b.services[b.heap[c].owner], a.services[b.heap[c].owner])
    ensures CalledBack(b, a)
  {
    assert Called(b.heap, a.heap, b.heap[c].owner);
  }

  function Taken(s: Slot): Slot {
    s.(completed := true, timerArmed := false)
  }

  function Released(s: Slot): Slot {
    s.(inUse := false)
  }

  lemma TakeKeeps(m: Table, hand: set<nat>, i: nat)
    requires Inv(m, hand) && Live(m.slots, i)
    ensures Inv(m.(slots := m.slots[i := Taken(m.slots[i])]), hand + {m.slots[i].priv})
  {
    var m' := m.(slots := m.slots[i := Taken(m.slots[i])]);
    assert forall j :: Live(m'.slots, j) <==> Live(m.slots, j) && j != i;
    forall c | 0 <= c < |m.heap| && c != m.slots[i].priv ensures Held(m', c) == Held(m, c) {
      if Held(m, c) {
        var j :| Live(m.slots, j) && m.slots[j].priv == c;
        assert Live(m'.slots, j) && m'.slots[j].priv == c;
      }
    }
    assert forall c :: OpenQuery(m', c) == OpenQuery(m, c);
  }

  /** Changing slots that are not live, into slots that are not live, changes nothing that matters. */
  lemma IdleSlotKeeps(m: Table, hand: set<nat>, i: nat, s: Slot)
    requires Inv(m, hand) && i < |m.slots| && !Live(m.slots, i) && (!s.inUse || s.completed)
    ensures Inv(m.(slots := m.slots[i := s]), hand)
  {
    var m' := m.(slots := m.slots[i := s]);
    assert forall j :: Live(m'.slots, j) == Live(m.slots, j) && (Live(m.slots, j) ==> m'.slots[j] == m.slots[j]);
    forall c | 0 <= c < |m.heap| ensures Held(m', c) == Held(m, c) {
      if Held(m, c) {
        var j :| Live(m.slots, j) && m.slots[j].priv == c;
        assert Live(m'.slots, j);
      }
    }
    assert forall c :: OpenQuery(m', c) == OpenQuery(m, c);
  }

  /** Heap and services change together; the slots stay. */
  lemma HeldSame(m: Table, m': Table)
    requires m'.slots == m.slots
    ensures forall c :: Held(m', c) == Held(m, c)
  {
  }

  /** A context in hand is closed: freed once, and if it is a query its service is no longer pending. */
  lemma CloseKeeps(m: Table, hand: set<nat>, c: nat, x: Ctx, services: seq<Service>)
    requires Inv(m, hand) && c in hand
    requires x.purpose == m.heap[c].purpose && x.owner == m.heap[c].owner
    requires x.frees == 1 && |x.outcomes| == if x.rejected then 0 else 1
    requires |services| == |m.services|
    requires forall j :: 0 <= j < |services| ==>
      && services[j].name == m.services[j].name && services[j].requestId == m.services[j].requestId
      && services[j].queryPending == (m.services[j].queryPending && !(x.purpose.Query? && x.owner == j))
    ensures Inv(m.(heap := m.heap[c := x], services := services), hand - {c})
  {
    var m' := m.(heap := m.heap[c := x], services := services);
    HeldSame(m, m');
    assert !Held(m, c);
    ClosePending(m, c, x, services);
  }

  lemma ClosePending(m: Table, c: nat, x: Ctx, services: seq<Service>)
    requires PendingOk(m) && c < |m.heap| && m.heap[c].frees == 0 && x.frees == 1
    requires x.purpose == m.heap[c].purpose && x.owner == m.heap[c].owner
    requires |services| == |m.services|
    requires forall j :: 0 <= j < |services| ==>
      && services[j].requestId == m.services[j].requestId
      && services[j].queryPending == (m.services[j].queryPending && !(x.purpose.Query? && x.owner == j))
    ensures PendingOk(m.(heap := m.heap[c := x], services := services))
  {
    var m' := m.(heap := m.heap[c := x], services := services);
    assert x.purpose.Query? ==> OpenQuery(m, c);
    assert forall d :: OpenQuery(m', d) <==> OpenQuery(m, d) && d != c;
    forall j | 0 <= j < |m'.services| && m'.services[j].queryPending
      ensures exists d :: OpenQuery(m', d) && m'.heap[d].owner == j
    {
      var d :| OpenQuery(m, d) && m.heap[d].owner == j;
      assert OpenQuery(m', d) && m'.heap[d].owner == j;
    }
  }

  lemma InHand(m: Table, hand: set<nat>, c: nat)
    requires Inv(m, hand) && c in hand
    ensures m.heap[c].frees == 0 && m.heap[c].outcomes == [] && !m.heap[c].rejected
    ensures m.heap[c].purpose.Query? ==>
      var k := m.heap[c].owner;
      k < |m.services| && m.services[k].queryPending && m.services[k].requestId == m.heap[c].purpose.requestId
  {
    assert m.heap[c].purpose.Query? ==> OpenQuery(m, c);
  }

  /** A query answered while in hand is never stale: it reaches its own service, which it releases. */
  lemma DeliverQueryKeeps(m: Table, hand: set<nat>, c: nat, name: string,
    installed: bool, running: bool, status: int, nowMs: nat)
    requires Inv(m, hand) && c in hand && m.heap[c].purpose.Query? && name == m.services[m.heap[c].owner].name
    ensures var m', k := DeliverQuery(m, c, name, installed, running, status, nowMs), m.heap[c].owner;
      && k < |m.services|
      && m'.services == m.services[k := Answered(m.services[k], installed, running, status, nowMs)]
      && Inv(m', hand - {c}) && CalledBack(m, m')
  {
    var m' := DeliverQuery(m, c, name, installed, running, status, nowMs);
    var k := m.heap[c].owner;
    InHand(m, hand, c);
    assert Named(m.services, name) == k;
    CloseKeeps(m, hand, c, Freed(m.heap[c], status), m'.services);
    OneCalledBack(m, m', c);
  }

  /** What an answer tells a service: it is no longer pending and was heard of now; with status OK its two flags are
      those of the reply and valid, otherwise they stay as they were and are not valid. */
  lemma AnsweredMeaning(s: Service, installed: bool, running: bool, status: int, nowMs: nat)
    ensures var s', ok := Answered(s, installed, running, status, nowMs), status == 0;
      && !s'.queryPending && s'.lastUpdateMs == nowMs && s'.statusValid == ok
      && s'.installed == (if ok then installed else s.installed)
      && s'.running == (if ok then running else s.running)
      && s'.name == s.name && s'.requestId == s.requestId && s'.requestTimeMs == s.requestTimeMs
  {
  }

  lemma DeliverControlKeeps(m: Table, hand: set<nat>, c: nat, status: int)
    requires Inv(m, hand) && c in hand && m.heap[c].purpose.Control?
    ensures var m', k := DeliverControl(m, c, status), m.heap[c].owner;
      && Inv(m', hand - {c}) && CalledBack(m, m')
      && k < |m.services| && m'.services == m.services[k := m'.services[k]]
      && m'.services[k] == m.services[k].(lastUpdateMs := 0, running := m'.services[k].running)
      && m'.services[k].running == (if status == 0 then m.heap[c].purpose.start else m.services[k].running)
  {
    InHand(m, hand, c);
    CloseKeeps(m, hand, c, Freed(m.heap[c], status), DeliverControl(m, c, status).services);
    OneCalledBack(m, DeliverControl(m, c, status), c);
  }

  function Asked(s: Service, id: uint32, nowMs: nat): Service {
    s.(queryPending := true, requestId := id, requestTimeMs := nowMs)
  }

  /** A new query for a service that has none open. */
  lemma IssueQueryKeeps(m: Table, hand: set<nat>, k: nat, id: uint32, nowMs: nat)
    requires Inv(m, hand) && k < |m.services| && !m.services[k].queryPending
    ensures Inv(m.(heap := m.heap + [Ctx(Query(id), k, [], 0, false)],
      services := m.services[k := Asked(m.services[k], id, nowMs)]),
                hand + {|m.heap|})
  {
    var m' := m.(heap := m.heap + [Ctx(Query(id), k, [], 0, false)],
      services := m.services[k := Asked(m.services[k], id, nowMs)]);
    HeldSame(m, m');
    IssuePending(m, k, id, nowMs);
  }

  lemma IssuePending(m: Table, k: nat, id: uint32, nowMs: nat)
    requires PendingOk(m) && k < |m.services| && !m.services[k].queryPending
    ensures PendingOk(m.(heap := m.heap + [Ctx(Query(id), k, [], 0, false)],
      services := m.services[k := Asked(m.services[k], id, nowMs)]))
  {
    var c := |m.heap|;
    var m' := m.(heap := m.heap + [Ctx(Query(id), k, [], 0, false)],
      services := m.services[k := Asked(m.services[k], id, nowMs)]);
    assert forall d :: OpenQuery(m', d) <==> OpenQuery(m, d) || d == c;
    assert forall d :: OpenQuery(m, d) ==> m.heap[d].owner != k;
    forall j | 0 <= j < |m'.services| && m'.services[j].queryPending
      ensures exists d :: OpenQuery(m', d) && m'.heap[d].owner == j
    {
      if j == k {
        assert OpenQuery(m', c);
      } else {
        var d :| OpenQuery(m, d) && m.heap[d].owner == j;
        assert OpenQuery(m', d);
      }
    }
  }

  lemma IssueControlKeeps(m: Table, hand: set<nat>, k: nat, start: bool)
    requires Inv(m, hand) && k < |m.services|
    ensures Inv(m.(heap := m.heap + [Ctx(Control(start), k, [], 0, false)]), hand + {|m.heap|})
  {
    var m' := m.(heap := m.heap + [Ctx(Control(start), k, [], 0, false)]);
    HeldSame(m, m');
    assert forall d :: OpenQuery(m', d) == OpenQuery(m, d);
    forall j | 0 <= j < |m'.services| && m'.services[j].queryPending
      ensures exists d :: OpenQuery(m', d) && m'.heap[d].owner == j
    {
      var d :| OpenQuery(m, d) && m.heap[d].owner == j;
      assert OpenQuery(m', d);
    }
  }

  /** The caller of a HAL that refused a request frees the context itself. */
  function Refuse(m: Table, c: nat): Table
    requires c < |m.heap|
  {
    var k := m.heap[c].owner;
    m.(heap := m.heap[c := m.heap[c].(frees := m.heap[c].frees + 1, rejected := true)],
       services := if m.heap[c].purpose.Query? && k < |m.services|
                   then m.services[k := m.services[k].(queryPending := false)] else m.services)
  }

  lemma RefuseKeeps(m: Table, hand: set<nat>, c: nat)
    requires Inv(m, hand) && c in hand
    ensures Inv(Refuse(m, c), hand - {c})
  {
    InHand(m, hand, c);
    CloseKeeps(m, hand, c, Refuse(m, c).heap[c], Refuse(m, c).services);
  }

  /** A free slot takes over a context from running code. */
  lemma AttachKeeps(m: Table, hand: set<nat>, i: nat, s: Slot)
    requires Inv(m, hand) && i < |m.slots| && !m.slots[i].inUse && m.connected
    requires s.inUse && !s.completed && s.timerArmed && s.priv in hand
    requires s.isQuery == m.heap[s.priv].purpose.Query? && s.service == m.services[m.heap[s.priv].owner].name
    ensures Inv(m.(slots := m.slots[i := s]), hand - {s.priv})
  {
    var m' := m.(slots := m.slots[i := s]);
    assert forall j :: Live(m'.slots, j) <==> Live(m.slots, j) || j == i;
    assert Live(m'.slots, i);
    forall c | 0 <= c < |m.heap| && c != s.priv ensures Held(m', c) == Held(m, c) {
      if Held(m, c) {
        var j :| Live(m.slots, j) && m.slots[j].priv == c;
        assert Live(m'.slots, j) && m'.slots[j].priv == c;
      }
    }
    assert Held(m', s.priv);
    assert forall c :: OpenQuery(m', c) == OpenQuery(m, c);
  }

  /** Cleanup drops a context that it holds without calling or freeing it. */
  lemma LeakKeeps(m: Table, hand: set<nat>, c: nat)
    requires Inv(m, hand) && c in hand
    ensures Inv(m.(leaked := m.leaked + {c}), hand - {c})
  {
    var m' := m.(leaked := m.leaked + {c});
    HeldSame(m, m');
    assert forall d :: OpenQuery(m', d) == OpenQuery(m, d);
  }

  lemma DropKeeps(m: Table, i: nat)
    requires Quiet(m) && Live(m.slots, i)
    ensures Quiet(m.(slots := m.slots[i := Released(Taken(m.slots[i]))], leaked := m.leaked + {m.slots[i].priv}))
  {
    var c := m.slots[i].priv;
    var m1 := m.(slots := m.slots[i := Taken(m.slots[i])]);
    var m2 := m.(slots := m.slots[i := Released(Taken(m.slots[i]))]);
    TakeKeeps(m, {}, i);
    assert {} + {c} == {c} && {c} - {c} == {};
    IdleSlotKeeps(m1, {c}, i, Released(Taken(m.slots[i])));
    assert m2.slots == m1.slots[i := Released(Taken(m.slots[i]))];
    LeakKeeps(m2, {c}, c);
    BusyUpdate(m.slots, {}, i, Released(Taken(m.slots[i])));
    assert {} - {i} == {};
  }

  /** A reply changes what a slot will report, and nothing else. */
  lemma HeardKeeps(m: Table, hand: set<nat>, i: nat, installed: bool, running: bool)
    requires Inv(m, hand) && i < |m.slots|
    ensures Inv(m.(slots := m.slots[i := m.slots[i].(installed := installed, running := running)]), hand)
  {
    var m' := m.(slots := m.slots[i := m.slots[i].(installed := installed, running := running)]);
    assert forall j :: Live(m'.slots, j) == Live(m.slots, j);
    HeldHeard(m, i, installed, running);
    assert forall c :: OpenQuery(m', c) == OpenQuery(m, c);
  }

  lemma HeldHeard(m: Table, i: nat, installed: bool, running: bool)
    requires i < |m.slots|
    ensures var m' := m.(slots := m.slots[i := m.slots[i].(installed := installed, running := running)]);
      forall c :: Held(m', c) == Held(m, c)
  {
    var m' := m.(slots := m.slots[i := m.slots[i].(installed := installed, running := running)]);
    forall c ensures Held(m', c) == Held(m, c) {
      if Held(m, c) {
        var j :| Live(m.slots, j) && m.slots[j].priv == c;
        assert Live(m'.slots, j) && m'.slots[j].priv == c;
      }
    }
  }

  lemma ConnectionKeeps(m: Table, hand: set<nat>, connected: bool)
    requires Inv(m, hand) && (connected || forall i :: !Live(m.slots, i))
    ensures Inv(m.(connected := connected), hand)
  {
    HeldSame(m, m.(connected := connected));
    assert forall d :: OpenQuery(m.(connected := connected), d) == OpenQuery(m, d);
  }

  /** Between callbacks, as long as cleanup has leaked nothing: a service is pending exactly when one live
      slot carries its name and current request id, and then no other slot does. */
  lemma PendingIffOneSlot(m: Table, k: nat)
    requires Quiet(m) && m.leaked == {} && k < |m.services|
    ensures m.services[k].queryPending <==> exists i :: Carries(m, i, k)
    ensures forall i, j :: Carries(m, i, k) && Carries(m, j, k) ==> i == j
    ensures forall i :: Live(m.slots, i) && m.slots[i].isQuery && m.slots[i].service == m.services[k].name ==>
      Carries(m, i, k)
  {
    if m.services[k].queryPending {
      var c :| OpenQuery(m, c) && m.heap[c].owner == k;
      var i :| Live(m.slots, i) && m.slots[i].priv == c;
      assert Carries(m, i, k);
    }
    forall i | Live(m.slots, i) && m.slots[i].isQuery && m.slots[i].service == m.services[k].name
      ensures Carries(m, i, k) && m.services[k].queryPending && m.heap[m.slots[i].priv].owner == k
    {
      assert OpenQuery(m, m.slots[i].priv);
    }
  }

  /** Slot i is a live query for service k and carries its current request id. */
  ghost predicate Carries(m: Table, i: int, k: nat)
    requires k < |m.services|
  {
    && Live(m.slots, i) && m.slots[i].isQuery && m.slots[i].service == m.services[k].name
    && m.slots[i].priv < |m.heap| && m.heap[m.slots[i].priv].purpose == Query(m.services[k].requestId)
  }

  /** Between callbacks every accepted context has been called once and freed once, or waits in one live slot,
      uncalled; cleanup alone leaves some neither called nor waiting. */
  lemma CalledExactlyOnce(m: Table, c: nat)
    requires Quiet(m) && c < |m.heap| && !m.heap[c].rejected && c !in m.leaked
    ensures if Held(m, c) then |m.heap[c].outcomes| == 0 && m.heap[c].frees == 0
            else |m.heap[c].outcomes| == 1 && m.heap[c].frees == 1
  {
  }
}
