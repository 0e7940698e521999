/** The three lines, the pending ring, and the one-shot long-press timer they share. */
module GpioSpec {
  import opened Words
  import opened Seqs
  import opened GpioLine

  const NUM_BUTTONS: nat := 3
  const MAX_PENDING: nat := 32
  const READ_MAX: nat := 16

  /** line and long select one of the six button event types. */
  datatype Ev = Ev(line: nat, long: bool, timestampNs: nat)

  datatype Edge = Edge(offset: nat, rising: bool, timestampNs: nat)

  /** pending is the event ring, oldest first; timer the delay last set, None when disarmed. emitted,
      delivered and seen record every event pushed, every event handed out, and the inputs of each line. */
  datatype Gpio = Gpio(
    lines: seq<Line>, pending: seq<Ev>, timer: Option<nat>,
    emitted: seq<Ev>, delivered: seq<Ev>, seen: seq<seq<Input>>)

  function Init(): Gpio {
    Gpio([NEW_LINE, NEW_LINE, NEW_LINE], [], None, [], [], [[], [], []])
  }

  /** pending_push: a full ring discards its oldest event. */
  function PushPending(pending: seq<Ev>, e: Ev): seq<Ev> {
    if |pending| >= MAX_PENDING then pending[1..] + [e] else pending + [e]
  }

  predicate Outstanding(l: Line) {
    l.pressed && !l.longSent
  }

  function RemainingMs(l: Line, nowMs: nat): nat {
    if l.pressMs + LONG_PRESS_MS > nowMs then l.pressMs + LONG_PRESS_MS - nowMs else 0
  }

  /** The remaining times of the outstanding lines, in line order. */
  function Remaining(lines: seq<Line>, nowMs: nat): seq<nat> {
    if lines == [] then []
    else (if Outstanding(lines[0]) then [RemainingMs(lines[0], nowMs)] else []) + Remaining(lines[1..], nowMs)
  }

  /** The loop of update_long_press_timer_locked, in which 0 also means "none yet". */
  function Fold(rs: seq<nat>, acc: nat): nat {
    if rs == [] then acc else Fold(rs[1..], if acc == 0 || rs[0] < acc then rs[0] else acc)
  }

  function TimerFor(lines: seq<Line>, nowMs: nat): Option<nat> {
    var rs := Remaining(lines, nowMs);
    if rs == [] then None else Some(if Fold(rs, 0) == 0 then 1 else Fold(rs, 0))
  }

  function LineOf(offsets: seq<nat>, offset: nat): (i: nat)
    ensures i <= |offsets|
    ensures i < |offsets| ==> offsets[i] == offset
    ensures forall j :: 0 <= j < i ==> offsets[j] != offset
  {
    if offsets == [] || offsets[0] == offset then 0 else
      var k := LineOf(offsets[1..], offset);
      assert forall j :: 1 <= j < k + 1 ==> offsets[j] == offsets[1..][j - 1];
      k + 1
  }

  /** A line takes an input; the event it emits, if any, is pushed. */
  function Feed(cfg: Config, g: Gpio, i: nat, x: Input, timestampNs: nat): (r: Gpio)
    requires i < |g.lines| == |g.seen|
    ensures |r.lines| == |r.seen| == |g.lines|
  {
    var (l, e) := GpioLine.Step(cfg, g.lines[i], x);
    var g1 := g.(lines := g.lines[i := l], seen := g.seen[i := g.seen[i] + [x]]);
    if e.None? then g1
    else
      var ev := Ev(i, e.value, timestampNs);
      g1.(pending := PushPending(g.pending, ev), emitted := g.emitted + [ev])
  }

  function Rearm(cfg: Config, g: Gpio, nowMs: nat): Gpio {
    if cfg.hasTimer then g.(timer := TimerFor(g.lines, nowMs)) else g
  }

  function IsPress(cfg: Config, e: Edge): bool {
    (if e.rising then 1 else 0) == cfg.pressedLevel
  }

  /** process_edge_event; nowMs is the clock when the timer is set again. */
  function ProcessEdge(cfg: Config, g: Gpio, e: Edge, nowMs: nat): (r: Gpio)
    requires |g.lines| == |g.seen| == |cfg.offsets|
    ensures |r.lines| == |r.seen| == |g.lines|
  {
    var i := LineOf(cfg.offsets, e.offset);
    if i == |cfg.offsets| then g
    else
      var l := g.lines[i];
      var ms := e.timestampNs / 1_000_000;
      var g1 := Feed(cfg, g, i, EdgeIn(IsPress(cfg, e), ms), e.timestampNs);
      if Accepts(cfg, l.lastEdgeMs, ms) && (IsPress(cfg, e) || l.pressed) then Rearm(cfg, g1, nowMs) else g1
  }

  function CheckFrom(cfg: Config, g: Gpio, i: nat, nowMs: nat, nowNs: nat): (r: Gpio)
    requires i <= |g.lines| == |g.seen|
    ensures |r.lines| == |r.seen| == |g.lines|
    decreases |g.lines| - i
  {
    if i == |g.lines| then g else CheckFrom(cfg, Feed(cfg, g, i, CheckIn(nowMs), nowNs), i + 1, nowMs, nowNs)
  }

  /** handle_long_press_timer_locked; rearmMs is the second clock reading. */
  function HandleTimer(cfg: Config, g: Gpio, nowMs: nat, nowNs: nat, rearmMs: nat): Gpio
    requires |g.lines| == |g.seen|
  {
    Rearm(cfg, CheckFrom(cfg, g, 0, nowMs, nowNs), rearmMs)
  }

  function PopPending(g: Gpio): (Gpio, Option<Ev>) {
    if g.pending == [] then (g, None)
    else (g.(pending := g.pending[1..], delivered := g.delivered + [g.pending[0]]), Some(g.pending[0]))
  }

  /** What the chip answers: each edge comes with the clock reading of its handling. */
  datatype Chip = Edges(es: seq<(Edge, nat)>) | WouldBlock | Failed

  datatype Reading = Reading(nowMs: nat, nowNs: nat, rearmMs: nat, chip: Chip)

  function ProcessAll(cfg: Config, g: Gpio, es: seq<(Edge, nat)>): (r: Gpio)
    requires |g.lines| == |g.seen| == |cfg.offsets|
    ensures |r.lines| == |r.seen| == |g.lines|
    decreases |es|
  {
    if es == [] then g else ProcessAll(cfg, ProcessEdge(cfg, g, es[0].0, es[0].1), es[1..])
  }

  datatype ReadResult = Got(event: Ev) | Nothing | Error

  /** libgpiod_read_event: pending events first, then the timer, then the chip. */
  function ReadEvent(cfg: Config, g: Gpio, r: Reading): (Gpio, ReadResult)
    requires |g.lines| == |g.seen| == |cfg.offsets|
  {
    if g.pending != [] then (PopPending(g).0, Got(g.pending[0]))
    else
      var g1 := if cfg.hasTimer then HandleTimer(cfg, g, r.nowMs, r.nowNs, r.rearmMs) else g;
      if g1.pending != [] then (PopPending(g1).0, Got(g1.pending[0]))
      else match r.chip
        case Failed => (g1, Error)
        case WouldBlock => (g1, Nothing)
        case Edges(es) =>
          var g2 := ProcessAll(cfg, g1, es);
          if g2.pending != [] then (PopPending(g2).0, Got(g2.pending[0])) else (g2, Nothing)
  }

  /** The events of one line, as its own machine numbers them. */
  function OfLine(es: seq<Ev>, i: nat): seq<bool> {
    if es == [] then [] else
      OfLine(es[..|es| - 1], i) + if es[|es| - 1].line == i then [es[|es| - 1].long] else []
  }

  // ----- The timer -----

  ghost predicate SomeOutstanding(lines: seq<Line>) {
    exists i :: 0 <= i < |lines| && Outstanding(lines[i])
  }

  lemma {:induction false} RemainingNonempty(lines: seq<Line>, nowMs: nat)
    ensures Remaining(lines, nowMs) != [] <==> SomeOutstanding(lines)
  {
    if lines != [] {
      RemainingNonempty(lines[1..], nowMs);
      if SomeOutstanding(lines[1..]) {
        var i :| 0 <= i < |lines[1..]| && Outstanding(lines[1..][i]);
        assert Outstanding(lines[i + 1]);
      }
      if SomeOutstanding(lines) && !Outstanding(lines[0]) {
        var i :| 0 <= i < |lines| && Outstanding(lines[i]);
        assert lines[1..][i - 1] == lines[i];
      }
    }
  }

  /** What is compared: for each outstanding line the milliseconds to the end of its 600, none if that is past. */
  lemma {:induction false} RemainingAre(lines: seq<Line>, nowMs: nat, r: nat)
    ensures r in Remaining(lines, nowMs) <==>
      exists i :: 0 <= i < |lines| && lines[i].pressed && !lines[i].longSent
        && r == if lines[i].pressMs + 600 > nowMs then lines[i].pressMs + 600 - nowMs else 0
  {
    if lines != [] {
      RemainingAre(lines[1..], nowMs, r);
      if r in Remaining(lines[1..], nowMs) {
        var i :| 0 <= i < |lines[1..]| && lines[1..][i].pressed && !lines[1..][i].longSent
          && r == if lines[1..][i].pressMs + 600 > nowMs then lines[1..][i].pressMs + 600 - nowMs else 0;
        assert lines[i + 1] == lines[1..][i];
      }
      assert forall i :: 1 <= i < |lines| ==> lines[i] == lines[1..][i - 1];
    }
  }

  ghost predicate IsMin(m: nat, rs: seq<nat>) {
    m in rs && forall r :: r in rs ==> m <= r
  }

  function Min(rs: seq<nat>): (m: nat)
    requires rs != []
    ensures IsMin(m, rs)
  {
    if |rs| == 1 then rs[0] else
      var m := Min(rs[1..]);
      assert rs == [rs[0]] + rs[1..];
      if rs[0] < m then rs[0] else m
  }

  /** An overdue line is followed only by lines with more than a millisecond left, at least one of them. */
  ghost predicate OverdueHidden(rs: seq<nat>) {
    exists z :: 0 <= z < |rs| - 1 && rs[z] == 0 && forall j :: z < j < |rs| ==> rs[j] > 1
  }

  /** With no line overdue from here on, the loop computes a minimum. */
  lemma {:induction false} FoldPositive(rs: seq<nat>, acc: nat)
    requires forall r :: r in rs ==> r > 0
    ensures Fold(rs, acc) == if rs == [] then acc else if acc == 0 || Min(rs) < acc then Min(rs) else acc
  {
    if rs != [] {
      assert forall r :: r in rs[1..] ==> r in rs;
      FoldPositive(rs[1..], if acc == 0 || rs[0] < acc then rs[0] else acc);
      if |rs| > 1 {
        assert rs == [rs[0]] + rs[1..];
      }
    }
  }

  lemma {:induction false} FoldDrops(rs: seq<nat>, k: nat, acc: nat)
    requires k < |rs| && rs[k] == 0
    ensures Fold(rs, acc) == Fold(rs[k + 1..], 0)
    decreases k
  {
    var next := if acc == 0 || rs[0] < acc then rs[0] else acc;
    if k == 0 {
      assert next == 0;
    } else {
      FoldDrops(rs[1..], k - 1, next);
      assert rs[1..][k..] == rs[k + 1..];
    }
  }

  lemma LastZero(rs: seq<nat>) returns (z: nat)
    requires 0 in rs
    ensures z < |rs| && rs[z] == 0 && forall j :: z < j < |rs| ==> rs[j] > 0
  {
    z := |rs| - 1;
    while rs[z] != 0
      invariant 0 <= z < |rs| && 0 in rs[..z + 1]
      invariant forall j :: z < j < |rs| ==> rs[j] > 0
      decreases z
    {
      assert rs[..z + 1] == rs[..z] + [rs[z]];
      z := z - 1;
    }
  }

  /** The delay the timer is set to is the shortest remaining time, at least a millisecond, exactly when no
      overdue line is hidden behind later ones: 0 doubles as "none yet". */
  lemma DelayIsMinimumIff(lines: seq<Line>, nowMs: nat)
    requires SomeOutstanding(lines)
    ensures var rs := Remaining(lines, nowMs);
      && rs != []
      && TimerFor(lines, nowMs).Some? && TimerFor(lines, nowMs).value > 0
      && (TimerFor(lines, nowMs).value == (if Min(rs) == 0 then 1 else Min(rs)) <==> !OverdueHidden(rs))
  {
    RemainingNonempty(lines, nowMs);
    var rs := Remaining(lines, nowMs);
    if 0 in rs {
      var z := LastZero(rs);
      var tail := rs[z + 1..];
      FoldDrops(rs, z, 0);
      assert forall j :: 0 <= j < |tail| ==> tail[j] == rs[z + 1 + j];
      FoldPositive(tail, 0);
      if tail != [] {
        if Min(tail) > 1 {
          forall j | z < j < |rs| ensures rs[j] > 1 {
            assert tail[j - z - 1] in tail;
          }
        } else {
          var j :| 0 <= j < |tail| && tail[j] == Min(tail);
          assert rs[z + 1 + j] == 1;
        }
      }
    } else {
      FoldPositive(rs, 0);
    }
  }

  /** K1 overdue and K2 half-way: the timer waits for K2. */
  lemma DelayCanHideAnOverdueLine()
    ensures var k1, k2 := Line(true, false, 1000, 1000), Line(true, false, 1400, 1400);
      TimerFor([k1, k2, NEW_LINE], 1700) == Some(300) && Min(Remaining([k1, k2, NEW_LINE], 1700)) == 0
  {
    var k1, k2 := Line(true, false, 1000, 1000), Line(true, false, 1400, 1400);
    var l := [k1, k2, NEW_LINE];
    assert l[1..] == [k2, NEW_LINE] && l[1..][1..] == [NEW_LINE] && l[1..][1..][1..] == [];
    assert Remaining(l[1..][1..], 1700) == [];
    assert Remaining(l[1..], 1700) == [300];
    assert Remaining(l, 1700) == [0, 300];
    assert [0, 300][1..] == [300] && [300][1..] == [];
    assert Fold([0, 300], 0) == Fold([300], 0) == Fold([], 300) == 300;
  }

  // ----- What every call keeps -----

  ghost predicate Shaped(cfg: Config, g: Gpio) {
    |g.lines| == |g.seen| == |cfg.offsets| == NUM_BUTTONS
  }

  /** Each line is where its own history leads, the events pushed are those its machine emits, and they
      were handed out in order, none lost. */
  ghost predicate HistoryOk(cfg: Config, g: Gpio) {
    && Shaped(cfg, g)
    && (forall i :: 0 <= i < NUM_BUTTONS ==>
          g.lines[i] == GpioLine.After(cfg, NEW_LINE, g.seen[i])
          && OfLine(g.emitted, i) == Emitted(cfg, NEW_LINE, g.seen[i]))
    && g.emitted == g.delivered + g.pending
  }

  ghost predicate TimerOk(cfg: Config, g: Gpio) {
    if cfg.hasTimer then
      (g.timer.Some? <==> SomeOutstanding(g.lines)) && (g.timer.Some? ==> g.timer.value > 0)
    else g.timer.None?
  }

  /** Between calls. */
  ghost predicate Inv(cfg: Config, g: Gpio) {
    HistoryOk(cfg, g) && TimerOk(cfg, g) && |g.pending| < READ_MAX
  }

  lemma OfLineGrows(es: seq<Ev>, e: Ev, i: nat)
    ensures OfLine(es + [e], i) == OfLine(es, i) + if e.line == i then [e.long] else []
  {
    assert (es + [e])[..|es|] == es;
  }

  lemma FeedKeeps(cfg: Config, g: Gpio, i: nat, x: Input, timestampNs: nat)
    requires HistoryOk(cfg, g) && i < NUM_BUTTONS && |g.pending| < MAX_PENDING
    ensures var g' := Feed(cfg, g, i, x, timestampNs);
      && HistoryOk(cfg, g') && |g.pending| <= |g'.pending| <= |g.pending| + 1
      && g'.timer == g.timer && g'.delivered == g.delivered
  {
    var g' := Feed(cfg, g, i, x, timestampNs);
    var (l, e) := GpioLine.Step(cfg, g.lines[i], x);
    EmittedConcat(cfg, NEW_LINE, g.seen[i], [x]);
    assert [x][1..] == [];
    assert Emitted(cfg, g.lines[i], [x]) == Listed(e);
    if e.Some? {
      var ev := Ev(i, e.value, timestampNs);
      forall j | 0 <= j < NUM_BUTTONS ensures OfLine(g'.emitted, j) == Emitted(cfg, NEW_LINE, g'.seen[j]) {
        OfLineGrows(g.emitted, ev, j);
      }
      Assoc(g.delivered, g.pending, [ev]);
    }
  }

  lemma RearmKeeps(cfg: Config, g: Gpio, nowMs: nat)
    requires HistoryOk(cfg, g) && (cfg.hasTimer || g.timer.None?)
    ensures HistoryOk(cfg, Rearm(cfg, g, nowMs)) && TimerOk(cfg, Rearm(cfg, g, nowMs))
  {
    RemainingNonempty(g.lines, nowMs);
  }

  lemma ProcessEdgeKeeps(cfg: Config, g: Gpio, e: Edge, nowMs: nat)
    requires HistoryOk(cfg, g) && TimerOk(cfg, g) && |g.pending| < MAX_PENDING
    ensures var g' := ProcessEdge(cfg, g, e, nowMs);
      HistoryOk(cfg, g') && TimerOk(cfg, g') && |g'.pending| <= |g.pending| + 1
  {
    var i := LineOf(cfg.offsets, e.offset);
    if i < |cfg.offsets| {
      var ms := e.timestampNs / 1_000_000;
      var g1 := Feed(cfg, g, i, EdgeIn(IsPress(cfg, e), ms), e.timestampNs);
      FeedKeeps(cfg, g, i, EdgeIn(IsPress(cfg, e), ms), e.timestampNs);
      if Accepts(cfg, g.lines[i].lastEdgeMs, ms) && (IsPress(cfg, e) || g.lines[i].pressed) {
        RearmKeeps(cfg, g1, nowMs);
      } else {
        assert forall j :: 0 <= j < NUM_BUTTONS ==> Outstanding(g1.lines[j]) == Outstanding(g.lines[j]);
        SameOutstanding(g.lines, g1.lines);
      }
    }
  }

  lemma SameOutstanding(a: seq<Line>, b: seq<Line>)
    requires |a| == |b| && forall j :: 0 <= j < |a| ==> Outstanding(a[j]) == Outstanding(b[j])
    ensures SomeOutstanding(a) == SomeOutstanding(b)
  {
    if SomeOutstanding(a) {
      var j :| 0 <= j < |a| && Outstanding(a[j]);
      assert Outstanding(b[j]);
    }
  }

  lemma {:induction false} ProcessAllKeeps(cfg: Config, g: Gpio, es: seq<(Edge, nat)>)
    requires HistoryOk(cfg, g) && TimerOk(cfg, g) && |g.pending| + |es| <= MAX_PENDING
    ensures var g' := ProcessAll(cfg, g, es);
      HistoryOk(cfg, g') && TimerOk(cfg, g') && |g'.pending| <= |g.pending| + |es|
    decreases |es|
  {
    if es != [] {
      ProcessEdgeKeeps(cfg, g, es[0].0, es[0].1);
      ProcessAllKeeps(cfg, ProcessEdge(cfg, g, es[0].0, es[0].1), es[1..]);
    }
  }

  lemma {:induction false} CheckKeeps(cfg: Config, g: Gpio, i: nat, nowMs: nat, nowNs: nat)
    requires HistoryOk(cfg, g) && i <= NUM_BUTTONS && |g.pending| + NUM_BUTTONS - i <= MAX_PENDING
    ensures var g' := CheckFrom(cfg, g, i, nowMs, nowNs);
      && HistoryOk(cfg, g') && |g'.pending| <= |g.pending| + NUM_BUTTONS - i
      && g'.timer == g.timer && g'.delivered == g.delivered
    decreases NUM_BUTTONS - i
  {
    if i < NUM_BUTTONS {
      FeedKeeps(cfg, g, i, CheckIn(nowMs), nowNs);
      CheckKeeps(cfg, Feed(cfg, g, i, CheckIn(nowMs), nowNs), i + 1, nowMs, nowNs);
    }
  }

  lemma PopKeeps(cfg: Config, g: Gpio)
    requires HistoryOk(cfg, g)
    ensures HistoryOk(cfg, PopPending(g).0)
    ensures g.pending != [] ==> |PopPending(g).0.pending| == |g.pending| - 1
  {
    if g.pending != [] {
      assert g.pending == [g.pending[0]] + g.pending[1..];
      Assoc(g.delivered, [g.pending[0]], g.pending[1..]);
    }
  }

  ghost predicate ReadingOk(r: Reading) {
    r.chip.Edges? ==> |r.chip.es| <= READ_MAX
  }

  /** A call never has more than sixteen events pending, so the ring's discard is never reached; what it
      hands out is the oldest event not yet handed out. */
  lemma ReadKeeps(cfg: Config, g: Gpio, r: Reading)
    requires Inv(cfg, g) && ReadingOk(r)
    ensures var (g', res) := ReadEvent(cfg, g, r);
      && Inv(cfg, g')
      && g'.delivered == g.delivered + (if res.Got? then [res.event] else [])
      && (!res.Got? ==> g'.pending == [])
  {
    if g.pending != [] {
      PopKeeps(cfg, g);
    } else {
      var g1 := g;
      if cfg.hasTimer {
        var checked := CheckFrom(cfg, g, 0, r.nowMs, r.nowNs);
        CheckKeeps(cfg, g, 0, r.nowMs, r.nowNs);
        RearmKeeps(cfg, checked, r.rearmMs);
        g1 := Rearm(cfg, checked, r.rearmMs);
      }
      if g1.pending != [] {
        PopKeeps(cfg, g1);
      } else if r.chip.Edges? {
        ProcessAllKeeps(cfg, g1, r.chip.es);
        ProcessAllDelivered(cfg, g1, r.chip.es);
        PopKeeps(cfg, ProcessAll(cfg, g1, r.chip.es));
      }
    }
  }

  lemma {:induction false} ProcessAllDelivered(cfg: Config, g: Gpio, es: seq<(Edge, nat)>)
    requires |g.lines| == |g.seen| == |cfg.offsets|
    ensures ProcessAll(cfg, g, es).delivered == g.delivered
    decreases |es|
  {
    if es != [] {
      ProcessAllDelivered(cfg, ProcessEdge(cfg, g, es[0].0, es[0].1), es[1..]);
    }
  }

  ghost function Run(cfg: Config, g: Gpio, rs: seq<Reading>): (g': Gpio)
    requires Inv(cfg, g) && forall i :: 0 <= i < |rs| ==> ReadingOk(rs[i])
    ensures Inv(cfg, g')
    decreases |rs|
  {
    if rs == [] then g else
      ReadKeeps(cfg, g, rs[0]);
      Run(cfg, ReadEvent(cfg, g, rs[0]).0, rs[1..])
  }

  lemma InitOk(cfg: Config)
    requires |cfg.offsets| == NUM_BUTTONS
    ensures Inv(cfg, Init()) && forall i :: 0 <= i < NUM_BUTTONS ==> Init().seen[i] == []
  {
  }

  // ----- From the chip's edges to the lines -----

  /** What the chip's edges mean for line i: those at its offset, in order; with active level 1 a rising edge is a
      press, with 0 a falling one. */
  function EdgeInputs(cfg: Config, es: seq<(Edge, nat)>, i: nat): seq<Input>
    requires i < |cfg.offsets|
    decreases |es|
  {
    if es == [] then [] else
      var e := es[0].0;
      (if e.offset != cfg.offsets[i] then []
       else [EdgeIn(if e.rising then cfg.pressedLevel == 1 else cfg.pressedLevel == 0, e.timestampNs / 1_000_000)])
      + EdgeInputs(cfg, es[1..], i)
  }

  /** No earlier line has the offset of line i. */
  ghost predicate OwnOffset(cfg: Config, i: nat) {
    i < |cfg.offsets| && forall j :: 0 <= j < i ==> cfg.offsets[j] != cfg.offsets[i]
  }

  /** Some line has been held, unreported, for 600 ms. */
  ghost predicate SomeLate(g: Gpio, nowMs: nat) {
    exists j :: 0 <= j < |g.lines| && Outstanding(g.lines[j]) && Sub64(nowMs, g.lines[j].pressMs) >= LONG_PRESS_MS
  }

  /** The inputs that one read gives line i: nothing while events are pending; else a check, if there is a timer;
      then, if no line was late, the chip's edges. */
  ghost function ReadInputs(cfg: Config, g: Gpio, r: Reading, i: nat): seq<Input>
    requires i < |cfg.offsets|
  {
    if g.pending != [] then []
    else
      (if cfg.hasTimer then [CheckIn(r.nowMs)] else [])
      + if (cfg.hasTimer && SomeLate(g, r.nowMs)) || !r.chip.Edges? then [] else EdgeInputs(cfg, r.chip.es, i)
  }

  lemma LineOfIs(cfg: Config, offset: nat, i: nat)
    requires OwnOffset(cfg, i)
    ensures LineOf(cfg.offsets, offset) == i <==> offset == cfg.offsets[i]
  {
  }

  lemma {:induction false} EdgesSeen(cfg: Config, g: Gpio, es: seq<(Edge, nat)>, i: nat)
    requires |g.lines| == |g.seen| == |cfg.offsets| && OwnOffset(cfg, i)
    ensures ProcessAll(cfg, g, es).seen[i] == g.seen[i] + EdgeInputs(cfg, es, i)
    decreases |es|
  {
    if es != [] {
      var g1 := ProcessEdge(cfg, g, es[0].0, es[0].1);
      LineOfIs(cfg, es[0].0.offset, i);
      EdgesSeen(cfg, g1, es[1..], i);
      var mine := if es[0].0.offset == cfg.offsets[i] then EdgeInputs(cfg, es, i)[..1] else [];
      assert EdgeInputs(cfg, es, i) == mine + EdgeInputs(cfg, es[1..], i);
      assert g1.seen[i] == g.seen[i] + mine;
      Assoc(g.seen[i], mine, EdgeInputs(cfg, es[1..], i));
    }
  }

  /** Each line sees the check once; an event is pushed exactly if some line from i on is late. */
  lemma {:induction false} ChecksSeen(cfg: Config, g: Gpio, i: nat, nowMs: nat, nowNs: nat)
    requires i <= |g.lines| == |g.seen| && cfg.hasTimer
    ensures var g' := CheckFrom(cfg, g, i, nowMs, nowNs);
      && (forall j :: 0 <= j < |g.lines| ==> g'.seen[j] == if j < i then g.seen[j] else g.seen[j] + [CheckIn(nowMs)])
      && (g.pending != [] ==> g'.pending != [])
      && (g.pending == [] ==> (g'.pending != [] <==> LateFrom(g, i, nowMs)))
    decreases |g.lines| - i
  {
    if i < |g.lines| {
      var g1 := Feed(cfg, g, i, CheckIn(nowMs), nowNs);
      ChecksSeen(cfg, g1, i + 1, nowMs, nowNs);
      LateSplit(g, g1, i, nowMs);
    }
  }

  lemma LateSplit(g: Gpio, g1: Gpio, i: nat, nowMs: nat)
    requires i < |g.lines| == |g1.lines| && forall j :: i < j < |g.lines| ==> g1.lines[j] == g.lines[j]
    ensures LateFrom(g, i, nowMs) <==> LateAt(g, i, nowMs) || LateFrom(g1, i + 1, nowMs)
  {
    if LateFrom(g, i, nowMs) && !LateAt(g, i, nowMs) {
      var j :| i <= j < |g.lines| && LateAt(g, j, nowMs);
      assert LateAt(g1, j, nowMs);
    }
    if LateFrom(g1, i + 1, nowMs) {
      var j :| i + 1 <= j < |g1.lines| && LateAt(g1, j, nowMs);
      assert LateAt(g, j, nowMs);
    }
  }

  ghost predicate LateAt(g: Gpio, j: nat, nowMs: nat) {
    j < |g.lines| && Outstanding(g.lines[j]) && Sub64(nowMs, g.lines[j].pressMs) >= LONG_PRESS_MS
  }

  ghost predicate LateFrom(g: Gpio, i: nat, nowMs: nat) {
    exists j :: i <= j < |g.lines| && LateAt(g, j, nowMs)
  }

  lemma ReadSeen(cfg: Config, g: Gpio, r: Reading, i: nat)
    requires |g.lines| == |g.seen| == |cfg.offsets| && OwnOffset(cfg, i)
    ensures ReadEvent(cfg, g, r).0.seen[i] == g.seen[i] + ReadInputs(cfg, g, r, i)
  {
    if g.pending == [] {
      var g1 := if cfg.hasTimer then HandleTimer(cfg, g, r.nowMs, r.nowNs, r.rearmMs) else g;
      var check := if cfg.hasTimer then [CheckIn(r.nowMs)] else [];
      if cfg.hasTimer {
        ChecksSeen(cfg, g, 0, r.nowMs, r.nowNs);
        LateIsSome(g, r.nowMs);
      }
      assert g1.seen[i] == g.seen[i] + check;
      if g1.pending == [] && r.chip.Edges? {
        EdgesSeen(cfg, g1, r.chip.es, i);
        Assoc(g.seen[i], check, EdgeInputs(cfg, r.chip.es, i));
      } else {
        assert check + [] == check;
      }
    }
  }

  /** What a read answers: the oldest pending event; else, if a line is late, the first event of the check; else what
      the chip says: its failure, nothing when it has nothing, or what its edges make. */
  lemma ReadAnswer(cfg: Config, g: Gpio, r: Reading)
    requires |g.lines| == |g.seen| == |cfg.offsets|
    ensures var (g', res) := ReadEvent(cfg, g, r);
      var late := cfg.hasTimer && SomeLate(g, r.nowMs);
      && (g.pending != [] ==> res == Got(g.pending[0]) && g'.pending == g.pending[1..])
      && (g.pending == [] && late ==> res.Got? && res.event.long && res.event.timestampNs == r.nowNs)
      && (g.pending == [] && !late ==> (res.Error? <==> r.chip.Failed?) && (r.chip.WouldBlock? ==> res.Nothing?))
      && (res.Got? ==> g'.delivered == g.delivered + [res.event]) && (!res.Got? ==> g'.delivered == g.delivered)
  {
    if g.pending == [] {
      var g1 := g;
      if cfg.hasTimer {
        ChecksSeen(cfg, g, 0, r.nowMs, r.nowNs);
        LateIsSome(g, r.nowMs);
        ChecksPend(cfg, g, 0, r.nowMs, r.nowNs);
        g1 := HandleTimer(cfg, g, r.nowMs, r.nowNs, r.rearmMs);
      }
      if r.chip.Edges? {
        ProcessAllDelivered(cfg, g1, r.chip.es);
      }
    }
  }

  lemma {:induction false} ChecksPend(cfg: Config, g: Gpio, i: nat, nowMs: nat, nowNs: nat)
    requires i <= |g.lines| == |g.seen| && forall e :: e in g.pending ==> e.long && e.timestampNs == nowNs
    ensures var g' := CheckFrom(cfg, g, i, nowMs, nowNs);
      g'.delivered == g.delivered && forall e :: e in g'.pending ==> e.long && e.timestampNs == nowNs
    decreases |g.lines| - i
  {
    if i < |g.lines| {
      ChecksPend(cfg, Feed(cfg, g, i, CheckIn(nowMs), nowNs), i + 1, nowMs, nowNs);
    }
  }

  lemma LateIsSome(g: Gpio, nowMs: nat)
    ensures LateFrom(g, 0, nowMs) == SomeLate(g, nowMs)
  {
    if SomeLate(g, nowMs) {
      var j :| 0 <= j < |g.lines| && Outstanding(g.lines[j]) && Sub64(nowMs, g.lines[j].pressMs) >= LONG_PRESS_MS;
      assert LateAt(g, j, nowMs);
    }
  }

  /** The inputs that a run of reads gives line i. */
  ghost function RunInputs(cfg: Config, g: Gpio, rs: seq<Reading>, i: nat): seq<Input>
    requires Inv(cfg, g) && i < |cfg.offsets| && forall k :: 0 <= k < |rs| ==> ReadingOk(rs[k])
    decreases |rs|
  {
    if rs == [] then [] else
      ReadKeeps(cfg, g, rs[0]);
      ReadInputs(cfg, g, rs[0], i) + RunInputs(cfg, ReadEvent(cfg, g, rs[0]).0, rs[1..], i)
  }

  /** No edge the chip delivered is left out of what a line sees, none is added, and none is taken for another. */
  lemma {:induction false} RunSeen(cfg: Config, g: Gpio, rs: seq<Reading>, i: nat)
    requires Inv(cfg, g) && OwnOffset(cfg, i) && forall k :: 0 <= k < |rs| ==> ReadingOk(rs[k])
    ensures Run(cfg, g, rs).seen[i] == g.seen[i] + RunInputs(cfg, g, rs, i)
    decreases |rs|
  {
    if rs != [] {
      ReadKeeps(cfg, g, rs[0]);
      var g1 := ReadEvent(cfg, g, rs[0]).0;
      ReadSeen(cfg, g, rs[0], i);
      RunSeen(cfg, g1, rs[1..], i);
      Assoc(g.seen[i], ReadInputs(cfg, g, rs[0], i), RunInputs(cfg, g1, rs[1..], i));
    }
  }

  lemma GestureOfLine(cfg: Config, g: Gpio, i: nat, before: seq<Input>, p: nat, since: seq<Input>)
    requires Inv(cfg, g) && i < NUM_BUTTONS && g.seen[i] == before + [EdgeIn(true, p)] + since
    requires Accepts(cfg, GpioLine.After(cfg, NEW_LINE, before).lastEdgeMs, p)
    requires NoPress(cfg, Line(true, false, p, p), since)
    ensures OfLine(g.delivered + g.pending, i) == Emitted(cfg, NEW_LINE, before) + Gesture(cfg, p, since)
    ensures |Gesture(cfg, p, since)| <= 1
    ensures FirstRelease(cfg, p, since) < |since| ==> |Gesture(cfg, p, since)| == 1
  {
    GestureInHistory(cfg, before, p, since);
    OneEventPerPress(cfg, p, since);
  }

  lemma PressSince(cfg: Config, g: Gpio, rs: seq<Reading>, i: nat, before: seq<Input>, p: nat, since: seq<Input>)
    requires Inv(cfg, g) && OwnOffset(cfg, i) && g.seen[i] == []
    requires forall k :: 0 <= k < |rs| ==> ReadingOk(rs[k])
    requires RunInputs(cfg, g, rs, i) == before + [EdgeIn(true, p)] + since
    requires Accepts(cfg, GpioLine.After(cfg, NEW_LINE, before).lastEdgeMs, p)
    requires NoPress(cfg, Line(true, false, p, p), since)
    ensures var g' := Run(cfg, g, rs);
      && OfLine(g'.delivered + g'.pending, i) == Emitted(cfg, NEW_LINE, before) + Gesture(cfg, p, since)
      && |Gesture(cfg, p, since)| <= 1
      && (FirstRelease(cfg, p, since) < |since| ==> |Gesture(cfg, p, since)| == 1)
  {
    RunSeen(cfg, g, rs, i);
    assert [] + RunInputs(cfg, g, rs, i) == RunInputs(cfg, g, rs, i);
    GestureOfLine(cfg, Run(cfg, g, rs), i, before, p, since);
  }

  /** In every run, for every line, from the chip's edges to the caller: the events from an accepted press to the
      next accepted press are the one gesture it makes, and they reach the caller in order. */
  lemma EveryPressOneEvent(cfg: Config, rs: seq<Reading>, i: nat, before: seq<Input>, p: nat, since: seq<Input>)
    requires |cfg.offsets| == NUM_BUTTONS && OwnOffset(cfg, i)
    requires forall k :: 0 <= k < |rs| ==> ReadingOk(rs[k])
    requires RunInputs(cfg, Init(), rs, i) == before + [EdgeIn(true, p)] + since
    requires Accepts(cfg, GpioLine.After(cfg, NEW_LINE, before).lastEdgeMs, p)
    requires NoPress(cfg, Line(true, false, p, p), since)
    ensures var g := Run(cfg, Init(), rs);
      && OfLine(g.delivered + g.pending, i) == Emitted(cfg, NEW_LINE, before) + Gesture(cfg, p, since)
      && |Gesture(cfg, p, since)| <= 1
      && (FirstRelease(cfg, p, since) < |since| ==> |Gesture(cfg, p, since)| == 1)
  {
    InitOk(cfg);
    PressSince(cfg, Init(), rs, i, before, p, since);
  }

  /** A check of lines that are all up changes nothing but the record. */
  lemma {:induction false} NothingHeld(cfg: Config, g: Gpio, i: nat, nowMs: nat, nowNs: nat)
    requires i <= |g.lines| == |g.seen| && forall j :: 0 <= j < |g.lines| ==> !g.lines[j].pressed
    ensures var g' := CheckFrom(cfg, g, i, nowMs, nowNs); g'.lines == g.lines && g'.pending == g.pending
    decreases |g.lines| - i
  {
    if i < |g.lines| {
      assert g.lines[i := g.lines[i]] == g.lines;
      NothingHeld(cfg, Feed(cfg, g, i, CheckIn(nowMs), nowNs), i + 1, nowMs, nowNs);
    }
  }

  lemma PressEdge(cfg: Config, g: Gpio, i: nat, e: Edge, nowMs: nat)
    requires |g.lines| == |g.seen| == |cfg.offsets| && OwnOffset(cfg, i) && e.offset == cfg.offsets[i]
    requires e.rising == (cfg.pressedLevel == 1) && (cfg.pressedLevel == 0 || cfg.pressedLevel == 1)
    requires g.lines[i].lastEdgeMs == 0
    ensures var p := e.timestampNs / 1_000_000;
      var g' := ProcessEdge(cfg, g, e, nowMs);
      g'.lines[i] == Line(true, false, p, p) && g'.pending == g.pending
  {
    LineOfIs(cfg, e.offset, i);
  }

  lemma ReleaseEdge(cfg: Config, g: Gpio, i: nat, p: nat, e: Edge, nowMs: nat)
    requires |g.lines| == |g.seen| == |cfg.offsets| && OwnOffset(cfg, i) && e.offset == cfg.offsets[i]
    requires e.rising != (cfg.pressedLevel == 1) && (cfg.pressedLevel == 0 || cfg.pressedLevel == 1)
    requires g.lines[i] == Line(true, false, p, p) && g.pending == []
    requires p + DEBOUNCE_MS <= e.timestampNs / 1_000_000 < U64
    ensures var held := e.timestampNs / 1_000_000 - p;
      ProcessEdge(cfg, g, e, nowMs).pending == [Ev(i, !cfg.hasTimer && held >= LONG_PRESS_MS, e.timestampNs)]
  {
    LineOfIs(cfg, e.offset, i);
  }

  /** A line's press and release, read in one go with no line held before: one short press with the timer; without
      it, short or long by the time between the edges. */
  lemma PressThenRelease(cfg: Config, r: Reading, i: nat, down: Edge, up: Edge, nowDown: nat, nowUp: nat)
    requires |cfg.offsets| == NUM_BUTTONS && OwnOffset(cfg, i)
    requires cfg.pressedLevel == 0 || cfg.pressedLevel == 1
    requires down.offset == cfg.offsets[i] == up.offset
    requires down.rising == (cfg.pressedLevel == 1) && up.rising != down.rising
    requires down.timestampNs / 1_000_000 + DEBOUNCE_MS <= up.timestampNs / 1_000_000 < U64
    requires r.chip == Edges([(down, nowDown), (up, nowUp)])
    ensures var held := up.timestampNs / 1_000_000 - down.timestampNs / 1_000_000;
      ReadEvent(cfg, Init(), r).1 == Got(Ev(i, !cfg.hasTimer && held >= LONG_PRESS_MS, up.timestampNs))
  {
    var g := Init();
    var g1 := if cfg.hasTimer then HandleTimer(cfg, g, r.nowMs, r.nowNs, r.rearmMs) else g;
    if cfg.hasTimer {
      NothingHeld(cfg, g, 0, r.nowMs, r.nowNs);
    }
    var g2 := ProcessEdge(cfg, g1, down, nowDown);
    var g3 := ProcessEdge(cfg, g2, up, nowUp);
    PressEdge(cfg, g1, i, down, nowDown);
    ReleaseEdge(cfg, g2, i, down.timestampNs / 1_000_000, up, nowUp);
    var es: seq<(Edge, nat)> := r.chip.es;
    assert es[1..] == [(up, nowUp)];
    assert |es[1..][1..]| == 0;
    assert ProcessAll(cfg, g2, es[1..]) == g3;
  }

  // ----- Where an event's time comes from -----

  /** A long press found by the timer carries the time of the check; any other event that of an edge at its line's
      offset. */
  ghost predicate Stamped(cfg: Config, r: Reading, e: Ev) {
    || (cfg.hasTimer && e.long && e.timestampNs == r.nowNs)
    || (r.chip.Edges? && e.line < |cfg.offsets| && EdgeAt(r.chip.es, cfg.offsets[e.line], e.timestampNs))
  }

  ghost predicate EdgeAt(es: seq<(Edge, nat)>, offset: nat, timestampNs: nat) {
    exists k :: 0 <= k < |es| && es[k].0.offset == offset && es[k].0.timestampNs == timestampNs
  }

  lemma {:induction false} ChecksStamp(cfg: Config, g: Gpio, i: nat, nowMs: nat, nowNs: nat)
    requires i <= |g.lines| == |g.seen| && cfg.hasTimer
    ensures var g' := CheckFrom(cfg, g, i, nowMs, nowNs);
      g.emitted <= g'.emitted
      && forall k :: |g.emitted| <= k < |g'.emitted| ==> g'.emitted[k].long && g'.emitted[k].timestampNs == nowNs
    decreases |g.lines| - i
  {
    if i < |g.lines| {
      ChecksStamp(cfg, Feed(cfg, g, i, CheckIn(nowMs), nowNs), i + 1, nowMs, nowNs);
    }
  }

  lemma {:induction false} EdgesStamp(cfg: Config, g: Gpio, es: seq<(Edge, nat)>)
    requires |g.lines| == |g.seen| == |cfg.offsets|
    ensures var g' := ProcessAll(cfg, g, es);
      g.emitted <= g'.emitted
      && forall k :: |g.emitted| <= k < |g'.emitted| ==>
           g'.emitted[k].line < |cfg.offsets|
           && EdgeAt(es, cfg.offsets[g'.emitted[k].line], g'.emitted[k].timestampNs)
    decreases |es|
  {
    if es != [] {
      var g1 := ProcessEdge(cfg, g, es[0].0, es[0].1);
      var g' := ProcessAll(cfg, g1, es[1..]);
      EdgesStamp(cfg, g1, es[1..]);
      forall k | |g.emitted| <= k < |g'.emitted|
        ensures g'.emitted[k].line < |cfg.offsets|
        ensures EdgeAt(es, cfg.offsets[g'.emitted[k].line], g'.emitted[k].timestampNs)
      {
        if k >= |g1.emitted| {
          var offset := cfg.offsets[g'.emitted[k].line];
          var n :| 0 <= n < |es[1..]| && es[1..][n].0.offset == offset
                   && es[1..][n].0.timestampNs == g'.emitted[k].timestampNs;
          assert es[n + 1] == es[1..][n];
        } else {
          assert g'.emitted[k] == g1.emitted[k];
          assert es[0].0.offset == cfg.offsets[g1.emitted[k].line];
        }
      }
    }
  }

  lemma ReadStamps(cfg: Config, g: Gpio, r: Reading)
    requires |g.lines| == |g.seen| == |cfg.offsets|
    ensures var g' := ReadEvent(cfg, g, r).0;
      g.emitted <= g'.emitted && forall k :: |g.emitted| <= k < |g'.emitted| ==> Stamped(cfg, r, g'.emitted[k])
  {
    if g.pending == [] {
      var g1 := if cfg.hasTimer then HandleTimer(cfg, g, r.nowMs, r.nowNs, r.rearmMs) else g;
      if cfg.hasTimer {
        ChecksStamp(cfg, g, 0, r.nowMs, r.nowNs);
      }
      if g1.pending == [] && r.chip.Edges? {
        EdgesStamp(cfg, g1, r.chip.es);
      }
    }
  }
}

/** The driver's own state: the line records, a 32-entry event ring, and the timer. */
module GpioHal {
  import opened Words
  import opened GpioLine
  import opened GpioSpec
  import opened RingQueue

  class GpioHal {
    const cfg: Config
    const lines: array<Line>
    const events: array<Ev>  // the pending ring
    var head: nat
    var tail: nat
    var count: nat
    var timer: Option<nat>
    ghost var items: seq<Ev>  // the pending events, oldest first
    ghost var emitted: seq<Ev>
    ghost var delivered: seq<Ev>
    ghost var seen: seq<seq<Input>>

    ghost predicate Valid()
      reads this, lines, events
    {
      && lines.Length == |seen| == |cfg.offsets| == NUM_BUTTONS && events.Length == MAX_PENDING
      && head < MAX_PENDING && count <= MAX_PENDING && tail == Wrap(head + count, MAX_PENDING)
      && |items| == count && Holds(events[..], head, items)
    }

    ghost function Abs(): Gpio
      reads this, lines
    {
      Gpio(lines[..], items, timer, emitted, delivered, seen)
    }

    /** reset_state, with the set-up found at init. */
    constructor (cfg: Config)
      requires |cfg.offsets| == NUM_BUTTONS
      ensures Valid() && Abs() == Init() && this.cfg == cfg && fresh(lines) && fresh(events)
    {
      this.cfg := cfg;
      lines := new Line[NUM_BUTTONS](_ => NEW_LINE);
      events := new Ev[MAX_PENDING];
      head, tail, count, timer := 0, 0, 0, None;
      items, emitted, delivered, seen := [], [], [], [[], [], []];
      new;
      assert lines[..] == [NEW_LINE, NEW_LINE, NEW_LINE];
    }

    method DropOldest()
      requires Valid() && count > 0
      modifies this`head, this`count, this`items
      ensures Valid() && Abs() == old(Abs()).(pending := old(items)[1..]) && count == old(count) - 1
    {
      head := Wrap(head + 1, MAX_PENDING);
      count := count - 1;
      items := items[1..];
    }

    method PendingPush(e: Ev)
      requires Valid()
      modifies this`head, this`tail, this`count, this`items, this`emitted, events
      ensures Valid()
      ensures Abs() == old(Abs()).(pending := PushPending(old(items), e), emitted := old(emitted) + [e])
    {
      if count >= MAX_PENDING {
        DropOldest();
      }
      HoldsAppended(events[..], head, items, e);
      events[tail] := e;
      tail := Wrap(tail + 1, MAX_PENDING);
      count := count + 1;
      items, emitted := items + [e], emitted + [e];
    }

    method PendingPop() returns (event: Option<Ev>)
      requires Valid()
      modifies this`head, this`count, this`items, this`delivered
      ensures Valid() && (Abs(), event) == PopPending(old(Abs()))
    {
      if count == 0 {
        return None;
      }
      event := Some(events[head]);
      delivered := delivered + [events[head]];
      DropOldest();
    }

    /** update_long_press_timer_locked. */
    method UpdateLongPressTimer(nowMs: nat)
      requires Valid()
      modifies this`timer
      ensures Valid() && Abs() == Rearm(cfg, old(Abs()), nowMs)
    {
      if !cfg.hasTimer {
        return;
      }
      var nextDelay, hasPending := 0, false;
      ghost var all := lines[..];
      assert all[0..] == all;
      for i := 0 to NUM_BUTTONS
        invariant Fold(Remaining(all[i..], nowMs), nextDelay) == Fold(Remaining(all, nowMs), 0)
        invariant (hasPending || Remaining(all[i..], nowMs) != []) == (Remaining(all, nowMs) != [])
      {
        assert all[i..][0] == all[i] == lines[i] && all[i..][1..] == all[i + 1..];
        ghost var rest := Remaining(all[i + 1..], nowMs);
        assert [] + rest == rest;
        if lines[i].pressed && !lines[i].longSent {
          hasPending := true;
          var remaining := RemainingMs(lines[i], nowMs);
          assert Remaining(all[i..], nowMs) == [remaining] + rest;
          assert ([remaining] + rest)[1..] == rest;
          if nextDelay == 0 || remaining < nextDelay {
            nextDelay := remaining;
          }
        }
      }
      if hasPending {
        if nextDelay == 0 {
          nextDelay := 1;
        }
        timer := Some(nextDelay);
      } else {
        timer := None;
      }
    }

    /** One line's turn in the timer handler. */
    method CheckLine(i: nat, nowMs: nat, nowNs: nat)
      requires Valid() && cfg.hasTimer && i < NUM_BUTTONS
      modifies this`head, this`tail, this`count, this`items, this`emitted, this`seen, lines, events
      ensures Valid() && Abs() == Feed(cfg, old(Abs()), i, CheckIn(nowMs), nowNs)
    {
      seen := seen[i := seen[i] + [CheckIn(nowMs)]];
      if lines[i].pressed && !lines[i].longSent && Sub64(nowMs, lines[i].pressMs) >= LONG_PRESS_MS {
        lines[i] := lines[i].(longSent := true);
        PendingPush(Ev(i, true, nowNs));
      }
    }

    /** handle_long_press_timer_locked. */
    method HandleLongPressTimer(nowMs: nat, nowNs: nat, rearmMs: nat)
      requires Valid()
      modifies this`head, this`tail, this`count, this`items, this`emitted, this`seen, this`timer, lines, events
      ensures Valid()
      ensures Abs() == if cfg.hasTimer then HandleTimer(cfg, old(Abs()), nowMs, nowNs, rearmMs) else old(Abs())
    {
      if !cfg.hasTimer {
        return;
      }
      for i := 0 to NUM_BUTTONS
        invariant Valid()
        invariant CheckFrom(cfg, Abs(), i, nowMs, nowNs) == CheckFrom(cfg, old(Abs()), 0, nowMs, nowNs)
      {
        CheckLine(i, nowMs, nowNs);
      }
      UpdateLongPressTimer(rearmMs);
    }

    method FindLine(offset: nat) returns (line: nat)
      requires Valid()
      ensures line == LineOf(cfg.offsets, offset)
    {
      line := 0;
      while line < NUM_BUTTONS && cfg.offsets[line] != offset
        invariant line <= NUM_BUTTONS && forall j :: 0 <= j < line ==> cfg.offsets[j] != offset
      {
        line := line + 1;
      }
    }

    /** The release of a held line: with the timer a short press unless a long one was sent, without it
        short or long by the time held. */
    method Release(i: nat, ms: nat, timestampNs: nat)
      requires Valid() && i < NUM_BUTTONS && lines[i].pressed && Accepts(cfg, lines[i].lastEdgeMs, ms)
      modifies this`head, this`tail, this`count, this`items, this`emitted, this`seen, lines, events
      ensures Valid() && Abs() == Feed(cfg, old(Abs()), i, EdgeIn(false, ms), timestampNs)
    {
      seen := seen[i := seen[i] + [EdgeIn(false, ms)]];
      var was := lines[i];
      if !cfg.hasTimer {
        lines[i] := was.(pressed := false, lastEdgeMs := ms);
        PendingPush(Ev(i, Sub64(ms, was.pressMs) >= LONG_PRESS_MS, timestampNs));
      } else {
        lines[i] := was.(pressed := false, longSent := false, lastEdgeMs := ms);
        if !was.longSent {
          PendingPush(Ev(i, false, timestampNs));
        }
      }
    }

    /** A press or release on a known line, after debounce. */
    method AcceptEdge(i: nat, press: bool, ms: nat, timestampNs: nat) returns (rearm: bool)
      requires Valid() && i < NUM_BUTTONS && Accepts(cfg, lines[i].lastEdgeMs, ms)
      modifies this`head, this`tail, this`count, this`items, this`emitted, this`seen, lines, events
      ensures Valid() && Abs() == Feed(cfg, old(Abs()), i, EdgeIn(press, ms), timestampNs)
      ensures rearm == (press || old(lines[i].pressed))
    {
      rearm := press || lines[i].pressed;
      if !press && lines[i].pressed {
        Release(i, ms, timestampNs);
      } else {
        seen := seen[i := seen[i] + [EdgeIn(press, ms)]];
        lines[i] := if press then Line(true, false, ms, ms) else lines[i].(lastEdgeMs := ms);
      }
    }

    /** process_edge_event. */
    method HandleEdge(e: Edge, nowMs: nat)
      requires Valid()
      modifies this`head, this`tail, this`count, this`items, this`emitted, this`seen, this`timer, lines, events
      ensures Valid() && Abs() == ProcessEdge(cfg, old(Abs()), e, nowMs)
    {
      var i := FindLine(e.offset);
      if i == NUM_BUTTONS {
        return;
      }
      var ms := e.timestampNs / 1_000_000;
      var press := IsPress(cfg, e);
      if cfg.softDebounce && lines[i].lastEdgeMs != 0 && Sub64(ms, lines[i].lastEdgeMs) < DEBOUNCE_MS {
        seen := seen[i := seen[i] + [EdgeIn(press, ms)]];
        assert lines[..][i := lines[i]] == lines[..];
        return;
      }
      var rearm := AcceptEdge(i, press, ms, e.timestampNs);
      if rearm {
        UpdateLongPressTimer(nowMs);
      }
    }

    method HandleEdges(es: seq<(Edge, nat)>)
      requires Valid()
      modifies this`head, this`tail, this`count, this`items, this`emitted, this`seen, this`timer, lines, events
      ensures Valid() && Abs() == ProcessAll(cfg, old(Abs()), es)
    {
      assert es[0..] == es;
      for i := 0 to |es|
        invariant Valid()
        invariant ProcessAll(cfg, Abs(), es[i..]) == ProcessAll(cfg, old(Abs()), es)
      {
        assert es[i..][1..] == es[i + 1..];
        HandleEdge(es[i].0, es[i].1);
      }
    }

    /** libgpiod_read_event. */
    method Read(r: Reading) returns (result: ReadResult)
      requires Valid()
      modifies this, lines, events
      ensures Valid() && (Abs(), result) == ReadEvent(cfg, old(Abs()), r)
    {
      var event := PendingPop();
      if event.Some? {
        return Got(event.value);
      }
      HandleLongPressTimer(r.nowMs, r.nowNs, r.rearmMs);
      event := PendingPop();
      if event.Some? {
        return Got(event.value);
      }
      match r.chip {
        case Failed => return Error;
        case WouldBlock => return Nothing;
        case Edges(es) =>
          HandleEdges(es);
          event := PendingPop();
          return if event.Some? then Got(event.value) else Nothing;
      }
    }
  }
}
