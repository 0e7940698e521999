/** One button line: debounce, press, long press, release. */
module GpioLine {
  import opened Words

  const LONG_PRESS_MS: nat := 600
  const DEBOUNCE_MS: nat := 30

  /** softDebounce: the chip does not debounce; hasTimer: the long-press timer exists. */
  datatype Config = Config(offsets: seq<nat>, softDebounce: bool, pressedLevel: int, hasTimer: bool)

  datatype Line = Line(pressed: bool, longSent: bool, pressMs: nat, lastEdgeMs: nat)

  const NEW_LINE: Line := Line(false, false, 0, 0)

  /** What a line sees: an edge to pressed or released, or a check of the long-press threshold. */
  datatype Input = EdgeIn(press: bool, ms: nat) | CheckIn(nowMs: nat)

  predicate Accepts(cfg: Config, lastEdgeMs: nat, ms: nat) {
    !(cfg.softDebounce && lastEdgeMs != 0 && Sub64(ms, lastEdgeMs) < DEBOUNCE_MS)
  }

  predicate Held(l: Line, nowMs: nat) {
    l.pressed && !l.longSent && Sub64(nowMs, l.pressMs) >= LONG_PRESS_MS
  }

  /** On a clock that does not run backwards, an edge is dropped exactly when debouncing is left to the program, an
      edge was accepted before, and that was less than 30 ms ago. */
  lemma DroppedIff(cfg: Config, lastEdgeMs: nat, ms: nat)
    requires lastEdgeMs <= ms < U64
    ensures !Accepts(cfg, lastEdgeMs, ms) <==> cfg.softDebounce && 0 < lastEdgeMs && ms < lastEdgeMs + 30
  {
  }

  /** The line after an input, and the event it emits, if any: true for a long press. */
  function Step(cfg: Config, l: Line, x: Input): (Line, Option<bool>) {
    match x
    case CheckIn(now) =>
      if cfg.hasTimer && Held(l, now) then (l.(longSent := true), Some(true)) else (l, None)
    case EdgeIn(press, ms) =>
      if !Accepts(cfg, l.lastEdgeMs, ms) then (l, None)
      else if press then (Line(true, false, ms, ms), None)
      else if !l.pressed then (l.(lastEdgeMs := ms), None)
      else if !cfg.hasTimer then
        (l.(pressed := false, lastEdgeMs := ms), Some(Sub64(ms, l.pressMs) >= LONG_PRESS_MS))
      else
        (l.(pressed := false, longSent := false, lastEdgeMs := ms), if l.longSent then None else Some(false))
  }

  function After(cfg: Config, l: Line, xs: seq<Input>): Line
    decreases |xs|
  {
    if xs == [] then l else After(cfg, Step(cfg, l, xs[0]).0, xs[1..])
  }

  function Listed(e: Option<bool>): seq<bool> {
    if e.Some? then [e.value] else []
  }

  function Emitted(cfg: Config, l: Line, xs: seq<Input>): seq<bool>
    decreases |xs|
  {
    if xs == [] then [] else Listed(Step(cfg, l, xs[0]).1) + Emitted(cfg, Step(cfg, l, xs[0]).0, xs[1..])
  }

  /** No press is accepted along the way. */
  predicate NoPress(cfg: Config, l: Line, xs: seq<Input>)
    decreases |xs|
  {
    xs == [] || (!(xs[0].EdgeIn? && xs[0].press && Accepts(cfg, l.lastEdgeMs, xs[0].ms))
                 && NoPress(cfg, Step(cfg, l, xs[0]).0, xs[1..]))
  }

  predicate IsRelease(cfg: Config, p: nat, x: Input) {
    x.EdgeIn? && !x.press && Accepts(cfg, p, x.ms)
  }

  /** The first release that debounce lets through after a press at p, or |xs|. */
  function FirstRelease(cfg: Config, p: nat, xs: seq<Input>): (r: nat)
    ensures r <= |xs|
    ensures r < |xs| ==> IsRelease(cfg, p, xs[r])
    ensures forall i :: 0 <= i < r ==> !IsRelease(cfg, p, xs[i])
  {
    if xs == [] || IsRelease(cfg, p, xs[0]) then 0 else
      var k := FirstRelease(cfg, p, xs[1..]);
      assert forall i :: 1 <= i < k + 1 ==> xs[i] == xs[1..][i - 1];
      k + 1
  }

  /** Some check among the first r inputs comes 600 ms or more after p. */
  ghost predicate LateCheck(p: nat, xs: seq<Input>, r: nat)
    requires r <= |xs|
  {
    exists i :: 0 <= i < r && xs[i].CheckIn? && Sub64(xs[i].nowMs, p) >= 600
  }

  /** What a press at p must yield before the next accepted press. */
  ghost function Gesture(cfg: Config, p: nat, xs: seq<Input>): seq<bool> {
    var r := FirstRelease(cfg, p, xs);
    if cfg.hasTimer then
      if LateCheck(p, xs, r) then [true]
      else if r < |xs| then [false] else []
    else if r < |xs| then [Sub64(xs[r].ms, p) >= 600] else []
  }

  /** A line that is up, or that already reported its long press, says nothing until the next press. */
  lemma {:induction false} SilentUntilPress(cfg: Config, l: Line, xs: seq<Input>)
    requires NoPress(cfg, l, xs) && (!l.pressed || (l.longSent && cfg.hasTimer))
    ensures Emitted(cfg, l, xs) == []
    decreases |xs|
  {
    if xs != [] {
      SilentUntilPress(cfg, Step(cfg, l, xs[0]).0, xs[1..]);
    }
  }

  /** One event per press: with the timer, a long one if some check before the release saw the press
      outstanding for 600 ms, otherwise a short one at the release; without it, one at the release. */
  lemma {:induction false} OneEventPerPress(cfg: Config, p: nat, xs: seq<Input>)
    requires NoPress(cfg, Line(true, false, p, p), xs)
    ensures Emitted(cfg, Line(true, false, p, p), xs) == Gesture(cfg, p, xs)
    ensures |Gesture(cfg, p, xs)| <= 1 && (FirstRelease(cfg, p, xs) < |xs| ==> |Gesture(cfg, p, xs)| == 1)
    decreases |xs|
  {
    if xs != [] {
      var l := Line(true, false, p, p);
      var (l1, e) := Step(cfg, l, xs[0]);
      if IsRelease(cfg, p, xs[0]) {
        SilentUntilPress(cfg, l1, xs[1..]);
      } else if e.Some? {
        SilentUntilPress(cfg, l1, xs[1..]);
        assert xs[0].CheckIn? && FirstRelease(cfg, p, xs) > 0;
      } else {
        assert l1 == l;
        OneEventPerPress(cfg, p, xs[1..]);
        GestureTail(cfg, p, xs);
      }
    }
  }

  /** An input that neither releases nor reports leaves the outcome to the rest. */
  lemma GestureTail(cfg: Config, p: nat, xs: seq<Input>)
    requires xs != [] && !IsRelease(cfg, p, xs[0])
    requires cfg.hasTimer ==> !(xs[0].CheckIn? && Sub64(xs[0].nowMs, p) >= LONG_PRESS_MS)
    ensures Gesture(cfg, p, xs) == Gesture(cfg, p, xs[1..])
  {
    var r, r1 := FirstRelease(cfg, p, xs), FirstRelease(cfg, p, xs[1..]);
    assert r == r1 + 1;
    assert forall i :: 1 <= i < |xs| ==> xs[i] == xs[1..][i - 1];
    if LateCheck(p, xs, r) && cfg.hasTimer {
      var i :| 0 <= i < r && xs[i].CheckIn? && Sub64(xs[i].nowMs, p) >= LONG_PRESS_MS;
      assert xs[1..][i - 1] == xs[i];
    }
  }

  /** The documented meaning, long for a press held 600 ms and short for one released before, is met exactly
      when, with the timer, a late check before the release and a late release go together. */
  lemma LengthToldIff(cfg: Config, p: nat, xs: seq<Input>)
    requires NoPress(cfg, Line(true, false, p, p), xs) && FirstRelease(cfg, p, xs) < |xs|
    ensures var r := FirstRelease(cfg, p, xs);
      var held := Sub64(xs[r].ms, p) >= 600;
      Emitted(cfg, Line(true, false, p, p), xs) == [held] <==> !cfg.hasTimer || (LateCheck(p, xs, r) <==> held)
  {
    OneEventPerPress(cfg, p, xs);
  }

  /** Held for 700 ms, but no check came before its release; and held for 300 ms, but the check came first. */
  lemma LengthCanBeMistold(cfg: Config)
    requires cfg.hasTimer
    ensures Emitted(cfg, Line(true, false, 1000, 1000), [EdgeIn(false, 1700)]) == [false]
    ensures Emitted(cfg, Line(true, false, 1000, 1000), [CheckIn(1650), EdgeIn(false, 1300)]) == [true]
  {
    assert [EdgeIn(false, 1700)][1..] == [];
    assert [CheckIn(1650), EdgeIn(false, 1300)][1..] == [EdgeIn(false, 1300)] && [EdgeIn(false, 1300)][1..] == [];
    assert Emitted(cfg, Line(true, true, 1000, 1000), [EdgeIn(false, 1300)]) == [];
  }

  lemma {:induction false} EmittedConcat(cfg: Config, l: Line, xs: seq<Input>, ys: seq<Input>)
    ensures After(cfg, l, xs + ys) == After(cfg, After(cfg, l, xs), ys)
    ensures Emitted(cfg, l, xs + ys) == Emitted(cfg, l, xs) + Emitted(cfg, After(cfg, l, xs), ys)
    decreases |xs|
  {
    if xs == [] {
      assert xs + ys == ys;
    } else {
      assert (xs + ys)[1..] == xs[1..] + ys;
      EmittedConcat(cfg, Step(cfg, l, xs[0]).0, xs[1..], ys);
    }
  }

  /** In any history, the events between an accepted press and the next accepted press are its gesture. */
  lemma GestureInHistory(cfg: Config, before: seq<Input>, p: nat, since: seq<Input>)
    requires Accepts(cfg, After(cfg, NEW_LINE, before).lastEdgeMs, p)
    requires NoPress(cfg, Line(true, false, p, p), since)
    ensures Emitted(cfg, NEW_LINE, before + [EdgeIn(true, p)] + since) ==
      Emitted(cfg, NEW_LINE, before) + Gesture(cfg, p, since)
  {
    var press := [EdgeIn(true, p)];
    EmittedConcat(cfg, NEW_LINE, before + press, since);
    EmittedConcat(cfg, NEW_LINE, before, press);
    assert press[1..] == [];
    assert After(cfg, After(cfg, NEW_LINE, before), press) == Line(true, false, p, p);
    assert Emitted(cfg, After(cfg, NEW_LINE, before), press) == [];
    OneEventPerPress(cfg, p, since);
  }
}
