/** The Services page: a list with a selection and a scroll window, a confirm dialog, and the control
    request it leaves for the UI controller. */
module ServicesSpec {
  import RingQueue

  const MAX_SERVICES: nat := 8
  const VISIBLE_LINES: nat := 3

  datatype Key = K1 | K2 | K3
  datatype UiState = SvcStopped | SvcRunning | SvcStarting | SvcStopping | SvcError

  datatype Svc = Svc(
    selected: int, scroll: int, uiStates: seq<UiState>, stateChangeMs: seq<nat>, cachedRunning: seq<bool>,
    dialog: bool, yes: bool, pendingIndex: int, pendingStart: bool)

  function Fresh(): Svc {
    Svc(0, 0, seq(8, _ => SvcStopped), seq(8, _ => 0), seq(8, _ => false), false, false, -1, false)
  }

  function MaxScroll(count: nat): nat {
    if count <= VISIBLE_LINES then 0 else count - VISIBLE_LINES
  }

  /** ensure_visible: follow the selection, then clamp. */
  function EnsureVisible(selected: int, scroll: int, count: nat): int {
    var s := if selected < scroll then selected
             else if selected >= scroll + VISIBLE_LINES then selected - VISIBLE_LINES + 1 else scroll;
    var s1 := if s > MaxScroll(count) then MaxScroll(count) else s;
    if s1 < 0 then 0 else s1
  }

  function Move(v: Svc, down: bool, count: nat): Svc {
    var sel := if down then (if v.selected + 1 >= count then 0 else v.selected + 1)
               else (if v.selected - 1 < 0 then count - 1 else v.selected - 1);
    v.(selected := sel, scroll := EnsureVisible(sel, v.scroll, count))
  }

  ghost predicate Shaped(v: Svc) {
    |v.uiStates| == MAX_SERVICES && |v.stateChangeMs| == MAX_SERVICES && |v.cachedRunning| == MAX_SERVICES
  }

  /** The selection is a service and is on the screen; the window stays inside the list. */
  ghost predicate Visible(v: Svc, count: nat) {
    && 0 <= v.selected && (count > 0 ==> v.selected < count) && (count == 0 ==> v.selected == 0)
    && v.scroll <= v.selected < v.scroll + VISIBLE_LINES
    && 0 <= v.scroll <= MaxScroll(count)
  }

  ghost predicate Inv(v: Svc, count: nat) {
    && count <= MAX_SERVICES && Shaped(v) && Visible(v, count)
    && -1 <= v.pendingIndex < count
    && (v.dialog ==> count > 0)
  }

  /** services_on_key in enter mode: the new state, and whether the key was used. */
  function OnKey(v: Svc, key: Key, long: bool, count: nat): (Svc, bool)
    requires count > 0 ==> 0 <= v.selected < |v.cachedRunning| && v.selected < |v.uiStates|
  {
    if count == 0 || long then (v, false)
    else if v.dialog then
      if !key.K2? then (v.(yes := !v.yes), true)
      else if !v.yes then (v.(dialog := false), true)
      else
        var running := v.cachedRunning[v.selected];
        (v.(dialog := false, uiStates := v.uiStates[v.selected := if running then SvcStopping else SvcStarting],
            pendingIndex := v.selected, pendingStart := !running), true)
    else match key
      case K1 => (Move(v, false, count), true)
      case K3 => (Move(v, true, count), true)
      case K2 => (v.(dialog := true, yes := false), true)
  }

  function OnEnter(v: Svc): Svc {
    v.(selected := 0, scroll := 0)
  }

  function OnExit(v: Svc): Svc {
    v.(dialog := false, pendingIndex := -1)
  }

  /** page_services_take_control_request when there is one. */
  function Take(v: Svc, nowMs: nat): Svc
    requires 0 <= v.pendingIndex
  {
    v.(pendingIndex := -1,
       stateChangeMs := if v.pendingIndex < |v.stateChangeMs|
         then v.stateChangeMs[v.pendingIndex := nowMs] else v.stateChangeMs)
  }

  function Notify(v: Svc, index: int, success: bool): Svc {
    if 0 <= index < |v.uiStates| && !success then v.(uiStates := v.uiStates[index := SvcError]) else v
  }

  /** What one line's state becomes when a render sees the service. */
  function Synced(s: UiState, running: bool, valid: bool): UiState {
    if (s.SvcStarting? && running) || (s.SvcStopping? && !running) || (s.SvcError? && valid)
    then (if running then SvcRunning else SvcStopped) else s
  }

  /** The bookkeeping part of services_render. */
  function Render(v: Svc, running: seq<bool>, valid: seq<bool>): Svc
    requires |running| == |valid| <= |v.cachedRunning| == |v.uiStates|
  {
    v.(cachedRunning := running + v.cachedRunning[|running|..],
       uiStates := seq(|running|, i requires 0 <= i < |running| => Synced(v.uiStates[i], running[i], valid[i]))
         + v.uiStates[|running|..])
  }

  lemma EnsureVisibleWorks(selected: int, scroll: int, count: nat)
    requires 0 <= selected < count
    ensures var s := EnsureVisible(selected, scroll, count);
      s <= selected < s + 3 && 0 <= s && (if count <= 3 then s == 0 else s <= count - 3)
    ensures scroll <= selected < scroll + VISIBLE_LINES && 0 <= scroll <= MaxScroll(count) ==>
      EnsureVisible(selected, scroll, count) == scroll
  {
  }

  /** A key keeps the selection visible, and asks for a control exactly when it confirms Yes. */
  lemma KeyKeepsInv(v: Svc, key: Key, long: bool, count: nat)
    requires Inv(v, count)
    ensures Inv(OnKey(v, key, long, count).0, count)
    ensures v.pendingIndex == -1 ==>
      var v' := OnKey(v, key, long, count).0;
      if count > 0 && v.dialog && v.yes && key.K2? && !long
      then v'.pendingIndex == v.selected && v'.pendingStart == !v.cachedRunning[v.selected] && !v'.dialog
      else v'.pendingIndex == -1
  {
  }

  /** What each key does, in full. A long key, or a page without services, does nothing. In the list K1 goes up, K3
      goes down, round the ends, and K2 opens the dialog on No. In the dialog K1 and K3 turn the answer over; K2 closes
      it and, on Yes alone, asks for the opposite of the cached state and shows that it is under way. */
  lemma OnKeyMeaning(v: Svc, key: Key, long: bool, count: nat)
    requires Inv(v, count)
    ensures OnKey(v, key, long, count).1 == (count > 0 && !long)
    ensures count == 0 || long ==> OnKey(v, key, long, count).0 == v
    ensures count > 0 && !long && !v.dialog ==>
      var v' := OnKey(v, key, long, count).0;
      match key
      case K1 => Visible(v', count) && v' == v.(selected := (v.selected + count - 1) % count, scroll := v'.scroll)
      case K3 => Visible(v', count) && v' == v.(selected := (v.selected + 1) % count, scroll := v'.scroll)
      case K2 => v' == v.(dialog := true, yes := false)
    ensures count > 0 && !long && v.dialog ==>
      var v', on := OnKey(v, key, long, count).0, v.cachedRunning[v.selected];
      if !key.K2? then v' == v.(yes := !v.yes)
      else if !v.yes then v' == v.(dialog := false)
      else
        v' == v.(dialog := false, pendingIndex := v.selected, pendingStart := !on,
                 uiStates := v.uiStates[v.selected := if on then SvcStopping else SvcStarting])
  {
    if count > 0 {
      RingQueue.WrapIsModulo(v.selected + count - 1, count);
      RingQueue.WrapIsModulo(v.selected + 1, count);
    }
  }

  /** What a render makes of each line: a start is over once the service runs, a stop once it does not, an error once
      its state is known again; every other line, and every line beyond the list, stays as it is. */
  lemma RenderMeaning(v: Svc, running: seq<bool>, valid: seq<bool>, i: nat)
    requires Shaped(v) && |running| == |valid| <= MAX_SERVICES && i < MAX_SERVICES
    ensures var v' := Render(v, running, valid);
      && Shaped(v') && v' == v.(uiStates := v'.uiStates, cachedRunning := v'.cachedRunning)
      && if i >= |running| then v'.uiStates[i] == v.uiStates[i] && v'.cachedRunning[i] == v.cachedRunning[i]
         else
           && v'.cachedRunning[i] == running[i]
           && v'.uiStates[i] ==
              match v.uiStates[i]
              case SvcStarting => if running[i] then SvcRunning else SvcStarting
              case SvcStopping => if running[i] then SvcStopping else SvcStopped
              case SvcError => if !valid[i] then SvcError else if running[i] then SvcRunning else SvcStopped
              case other => other
  {
  }

  /** In the list, K3 then K1, like K1 then K3, comes back to the selection it left. */
  lemma MovesCancel(v: Svc, count: nat, down: bool)
    requires Inv(v, count) && count > 0
    ensures Move(Move(v, down, count), !down, count).selected == v.selected
    ensures Visible(Move(v, down, count), count)
  {
  }
}

module ServicesPage {
  import opened ServicesSpec

  class ServicesPage {
    const count: nat  // configured services
    var selected: int
    var scroll: int
    const uiStates: array<UiState>
    const stateChangeMs: array<nat>
    const cachedRunning: array<bool>
    var dialog: bool
    var yes: bool
    var pendingIndex: int
    var pendingStart: bool

    ghost function Abs(): Svc
      reads this, uiStates, stateChangeMs, cachedRunning
    {
      Svc(selected, scroll, uiStates[..], stateChangeMs[..], cachedRunning[..], dialog, yes, pendingIndex, pendingStart)
    }

    ghost predicate Valid()
      reads this, uiStates, stateChangeMs, cachedRunning
    {
      Inv(Abs(), count)
    }

    constructor (count: nat)
      requires count <= MAX_SERVICES
      ensures Valid() && Abs() == Fresh() && this.count == count
      ensures fresh(uiStates) && fresh(stateChangeMs) && fresh(cachedRunning)
    {
      this.count := count;
      selected, scroll, dialog, yes, pendingIndex, pendingStart := 0, 0, false, false, -1, false;
      uiStates := new UiState[8](_ => SvcStopped);
      stateChangeMs := new nat[8](_ => 0);
      cachedRunning := new bool[8](_ => false);
    }

    method EnsureVisible()
      modifies this`scroll
      ensures scroll == ServicesSpec.EnsureVisible(selected, old(scroll), count)
    {
      if selected < scroll {
        scroll := selected;
      } else if selected >= scroll + VISIBLE_LINES {
        scroll := selected - VISIBLE_LINES + 1;
      }
      var maxScroll: int := count - VISIBLE_LINES;
      if maxScroll < 0 {
        maxScroll := 0;
      }
      if scroll > maxScroll {
        scroll := maxScroll;
      }
      if scroll < 0 {
        scroll := 0;
      }
    }

    method OnKey(key: Key, long: bool, enterMode: bool) returns (used: bool)
      requires Valid()
      modifies this, uiStates
      ensures Valid()
      ensures (Abs(), used) ==
        if enterMode then ServicesSpec.OnKey(old(Abs()), key, long, count) else (old(Abs()), false)
    {
      KeyKeepsInv(Abs(), key, long, count);
      if !enterMode || count == 0 {
        return false;
      }
      if dialog {
        match key {
          case K1 | K3 =>
            if !long {
              yes := !yes;
              return true;
            }
          case K2 =>
            if !long {
              if yes {
                var running := cachedRunning[selected];
                uiStates[selected] := if running then SvcStopping else SvcStarting;
                pendingIndex := selected;
                pendingStart := !running;
              }
              dialog := false;
              return true;
            }
        }
        return false;
      }
      match key {
        case K1 =>
          if !long {
            selected := selected - 1;
            if selected < 0 {
              selected := count - 1;
            }
            EnsureVisible();
            return true;
          }
        case K3 =>
          if !long {
            selected := selected + 1;
            if selected >= count {
              selected := 0;
            }
            EnsureVisible();
            return true;
          }
        case K2 =>
          if !long {
            dialog := true;
            yes := false;
            return true;
          }
      }
      return false;
    }

    method OnEnter()
      requires Valid()
      modifies this`selected, this`scroll
      ensures Valid() && Abs() == ServicesSpec.OnEnter(old(Abs()))
    {
      selected := 0;
      scroll := 0;
    }

    method OnExit()
      requires Valid()
      modifies this`dialog, this`pendingIndex
      ensures Valid() && Abs() == ServicesSpec.OnExit(old(Abs()))
    {
      dialog := false;
      pendingIndex := -1;
    }

    method TakeControlRequest(nowMs: nat) returns (taken: bool, index: int, start: bool)
      requires Valid()
      modifies this`pendingIndex, stateChangeMs
      ensures Valid() && taken == (old(pendingIndex) >= 0) && pendingIndex == -1
      ensures Abs() == if taken then Take(old(Abs()), nowMs) else old(Abs())
      ensures taken ==> index == old(pendingIndex) && start == pendingStart
    {
      if pendingIndex < 0 {
        return false, -1, false;
      }
      index := pendingIndex;
      pendingIndex := -1;
      stateChangeMs[index] := nowMs;
      return true, index, pendingStart;
    }

    method NotifyControlResult(index: int, success: bool)
      requires Valid()
      modifies uiStates
      ensures Valid() && Abs() == Notify(old(Abs()), index, success)
    {
      if index < 0 || index >= MAX_SERVICES {
        return;
      }
      if !success {
        uiStates[index] := SvcError;
      }
    }

    method Render(running: seq<bool>, valid: seq<bool>)
      requires Valid() && |running| == count == |valid|
      modifies uiStates, cachedRunning
      ensures Valid() && Abs() == ServicesSpec.Render(old(Abs()), running, valid)
    {
      var i := 0;
      while i < count
        invariant 0 <= i <= count
        invariant forall j :: 0 <= j < 8 ==> cachedRunning[j] == if j < i then running[j] else old(cachedRunning[j])
        invariant forall j :: 0 <= j < 8 ==>
          uiStates[j] == if j < i then Synced(old(uiStates[j]), running[j], valid[j]) else old(uiStates[j])
      {
        cachedRunning[i] := running[i];
        uiStates[i] := Synced(uiStates[i], running[i], valid[i]);
        i := i + 1;
      }
      assert Abs().cachedRunning == ServicesSpec.Render(old(Abs()), running, valid).cachedRunning;
      assert Abs().uiStates == ServicesSpec.Render(old(Abs()), running, valid).uiStates;
    }
  }
}
