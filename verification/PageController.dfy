/** The page controller together with the Services page and the UI controller that drives both. */
module PageSpec {
  import opened Words
  import opened ServicesSpec
  import RingQueue

  const SLIDE_MS: nat := 250
  const SHAKE_MS: nat := 400
  const MODE_MS: nat := 250

  datatype Page = NoPage | Page(canEnter: bool, isServices: bool)
  datatype Anim = AnimNone | SlideLeft | SlideRight | TitleShake | EnterAnim | ExitAnim
  datatype Mode = View | Enter

  /** A call of a page's on_enter or on_exit. */
  datatype Hook = Entered(page: int) | Exited(page: int)

  datatype Ctl = Ctl(
    screenOn: bool, lastActivityMs: nat, currentPage: int, mode: Mode,
    anim: Anim, animStartMs: nat, fromPage: int, toPage: int,
    enterStartMs: nat, idleTimeoutMs: nat, enterTimeoutMs: nat, autoOff: bool)

  /** pages and count (the configured services) never change; hooks and controls record the hook calls
      and the control calls made so far. */
  datatype Ui = Ui(
    pages: seq<Page>, count: nat, c: Ctl, v: Svc, hooks: seq<Hook>, controls: seq<(int, bool)>)

  /** How a page other than Services answers a key, and the auto screen-off flag it leaves behind. */
  datatype PageAnswer = PageAnswer(used: bool, autoOff: bool)

  function InitCtl(): Ctl {
    Ctl(true, 0, 1, View, AnimNone, 0, 0, 0, 0, 30000, 30000, false)
  }

  function InitUi(pages: seq<Page>, count: nat): Ui {
    Ui(pages, count, InitCtl(), Fresh(), [], [])
  }

  function Duration(a: Anim): nat {
    match a
    case SlideLeft | SlideRight => SLIDE_MS
    case TitleShake => SHAKE_MS
    case _ => MODE_MS
  }

  predicate AnimComplete(c: Ctl, nowMs: nat) {
    c.anim.AnimNone? || Sub64(nowMs, c.animStartMs) >= Duration(c.anim)
  }

  function Current(u: Ui): Page {
    if 0 <= u.c.currentPage < |u.pages| then u.pages[u.c.currentPage] else NoPage
  }

  function Start(c: Ctl, a: Anim, nowMs: nat): Ctl {
    c.(anim := a, animStartMs := nowMs)
  }

  /** The cyclic neighbour, as switch_page computes it. */
  function Neighbour(page: int, right: bool, n: int): int {
    var p := if right then page + 1 else page - 1;
    var p1 := if p < 0 then n - 1 else p;
    if p1 >= n then 0 else p1
  }

  lemma NeighbourIsCyclic(page: int, n: int)
    requires 0 <= page < n
    ensures Neighbour(page, true, n) == (page + 1) % n
    ensures Neighbour(page, false, n) == (page + n - 1) % n
    ensures Neighbour(Neighbour(page, true, n), false, n) == page
  {
    RingQueue.WrapIsModulo(page + 1, n);
    RingQueue.WrapIsModulo(page + n - 1, n);
  }

  function SwitchPage(u: Ui, right: bool, nowMs: nat): Ui {
    if |u.pages| <= 1 || !u.c.anim.AnimNone? then u
    else u.(c := Start(u.c.(fromPage := u.c.currentPage, toPage := Neighbour(u.c.currentPage, right, |u.pages|)),
                       if right then SlideLeft else SlideRight, nowMs))
  }

  function ExitEnterMode(u: Ui, nowMs: nat): Ui {
    var u1 := u.(c := Start(u.c.(mode := View), ExitAnim, nowMs));
    if Current(u).NoPage? then u1
    else u1.(hooks := u.hooks + [Exited(u.c.currentPage)], v := if Current(u).isServices then OnExit(u.v) else u.v)
  }

  function TryEnterMode(u: Ui, nowMs: nat): (Ui, bool) {
    if u.c.mode.Enter? then (ExitEnterMode(u, nowMs), true)
    else match Current(u)
      case NoPage => (u, false)
      case Page(canEnter, isServices) =>
        if !canEnter then (u.(c := Start(u.c, TitleShake, nowMs)), true)
        else
          (u.(c := Start(u.c.(mode := Enter, enterStartMs := nowMs), EnterAnim, nowMs),
              hooks := u.hooks + [Entered(u.c.currentPage)],
              v := if isServices then OnEnter(u.v) else u.v), true)
  }

  /** The current page's on_key. */
  function PageKey(u: Ui, key: Key, long: bool, answer: PageAnswer): (Ui, bool)
    requires SelectionOk(u)
  {
    match Current(u)
    case NoPage => (u, false)
    case Page(_, isServices) =>
      if !isServices then (u.(c := u.c.(autoOff := answer.autoOff)), answer.used)
      else if u.c.mode.View? then (u, false)
      else var (v, used) := OnKey(u.v, key, long, u.count); (u.(v := v), used)
  }

  predicate SelectionOk(u: Ui) {
    u.count > 0 ==> 0 <= u.v.selected < |u.v.cachedRunning| && u.v.selected < |u.v.uiStates|
  }

  function EnterKey(u: Ui, key: Key, long: bool, nowMs: nat, answer: PageAnswer): (Ui, bool)
    requires SelectionOk(u)
  {
    var u1 := u.(c := u.c.(enterStartMs := nowMs));
    if key.K2? && long then TryEnterMode(u1, nowMs) else PageKey(u1, key, long, answer)
  }

  function ViewKey(u: Ui, key: Key, long: bool, nowMs: nat, answer: PageAnswer): (Ui, bool)
    requires SelectionOk(u)
  {
    if key.K2? then
      if long then TryEnterMode(u, nowMs) else (u.(c := u.c.(screenOn := false)), true)
    else if !long then (SwitchPage(u, key.K3?, nowMs), true)
    else PageKey(u, key, long, answer)
  }

  /** The mode decides who takes the key. */
  function ModeKey(u: Ui, key: Key, long: bool, nowMs: nat, answer: PageAnswer): (Ui, bool)
    requires SelectionOk(u)
  {
    if u.c.mode.Enter? then EnterKey(u, key, long, nowMs, answer) else ViewKey(u, key, long, nowMs, answer)
  }

  /** A key with the screen on: ignored during an animation, whose end it otherwise notes. */
  function LitKey(u: Ui, key: Key, long: bool, nowMs: nat, answer: PageAnswer): (Ui, bool)
    requires SelectionOk(u)
  {
    if !AnimComplete(u.c, nowMs) then (u, false)
    else ModeKey(u.(c := u.c.(anim := AnimNone)), key, long, nowMs, answer)
  }

  function HandleKey(u: Ui, key: Key, long: bool, nowMs: nat, answer: PageAnswer): (Ui, bool)
    requires SelectionOk(u)
  {
    var u1 := u.(c := u.c.(lastActivityMs := nowMs));
    if u1.c.screenOn then LitKey(u1, key, long, nowMs, answer) else (u1.(c := u1.c.(screenOn := true)), true)
  }

  function TickFirst(c: Ctl, nowMs: nat): Ctl {
    if c.lastActivityMs == 0 then c.(lastActivityMs := nowMs) else c
  }

  predicate IdleExpired(c: Ctl, nowMs: nat) {
    c.autoOff && c.screenOn && !c.mode.Enter? && c.idleTimeoutMs > 0
      && Sub64(nowMs, c.lastActivityMs) >= c.idleTimeoutMs
  }

  predicate EnterExpired(c: Ctl, nowMs: nat) {
    c.mode.Enter? && c.enterTimeoutMs > 0 && Sub64(nowMs, c.enterStartMs) >= c.enterTimeoutMs
  }

  function SettleAnim(c: Ctl, nowMs: nat): Ctl {
    if c.anim.AnimNone? || !AnimComplete(c, nowMs) then c
    else c.(currentPage := if c.anim.SlideLeft? || c.anim.SlideRight? then c.toPage else c.currentPage,
      anim := AnimNone)
  }

  /** The part of a tick before the animation. */
  function Timeouts(u: Ui, nowMs: nat): (Ui, bool) {
    var u1 := u.(c := TickFirst(u.c, nowMs));
    var off := IdleExpired(u1.c, nowMs);
    var u2 := if off then u1.(c := u1.c.(screenOn := false)) else u1;
    var out := EnterExpired(u2.c, nowMs);
    (if out then ExitEnterMode(u2, nowMs) else u2, off || out)
  }

  function Tick(u: Ui, nowMs: nat): (Ui, bool) {
    var (u1, expired) := Timeouts(u, nowMs);
    (u1.(c := SettleAnim(u1.c, nowMs)), expired || !u1.c.anim.AnimNone?)
  }

  /** The control request, if there is one, is taken and issued. */
  function IssueControl(u: Ui, nowMs: nat, issued: bool): Ui {
    if u.v.pendingIndex < 0 then u
    else
      var v1 := Take(u.v, nowMs);
      u.(v := if issued then v1 else Notify(v1, u.v.pendingIndex, false),
         controls := u.controls + [(u.v.pendingIndex, u.v.pendingStart)])
  }

  /** ui_controller_handle_button; issued tells whether the control call was taken up. */
  function HandleButton(u: Ui, key: Key, long: bool, nowMs: nat, answer: PageAnswer, issued: bool): (Ui, bool)
    requires SelectionOk(u)
  {
    var (u1, changed) := HandleKey(u, key, long, nowMs, answer);
    (IssueControl(u1, nowMs, issued), changed)
  }

  // ----- What every step keeps -----

  predicate IsSlide(a: Anim) {
    a.SlideLeft? || a.SlideRight?
  }

  ghost predicate CtlOk(u: Ui) {
    && 0 <= u.c.currentPage < |u.pages|
    && (!u.c.screenOn ==> u.c.mode.View?)
    && (u.c.mode.Enter? ==> Current(u).Page? && Current(u).canEnter && !IsSlide(u.c.anim))
    && (IsSlide(u.c.anim) ==>
          u.c.fromPage == u.c.currentPage && u.c.toPage == Neighbour(u.c.currentPage, u.c.anim.SlideLeft?, |u.pages|))
  }

  /** Hooks alternate, starting with an entry; each exit is from the page last entered; and the last call
      says whether the controller is in enter mode, and where. */
  ghost predicate HooksOk(u: Ui) {
    && (forall i :: 0 <= i < |u.hooks| ==> (u.hooks[i].Entered? <==> i % 2 == 0))
    && (forall i :: 0 < i < |u.hooks| && i % 2 == 1 ==> u.hooks[i].page == u.hooks[i - 1].page)
    && (u.c.mode.Enter? <==> |u.hooks| % 2 == 1)
    && (u.c.mode.Enter? ==> u.hooks[|u.hooks| - 1].page == u.c.currentPage)
  }

  ghost predicate UiOk(u: Ui) {
    && |u.pages| >= 2 && CtlOk(u) && HooksOk(u)
    && ServicesSpec.Inv(u.v, u.count)
    && (u.v.dialog ==> u.c.mode.Enter? && Current(u).isServices)
    && u.v.pendingIndex == -1
  }

  /** The state after a key, before the UI controller takes the control request. */
  ghost predicate KeyedOk(u: Ui) {
    && |u.pages| >= 2 && CtlOk(u) && HooksOk(u)
    && ServicesSpec.Inv(u.v, u.count)
    && (u.v.dialog ==> u.c.mode.Enter? && Current(u).isServices)
  }

  /** The short K2 that confirms Yes. */
  predicate Confirms(u: Ui, key: Key, long: bool, nowMs: nat) {
    && key.K2? && !long && u.c.screenOn && AnimComplete(u.c, nowMs) && u.c.mode.Enter?
    && Current(u).Page? && Current(u).isServices && u.count > 0 && u.v.dialog && u.v.yes
  }

  lemma InitOk(pages: seq<Page>, count: nat)
    requires |pages| >= 2 && count <= MAX_SERVICES
    ensures var u := InitUi(pages, count);
      && UiOk(u) && u.c.screenOn && u.c.currentPage == 1 && u.c.anim.AnimNone? && !u.c.autoOff
      && u.c.idleTimeoutMs == u.c.enterTimeoutMs == 30000
  {
  }

  lemma EnterKeeps(u: Ui, nowMs: nat)
    requires UiOk(u) && u.c.anim.AnimNone? && u.c.screenOn
    ensures UiOk(TryEnterMode(u, nowMs).0)
  {
    var u' := TryEnterMode(u, nowMs).0;
    if u'.hooks != u.hooks {
      assert |u'.hooks| == |u.hooks| + 1;
    }
  }

  lemma ExitKeeps(u: Ui, nowMs: nat)
    requires UiOk(u) && u.c.mode.Enter?
    ensures UiOk(ExitEnterMode(u, nowMs))
  {
    assert |ExitEnterMode(u, nowMs).hooks| == |u.hooks| + 1;
  }

  lemma PageKeyKeeps(u: Ui, key: Key, long: bool, answer: PageAnswer)
    requires UiOk(u)
    ensures KeyedOk(PageKey(u, key, long, answer).0)
    ensures PageKey(u, key, long, answer).0.v.pendingIndex ==
      if u.c.mode.Enter? && Current(u).Page? && Current(u).isServices && u.count > 0
        && u.v.dialog && u.v.yes && key.K2? && !long
      then u.v.selected else -1
    ensures PageKey(u, key, long, answer).0.v.pendingIndex >= 0 ==>
      PageKey(u, key, long, answer).0.v.pendingStart == !u.v.cachedRunning[u.v.selected]
  {
    KeyKeepsInv(u.v, key, long, u.count);
  }

  lemma EnterKeyKeeps(u: Ui, key: Key, long: bool, nowMs: nat, answer: PageAnswer)
    requires UiOk(u) && u.c.mode.Enter? && u.c.anim.AnimNone? && u.c.screenOn
    ensures var u' := EnterKey(u, key, long, nowMs, answer).0;
      && KeyedOk(u') && u'.controls == u.controls && u'.c.currentPage == u.c.currentPage
      && u'.v.pendingIndex == (if Confirms(u, key, long, nowMs) then u.v.selected else -1)
      && (Confirms(u, key, long, nowMs) ==> u'.v.pendingStart == !u.v.cachedRunning[u.v.selected])
  {
    var u1 := u.(c := u.c.(enterStartMs := nowMs));
    assert UiOk(u1);
    if key.K2? && long {
      EnterKeeps(u1, nowMs);
    } else {
      PageKeyKeeps(u1, key, long, answer);
    }
  }

  lemma ViewKeyKeeps(u: Ui, key: Key, long: bool, nowMs: nat, answer: PageAnswer)
    requires UiOk(u) && u.c.mode.View? && u.c.anim.AnimNone? && u.c.screenOn
    ensures var u' := ViewKey(u, key, long, nowMs, answer).0;
      UiOk(u') && u'.controls == u.controls && u'.c.currentPage == u.c.currentPage
  {
    if key.K2? && long {
      EnterKeeps(u, nowMs);
    } else if long {
      PageKeyKeeps(u, key, long, answer);
    }
  }

  lemma KeyKeeps(u: Ui, key: Key, long: bool, nowMs: nat, answer: PageAnswer)
    requires UiOk(u)
    ensures var u' := HandleKey(u, key, long, nowMs, answer).0;
      && KeyedOk(u') && u'.controls == u.controls && u'.c.currentPage == u.c.currentPage
      && u'.v.pendingIndex == (if Confirms(u, key, long, nowMs) then u.v.selected else -1)
      && (Confirms(u, key, long, nowMs) ==> u'.v.pendingStart == !u.v.cachedRunning[u.v.selected])
  {
    var u1 := u.(c := u.c.(lastActivityMs := nowMs));
    if u1.c.screenOn && AnimComplete(u1.c, nowMs) {
      var u2 := u1.(c := u1.c.(anim := AnimNone));
      assert UiOk(u2);
      if u2.c.mode.Enter? {
        EnterKeyKeeps(u2, key, long, nowMs, answer);
      } else {
        ViewKeyKeeps(u2, key, long, nowMs, answer);
      }
    }
  }

  /** An animation that has not yet run its time: 250 ms for a slide or a change of mode, 400 ms for a shake. */
  predicate Animating(c: Ctl, nowMs: nat) {
    match c.anim
    case AnimNone => false
    case TitleShake => Sub64(nowMs, c.animStartMs) < 400
    case _ => Sub64(nowMs, c.animStartMs) < 250
  }

  /** A key on a dark screen only lights it; a key during an animation is not heard. */
  lemma DeafButton(u: Ui, key: Key, long: bool, nowMs: nat, answer: PageAnswer, issued: bool)
    requires UiOk(u) && (!u.c.screenOn || Animating(u.c, nowMs))
    ensures HandleButton(u, key, long, nowMs, answer, issued) ==
      (u.(c := u.c.(lastActivityMs := nowMs, screenOn := true)), !u.c.screenOn)
  {
  }

  /** In view mode K3 goes on to the next page and K1 back to the previous one, round the ends; a short K2 turns the
      screen off; a long K2 enters the page, or shakes its title if it cannot be entered; the rest is the page's. */
  lemma ViewButton(u: Ui, key: Key, long: bool, nowMs: nat, answer: PageAnswer, issued: bool)
    requires UiOk(u) && u.c.screenOn && !Animating(u.c, nowMs) && u.c.mode.View?
    ensures var (u', changed) := HandleButton(u, key, long, nowMs, answer, issued);
      var c, n := u.c.(lastActivityMs := nowMs, anim := AnimNone), |u.pages|;
      if !long then
        changed &&
        match key
        case K3 => u' == u.(c := c.(anim := SlideLeft, animStartMs := nowMs,
                                    fromPage := c.currentPage, toPage := (c.currentPage + 1) % n))
        case K1 => u' == u.(c := c.(anim := SlideRight, animStartMs := nowMs,
                                    fromPage := c.currentPage, toPage := (c.currentPage + n - 1) % n))
        case K2 => u' == u.(c := c.(screenOn := false))
      else
        match u.pages[c.currentPage]
        case NoPage => u' == u.(c := c) && !changed
        case Page(canEnter, isServices) =>
          if key.K2? && canEnter then
            changed && u' == u.(c := c.(mode := Enter, enterStartMs := nowMs, anim := EnterAnim, animStartMs := nowMs),
                                hooks := u.hooks + [Entered(c.currentPage)],
                                v := if isServices then u.v.(selected := 0, scroll := 0) else u.v)
          else if key.K2? then changed && u' == u.(c := c.(anim := TitleShake, animStartMs := nowMs))
          else if isServices then u' == u.(c := c) && !changed
          else u' == u.(c := c.(autoOff := answer.autoOff)) && changed == answer.used
  {
    NeighbourIsCyclic(u.c.currentPage, |u.pages|);
  }

  /** In enter mode every key restarts the time allowed; a long K2 leaves, closing the dialog on Services; any other
      key is the page's. */
  lemma EnterButton(u: Ui, key: Key, long: bool, nowMs: nat, answer: PageAnswer)
    requires UiOk(u) && u.c.screenOn && !Animating(u.c, nowMs) && u.c.mode.Enter?
    ensures var (u', changed) := HandleKey(u, key, long, nowMs, answer);
      var c := u.c.(lastActivityMs := nowMs, enterStartMs := nowMs, anim := AnimNone);
      if key.K2? && long then
        changed && u' == u.(c := c.(mode := View, anim := ExitAnim, animStartMs := nowMs),
                            hooks := u.hooks + [Exited(c.currentPage)],
                            v := if u.pages[c.currentPage].isServices then u.v.(dialog := false) else u.v)
      else if u.pages[c.currentPage].isServices then
        u' == u.(c := c, v := OnKey(u.v, key, long, u.count).0) && changed == OnKey(u.v, key, long, u.count).1
      else u' == u.(c := c.(autoOff := answer.autoOff)) && changed == answer.used
  {
  }

  /** The button that confirms Yes shows the service under way since now, or in error if the call was not taken up. */
  lemma ConfirmButton(u: Ui, nowMs: nat, answer: PageAnswer, issued: bool)
    requires UiOk(u) && Confirms(u, K2, false, nowMs)
    ensures var v, v' := u.v, HandleButton(u, K2, false, nowMs, answer, issued).0.v;
      && !v'.dialog && v'.selected == v.selected && v'.scroll == v.scroll && v'.cachedRunning == v.cachedRunning
      && v'.stateChangeMs == v.stateChangeMs[v.selected := nowMs]
      && v'.uiStates == v.uiStates[v.selected :=
           if !issued then SvcError else if v.cachedRunning[v.selected] then SvcStopping else SvcStarting]
  {
    EnterButton(u, K2, false, nowMs, answer);
    OnKeyMeaning(u.v, K2, false, u.count);
  }

  /** What a tick does, in full: the screen goes dark when the program may turn it off and no key came for the idle
      time in view mode; enter mode ends when no key came for its time; a finished slide arrives. */
  lemma TickMeaning(u: Ui, nowMs: nat)
    requires UiOk(u)
    ensures var (u', changed) := Tick(u, nowMs);
      var active := if u.c.lastActivityMs == 0 then nowMs else u.c.lastActivityMs;
      var dark := u.c.autoOff && u.c.screenOn && u.c.mode.View? && u.c.idleTimeoutMs > 0
                  && Sub64(nowMs, active) >= u.c.idleTimeoutMs;
      var out := u.c.mode.Enter? && u.c.enterTimeoutMs > 0 && Sub64(nowMs, u.c.enterStartMs) >= u.c.enterTimeoutMs;
      var arrived := !out && !u.c.anim.AnimNone? && !Animating(u.c, nowMs);
      && u'.c.lastActivityMs == active && u'.c.screenOn == (u.c.screenOn && !dark)
      && u'.c.mode == (if out then View else u.c.mode)
      && u'.hooks == (if out then u.hooks + [Exited(u.c.currentPage)] else u.hooks)
      && u'.c.anim == (if out then ExitAnim else if arrived then AnimNone else u.c.anim)
      && u'.c.animStartMs == (if out then nowMs else u.c.animStartMs)
      && u'.c.currentPage == (if arrived && (u.c.anim.SlideLeft? || u.c.anim.SlideRight?) then u.c.toPage
                              else u.c.currentPage)
      && u'.v == (if out && u.pages[u.c.currentPage].isServices then u.v.(dialog := false) else u.v)
      && changed == (dark || out || !u.c.anim.AnimNone?)
  {
  }

  /** After every button no request is pending, and a control call was made exactly when the button
      confirmed Yes: for the selected service, in range, against its cached state. */
  lemma ButtonKeeps(u: Ui, key: Key, long: bool, nowMs: nat, answer: PageAnswer, issued: bool)
    requires UiOk(u)
    ensures var u' := HandleButton(u, key, long, nowMs, answer, issued).0;
      && UiOk(u')
      && u'.controls == u.controls +
           (if Confirms(u, key, long, nowMs) then [(u.v.selected, !u.v.cachedRunning[u.v.selected])] else [])
      && (Confirms(u, key, long, nowMs) ==> 0 <= u.v.selected < u.count)
  {
    KeyKeeps(u, key, long, nowMs, answer);
  }

  /** A tick moves to another page exactly when it completes a slide, and then to the cyclic neighbour in the
      slide's direction. */
  lemma TickKeeps(u: Ui, nowMs: nat)
    requires UiOk(u)
    ensures var u' := Tick(u, nowMs).0;
      && UiOk(u') && u'.controls == u.controls
      && u'.c.currentPage == (if IsSlide(u.c.anim) && AnimComplete(u.c, nowMs)
                              then Neighbour(u.c.currentPage, u.c.anim.SlideLeft?, |u.pages|) else u.c.currentPage)
  {
    var u1 := u.(c := TickFirst(u.c, nowMs));
    var u2 := if IdleExpired(u1.c, nowMs) then u1.(c := u1.c.(screenOn := false)) else u1;
    assert UiOk(u2);
    if EnterExpired(u2.c, nowMs) {
      ExitKeeps(u2, nowMs);
    }
  }

  lemma RenderKeeps(u: Ui, running: seq<bool>, valid: seq<bool>)
    requires UiOk(u) && |running| == |valid| == u.count
    ensures UiOk(u.(v := Render(u.v, running, valid)))
  {
  }

  datatype Step =
    | Button(key: Key, long: bool, nowMs: nat, answer: PageAnswer, issued: bool)
    | TickStep(nowMs: nat)
    | RenderStep(running: seq<bool>, valid: seq<bool>)
    | ControlResult(index: int, success: bool)
    | SetIdleTimeout(ms: nat)

  /** A render reports on every configured service. */
  predicate StepOk(count: nat, step: Step) {
    step.RenderStep? ==> |step.running| == |step.valid| == count
  }

  function Apply(u: Ui, step: Step): Ui
    requires SelectionOk(u)
      && (step.RenderStep? ==> |step.running| == |step.valid| <= |u.v.cachedRunning| == |u.v.uiStates|)
  {
    match step
    case Button(key, long, now, answer, issued) => HandleButton(u, key, long, now, answer, issued).0
    case TickStep(now) => Tick(u, now).0
    case RenderStep(running, valid) => u.(v := Render(u.v, running, valid))
    case ControlResult(index, success) => u.(v := Notify(u.v, index, success))
    case SetIdleTimeout(ms) => u.(c := u.c.(idleTimeoutMs := ms))
  }

  lemma SamePages(u: Ui, step: Step)
    requires UiOk(u) && StepOk(u.count, step)
    ensures Apply(u, step).count == u.count && Apply(u, step).pages == u.pages
  {
  }

  lemma StepKeeps(u: Ui, step: Step)
    requires UiOk(u) && StepOk(u.count, step)
    ensures UiOk(Apply(u, step))
  {
    match step
    case Button(key, long, now, answer, issued) => ButtonKeeps(u, key, long, now, answer, issued);
    case TickStep(now) => TickKeeps(u, now);
    case RenderStep(running, valid) => RenderKeeps(u, running, valid);
    case _ =>
  }

  ghost function Run(u: Ui, steps: seq<Step>): (u': Ui)
    requires UiOk(u) && forall i :: 0 <= i < |steps| ==> StepOk(u.count, steps[i])
    ensures UiOk(u') && u'.pages == u.pages && u'.count == u.count
    decreases |steps|
  {
    if steps == [] then u else
      StepKeeps(u, steps[0]);
      SamePages(u, steps[0]);
      Run(Apply(u, steps[0]), steps[1..])
  }

  /** In every run from the start, spelled out: the page is in range; a dark screen means view mode; enter
      mode means an enterable page and no slide; a slide goes from the current page to its neighbour; hooks
      alternate; the dialog is open only in enter mode on Services; no control request is left pending; the
      selection is visible. */
  lemma EveryRun(pages: seq<Page>, count: nat, steps: seq<Step>) returns (u: Ui)
    requires |pages| >= 2 && count <= MAX_SERVICES && forall i :: 0 <= i < |steps| ==> StepOk(count, steps[i])
    ensures UiOk(InitUi(pages, count)) && u == Run(InitUi(pages, count), steps)
    ensures 0 <= u.c.currentPage < |pages|
    ensures !u.c.screenOn ==> u.c.mode.View?
    ensures u.c.mode.Enter? ==> pages[u.c.currentPage].Page? && pages[u.c.currentPage].canEnter && !IsSlide(u.c.anim)
    ensures IsSlide(u.c.anim) ==> u.c.fromPage == u.c.currentPage
    ensures IsSlide(u.c.anim) ==>
      u.c.toPage == (u.c.currentPage + if u.c.anim.SlideLeft? then 1 else |pages| - 1) % |pages|
    ensures forall i :: 0 <= i < |u.hooks| ==>
      if i % 2 == 0 then u.hooks[i].Entered? else u.hooks[i] == Exited(u.hooks[i - 1].page)
    ensures u.v.dialog ==> u.c.mode.Enter? && pages[u.c.currentPage].Page? && pages[u.c.currentPage].isServices
    ensures u.v.pendingIndex == -1 && Visible(u.v, count)
  {
    InitOk(pages, count);
    u := Run(InitUi(pages, count), steps);
    NeighbourIsCyclic(u.c.currentPage, |pages|);
  }
}

/** page_controller.c, field by field. */
module PageController {
  import opened Words
  import opened ServicesSpec
  import opened PageSpec
  import ServicesPage

  class PageController {
    const pages: seq<Page>
    const services: ServicesPage.ServicesPage
    var screenOn: bool
    var lastActivityMs: nat
    var currentPage: int
    var mode: Mode
    var anim: Anim
    var animStartMs: nat
    var fromPage: int
    var toPage: int
    var enterStartMs: nat
    var idleTimeoutMs: nat
    var enterTimeoutMs: nat
    var autoOff: bool
    ghost var hooks: seq<Hook>
    ghost var controls: seq<(int, bool)>  // the control calls made so far

    ghost function AbsCtl(): Ctl
      reads this
    {
      Ctl(screenOn, lastActivityMs, currentPage, mode, anim, animStartMs, fromPage, toPage,
          enterStartMs, idleTimeoutMs, enterTimeoutMs, autoOff)
    }

    ghost function Abs(): Ui
      reads this, services, services.uiStates, services.stateChangeMs, services.cachedRunning
    {
      Ui(pages, services.count, AbsCtl(), services.Abs(), hooks, controls)
    }

    ghost predicate Valid()
      reads this, services, services.uiStates, services.stateChangeMs, services.cachedRunning
    {
      services.Valid()
    }

    constructor (pages: seq<Page>, services: ServicesPage.ServicesPage)
      requires services.Valid() && services.Abs() == Fresh()
      ensures Valid() && this.services == services && this.pages == pages
      ensures Abs() == InitUi(pages, services.count)
    {
      this.pages, this.services := pages, services;
      screenOn, currentPage, mode, anim := true, 1, View, AnimNone;
      lastActivityMs, animStartMs, fromPage, toPage, enterStartMs := 0, 0, 0, 0, 0;
      idleTimeoutMs, enterTimeoutMs, autoOff, hooks, controls := 30000, 30000, false, [], [];
    }

    method StartAnimation(a: Anim, nowMs: nat)
      modifies this`anim, this`animStartMs
      ensures AbsCtl() == Start(old(AbsCtl()), a, nowMs)
    {
      anim := a;
      animStartMs := nowMs;
    }

    method SwitchPage(right: bool, nowMs: nat)
      modifies this`anim, this`animStartMs, this`fromPage, this`toPage
      ensures Abs() == PageSpec.SwitchPage(old(Abs()), right, nowMs)
    {
      if |pages| <= 1 {
        return;
      }
      if anim != AnimNone {
        return;
      }
      var newPage := if right then currentPage + 1 else currentPage - 1;
      if newPage < 0 {
        newPage := |pages| - 1;
      }
      if newPage >= |pages| {
        newPage := 0;
      }
      fromPage := currentPage;
      toPage := newPage;
      if right {
        StartAnimation(SlideLeft, nowMs);
      } else {
        StartAnimation(SlideRight, nowMs);
      }
    }

    method CurrentPage() returns (page: Page)
      ensures page == Current(Abs())
    {
      if currentPage < 0 || currentPage >= |pages| {
        return NoPage;
      }
      return pages[currentPage];
    }

    method ExitEnterMode(nowMs: nat)
      requires Valid()
      modifies this`mode, this`anim, this`animStartMs, this`hooks, services
      ensures Valid() && Abs() == PageSpec.ExitEnterMode(old(Abs()), nowMs)
    {
      mode := View;
      StartAnimation(ExitAnim, nowMs);
      var page := CurrentPage();
      if page.Page? {
        hooks := hooks + [Exited(currentPage)];
        if page.isServices {
          services.OnExit();
        }
      }
    }

    method TryEnterMode(nowMs: nat) returns (changed: bool)
      requires Valid()
      modifies this, services
      ensures Valid() && (Abs(), changed) == PageSpec.TryEnterMode(old(Abs()), nowMs)
    {
      if mode == Enter {
        ExitEnterMode(nowMs);
        return true;
      }
      var page := CurrentPage();
      if page.NoPage? {
        return false;
      }
      if !page.canEnter {
        StartAnimation(TitleShake, nowMs);
        return true;
      }
      mode := Enter;
      enterStartMs := nowMs;
      StartAnimation(EnterAnim, nowMs);
      hooks := hooks + [Entered(currentPage)];
      if page.isServices {
        services.OnEnter();
      }
      return true;
    }

    method PageKey(key: Key, long: bool, answer: PageAnswer) returns (used: bool)
      requires Valid()
      modifies this`autoOff, services, services.uiStates
      ensures Valid() && (Abs(), used) == PageSpec.PageKey(old(Abs()), key, long, answer)
    {
      var page := CurrentPage();
      if page.NoPage? {
        return false;
      }
      if page.isServices {
        used := services.OnKey(key, long, mode == Enter);
        return;
      }
      autoOff := answer.autoOff;
      return answer.used;
    }

    method HandleKey(key: Key, long: bool, nowMs: nat, answer: PageAnswer) returns (changed: bool)
      requires Valid()
      modifies this, services, services.uiStates
      ensures Valid() && (Abs(), changed) == PageSpec.HandleKey(old(Abs()), key, long, nowMs, answer)
    {
      lastActivityMs := nowMs;
      if !screenOn {
        screenOn := true;
        return true;
      }
      changed := LitKey(key, long, nowMs, answer);
    }

    method LitKey(key: Key, long: bool, nowMs: nat, answer: PageAnswer) returns (changed: bool)
      requires Valid()
      modifies this, services, services.uiStates
      ensures Valid() && (Abs(), changed) == PageSpec.LitKey(old(Abs()), key, long, nowMs, answer)
    {
      if anim != AnimNone && Sub64(nowMs, animStartMs) < Duration(anim) {
        return false;
      }
      anim := AnimNone;
      changed := ModeKey(key, long, nowMs, answer);
    }

    method ModeKey(key: Key, long: bool, nowMs: nat, answer: PageAnswer) returns (changed: bool)
      requires Valid()
      modifies this, services, services.uiStates
      ensures Valid() && (Abs(), changed) == PageSpec.ModeKey(old(Abs()), key, long, nowMs, answer)
    {
      if mode == Enter {
        changed := EnterKey(key, long, nowMs, answer);
      } else {
        changed := ViewKey(key, long, nowMs, answer);
      }
    }

    method EnterKey(key: Key, long: bool, nowMs: nat, answer: PageAnswer) returns (changed: bool)
      requires Valid()
      modifies this, services, services.uiStates
      ensures Valid() && (Abs(), changed) == PageSpec.EnterKey(old(Abs()), key, long, nowMs, answer)
    {
      enterStartMs := nowMs;
      if key == K2 && long {
        changed := TryEnterMode(nowMs);
        return;
      }
      changed := PageKey(key, long, answer);
    }

    method ViewKey(key: Key, long: bool, nowMs: nat, answer: PageAnswer) returns (changed: bool)
      requires Valid()
      modifies this, services, services.uiStates
      ensures Valid() && (Abs(), changed) == PageSpec.ViewKey(old(Abs()), key, long, nowMs, answer)
    {
      match key {
        case K1 =>
          if !long {
            SwitchPage(false, nowMs);
            return true;
          }
        case K3 =>
          if !long {
            SwitchPage(true, nowMs);
            return true;
          }
        case K2 =>
          if long {
            changed := TryEnterMode(nowMs);
            return;
          }
          screenOn := false;
          return true;
      }
      changed := PageKey(key, long, answer);
    }

    method Timeouts(nowMs: nat) returns (expired: bool)
      requires Valid()
      modifies this, services
      ensures Valid() && (Abs(), expired) == PageSpec.Timeouts(old(Abs()), nowMs)
    {
      expired := false;
      if lastActivityMs == 0 {
        lastActivityMs := nowMs;
      }
      if autoOff && screenOn && mode != Enter && idleTimeoutMs > 0 {
        if Sub64(nowMs, lastActivityMs) >= idleTimeoutMs {
          screenOn := false;
          expired := true;
        }
      }
      if mode == Enter && enterTimeoutMs > 0 {
        if Sub64(nowMs, enterStartMs) >= enterTimeoutMs {
          ExitEnterMode(nowMs);
          expired := true;
        }
      }
    }

    method Tick(nowMs: nat) returns (needsRender: bool)
      requires Valid()
      modifies this, services
      ensures Valid() && (Abs(), needsRender) == PageSpec.Tick(old(Abs()), nowMs)
    {
      needsRender := Timeouts(nowMs);
      if anim != AnimNone {
        if Sub64(nowMs, animStartMs) >= Duration(anim) {
          if anim == SlideLeft || anim == SlideRight {
            currentPage := toPage;
          }
          anim := AnimNone;
        }
        needsRender := true;
      }
    }
  }
}

/** ui_controller.c: the buttons and the control request they may leave. */
module UiController {
  import opened ServicesSpec
  import opened PageSpec
  import PageController

  const TICK_ANIM_MS: int := 20
  const TICK_STATIC_MS: int := 1000
  const TICK_IDLE_MS: int := 0

  /** ui_controller_next_timeout_ms */
  function NextTimeout(u: Ui): int {
    if !u.c.screenOn then TICK_IDLE_MS else if !u.c.anim.AnimNone? then TICK_ANIM_MS else TICK_STATIC_MS
  }

  /** No tick is scheduled only when the screen is dark, and then no mode and no dialog waits for one. */
  lemma IdleOnlyWhenNothingWaits(u: Ui)
    requires UiOk(u)
    ensures NextTimeout(u) == 0 <==> !u.c.screenOn
    ensures NextTimeout(u) == 20 <==> u.c.screenOn && !u.c.anim.AnimNone?
    ensures NextTimeout(u) == 1000 <==> u.c.screenOn && u.c.anim.AnimNone?
    ensures NextTimeout(u) == 0 ==> u.c.mode.View? && !u.v.dialog && |u.hooks| % 2 == 0
  {
  }

  class UiController {
    const pageCtrl: PageController.PageController
    var powerOn: bool
    var needsRender: bool

    ghost predicate Valid()
      reads this, pageCtrl, pageCtrl.services, pageCtrl.services.uiStates,
            pageCtrl.services.stateChangeMs, pageCtrl.services.cachedRunning
    {
      UiOk(pageCtrl.Abs()) && powerOn == pageCtrl.screenOn
    }

    constructor (pageCtrl: PageController.PageController)
      requires pageCtrl.Valid() && pageCtrl.Abs() == InitUi(pageCtrl.pages, pageCtrl.services.count)
        && |pageCtrl.pages| >= 2
      ensures Valid() && this.pageCtrl == pageCtrl && powerOn && needsRender
    {
      InitOk(pageCtrl.pages, pageCtrl.services.count);
      this.pageCtrl := pageCtrl;
      powerOn, needsRender := true, true;
    }

    /** Takes the control request and issues it; issued is what sys_status_control_service answers. */
    method TakeControl(nowMs: nat, issued: bool)
      requires pageCtrl.Valid()
      modifies pageCtrl`controls, pageCtrl.services, pageCtrl.services.uiStates, pageCtrl.services.stateChangeMs
      ensures pageCtrl.Valid() && pageCtrl.Abs() == IssueControl(old(pageCtrl.Abs()), nowMs, issued)
    {
      var taken, index, start := pageCtrl.services.TakeControlRequest(nowMs);
      if taken {
        pageCtrl.controls := pageCtrl.controls + [(index, start)];
        if !issued {
          pageCtrl.services.NotifyControlResult(index, false);
        }
      }
    }

    method HandleButton(key: Key, long: bool, nowMs: nat, answer: PageAnswer, issued: bool) returns (changed: bool)
      requires Valid()
      modifies this, pageCtrl, pageCtrl.services, pageCtrl.services.uiStates, pageCtrl.services.stateChangeMs
      ensures Valid()
      ensures (pageCtrl.Abs(), changed) == PageSpec.HandleButton(old(pageCtrl.Abs()), key, long, nowMs, answer, issued)
      ensures needsRender == (old(needsRender) || changed)
    {
      ButtonKeeps(pageCtrl.Abs(), key, long, nowMs, answer, issued);
      changed := pageCtrl.HandleKey(key, long, nowMs, answer);
      powerOn := pageCtrl.screenOn;
      TakeControl(nowMs, issued);
      if changed {
        needsRender := true;
      }
    }

    method Tick(nowMs: nat) returns (changed: bool)
      requires Valid()
      modifies this, pageCtrl, pageCtrl.services
      ensures Valid() && pageCtrl.Abs() == PageSpec.Tick(old(pageCtrl.Abs()), nowMs).0
      ensures changed == (PageSpec.Tick(old(pageCtrl.Abs()), nowMs).1 || (powerOn && pageCtrl.anim == AnimNone))
      ensures needsRender == (old(needsRender) || changed)
    {
      TickKeeps(pageCtrl.Abs(), nowMs);
      changed := pageCtrl.Tick(nowMs);
      powerOn := pageCtrl.screenOn;
      if powerOn && pageCtrl.anim == AnimNone {
        changed := true;
      }
      if changed {
        needsRender := true;
      }
    }
  }
}
