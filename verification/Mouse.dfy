/** `handle_mouse` of src/client/mouse.rs: what a mouse event does to the workspace, given the rectangles that the
    last draw recorded. */
module Mouse {
  import opened Basics
  import opened Keys
  import opened Workspace
  import opened WorkspaceRuns
  import opened WorkspaceLaws
  import ContentEsc
  import Bar = Topbar
  import Jump
  import Utf8

  datatype Button = LeftButton | MiddleButton | RightButton
  datatype MouseKind = ButtonDown(button: Button) | ButtonUp | Drag(button: Button) | Moved
                     | WheelUp | WheelDown | WheelLeft | WheelRight
  datatype MouseEvent = MouseEvent(kind: MouseKind, col: nat, row: nat)

  /** Where and when the last left press was. */
  datatype Press = Press(col: nat, row: nat, at: nat)

  const DOUBLE_CLICK := 400_000_000

  function Sub(a: nat, b: nat): nat { if a < b then 0 else a - b }

  /** The report that a program with mouse tracking gets: the button, the cell, and whether it was released. */
  function ReportBytes(button: nat, area: Bar.Rect, e: MouseEvent): seq<byte> {
    var tx, ty := Sub(e.col, area.x + 1) + 1, Sub(e.row, area.y + 1) + 1;
    Sgr(Decimal(button), Decimal(tx), Decimal(ty), e.kind.ButtonUp?)
  }

  function Sgr(button: string, tx: string, ty: string, isUp: bool): seq<byte> {
    Utf8.Encode("\U{1b}[<" + button + ";" + tx + ";" + ty + if isUp then "m" else "M")
  }

  function ButtonCode(kind: MouseKind): Option<nat> {
    match kind
    case ButtonDown(LeftButton) => Some(0)
    case ButtonDown(MiddleButton) => Some(1)
    case ButtonDown(RightButton) => Some(2)
    case ButtonUp => Some(3)
    case Drag(LeftButton) => Some(32)
    case Moved => Some(35)
    case WheelUp => Some(64)
    case WheelDown => Some(65)
    case _ => None
  }

  function Track(s: State, report: seq<byte>): State
    requires Core(s.tree)
  {
    Log(s, Tracked(ActiveTab(s.tree).id, report))
  }

  /** Inside the content area: reported to a program that tracks the mouse, else the wheel scrolls back. */
  function InContent(s: State, area: Bar.Rect, e: MouseEvent, tracking: bool): State
    requires Core(s.tree)
  {
    var f := s.(focus := Jump.Content);
    if tracking then
      if ButtonCode(e.kind).Some? then Track(f, ReportBytes(ButtonCode(e.kind).value, area, e)) else f
    else if e.kind.WheelUp? then Scroll(f, 3)
    else if e.kind.WheelDown? then Scroll(f, -3)
    else f
  }

  function Aim(s: State, l: Bar.Layout, col: nat, row: nat, isDouble: bool): Bar.Click
    requires Core(s.tree)
  {
    Bar.LeftPress(l, col, row, isDouble, |CurOffice(s.tree).desks|, CurDesk(s.tree).activeTab)
  }

  /** The hit areas are those of the tabs that exist. */
  ghost predicate Shown(s: State, l: Bar.Layout)
    requires Core(s.tree)
  {
    l.tabIndices == s.hits.tabIndices && |l.tabAreas| == |l.tabIndices| && FreshHits(s)
  }

  lemma AimsAtTabs(s: State, l: Bar.Layout, col: nat, row: nat, isDouble: bool)
    requires Core(s.tree) && Shown(s, l) && Aim(s, l, col, row, isDouble).ActivateTab?
    ensures Aim(s, l, col, row, isDouble).tab < |CurDesk(s.tree).tabs|
  {
    Bar.HitIsInside(l.tabAreas, col, row);
    assert l.tabIndices[Bar.TabHit(l.tabAreas, col, row).value] in s.hits.tabIndices;
  }

  /** A press on the selector's button. */
  function ClickSelector(s: State): State {
    s.(modes := s.modes.(selectorActive := true), selectorIndex := Some(s.tree.currentOffice))
  }

  function LeftDown(s: State, click: Bar.Click, isDouble: bool, env: Env): (r: State)
    requires Core(s.tree) && (click.ActivateTab? ==> click.tab < |CurDesk(s.tree).tabs|)
    ensures Core(r.tree)
  {
    var onBar := s.(focus := Jump.Topbar);
    match click
    case ToContent => s.(focus := Jump.Content)
    case OpenSelector => ClickSelector(s)
    case SelectDesk(d) =>
      if isDouble then Show(s.(focus := Jump.Content), SelectDesk(s.tree, d))
      else s.(tree := SelectDesk(s.tree, d), focus := Jump.Sidebar)
    case NewTab => Show(onBar, WithDesk(s.tree, NewTab(CurDesk(s.tree), env.freshId)))
    case ActivateTab(t) => Show(onBar, ActivateTab(s.tree, t))
    case RenameTab => onBar.(modes := s.modes.(rename := BeginRenameTab(s.tree)))
    case FocusTopbar => onBar
    case FocusSidebar => s.(focus := Jump.Sidebar)
    case Nowhere => s
  }

  function Wheel(s: State, l: Bar.Layout, e: MouseEvent): (r: State)
    requires Core(s.tree)
    ensures Core(r.tree)
  {
    var onSidebar := Bar.InRect(e.col, e.row, l.sidebar);
    var onBar := Bar.InRect(e.col, e.row, l.topbar);
    var back := s.(tabScroll := Sub(s.tabScroll, 1));
    var on := s.(tabScroll := if s.tabScroll < |CurDesk(s.tree).tabs| - 1 then s.tabScroll + 1 else s.tabScroll);
    match e.kind
    case WheelUp => if onSidebar then Nav(s, -1) else if onBar then back else s
    case WheelDown => if onSidebar then Nav(s, 1) else if onBar then on else s
    case WheelLeft => if onBar then back else s
    case WheelRight => if onBar then on else s
    case _ => s
  }

  /** Over the sidebar's rows the wheel walks the desks; elsewhere only the bar's scroll position may change. */
  lemma WheelWalksOrScrolls(s: State, l: Bar.Layout, e: MouseEvent)
    requires Core(s.tree)
    ensures var r := Wheel(s, l, e);
            if Bar.InRect(e.col, e.row, l.sidebar) && (e.kind.WheelUp? || e.kind.WheelDown?)
            then r == Nav(s, if e.kind.WheelUp? then -1 else 1)
            else r == s.(tabScroll := r.tabScroll)
  {
    hide Core, Nav, Bar.InRect, CurDesk;
  }

  function IsDouble(last: Option<Press>, e: MouseEvent, now: nat): bool {
    last.Some? && last.value.col == e.col && last.value.row == e.row && Elapsed(last.value.at, now) < DOUBLE_CLICK
  }

  /** What a left press outside the content area aims at. */
  function Pressed(s: State, l: Bar.Layout, last: Option<Press>, e: MouseEvent, env: Env): Option<Bar.Click>
    requires Core(s.tree)
  {
    if e.kind == ButtonDown(LeftButton) && !Bar.InRect(e.col, e.row, l.content) then
      Some(Aim(s, l, e.col, e.row, IsDouble(last, e, env.now)))
    else None
  }

  /** The press hits the area of a tab that is gone. */
  predicate StaleClick(s: State, l: Bar.Layout, last: Option<Press>, e: MouseEvent, env: Env)
    requires Core(s.tree)
  {
    var click := Pressed(s, l, last, e, env);
    click.Some? && click.value.ActivateTab? && click.value.tab >= |CurDesk(s.tree).tabs|
  }

  lemma ShownIsNotStale(s: State, l: Bar.Layout, last: Option<Press>, e: MouseEvent, env: Env)
    requires Core(s.tree) && Shown(s, l)
    ensures !StaleClick(s, l, last, e, env)
  {
    hide Core, Aim, Shown, IsDouble;
    if StaleClick(s, l, last, e, env) { AimsAtTabs(s, l, e.col, e.row, IsDouble(last, e, env.now)); }
  }

  function OnMouse(s: State, l: Bar.Layout, last: Option<Press>, e: MouseEvent, tracking: bool, env: Env): (r: State)
    requires Core(s.tree) && !StaleClick(s, l, last, e, env)
    ensures Core(r.tree)
  {
    if Bar.InRect(e.col, e.row, l.content) then InContent(s, l.content, e, tracking)
    else if e.kind == ButtonDown(LeftButton) then
      LeftDown(s, Pressed(s, l, last, e, env).value, IsDouble(last, e, env.now), env)
    else Wheel(s, l, e)
  }

  /** A single click in the i-th hit area makes the i-th tab shown the active one, and focuses the bar. */
  lemma ClickActivatesTab(s: State, l: Bar.Layout, drawn: seq<nat>, scroll: nat, i: nat, e: MouseEvent,
                          last: Option<Press>, tracking: bool, env: Env)
    requires Core(s.tree) && Shown(s, l) && Bar.PanelsApart(l)
    requires Bar.LaidOut(l.topbar, drawn, scroll, l.tabAreas, l.tabIndices, l.newTab)
    requires i < |l.tabAreas| && Bar.InRect(e.col, e.row, l.tabAreas[i])
    requires e.kind == ButtonDown(LeftButton) && !IsDouble(last, e, env.now)
    ensures !StaleClick(s, l, last, e, env)
    ensures var r := OnMouse(s, l, last, e, tracking, env);
            && CurDesk(r.tree).activeTab == scroll + i && Selected(r.tree) == Selected(s.tree)
            && r.focus.Topbar? && CurDesk(r.tree).tabs == CurDesk(s.tree).tabs && Live(r)
  {
    ShownIsNotStale(s, l, last, e, env);
    Bar.ClickReachesTab(l, drawn, scroll, i, e.col, e.row, |CurOffice(s.tree).desks|, CurDesk(s.tree).activeTab);
    AimsAtTabs(s, l, e.col, e.row, false);
    hide Bar.LaidOut, Bar.InRect, Bar.PanelsApart, Shown, GoodOffices, LastLife, IsDouble;
    ShowIsLive(s.(focus := Jump.Topbar), ActivateTab(s.tree, scroll + i));
  }

  // ---- the mouse is not held back by the modes ----

  /** The clicks that open a mode leave only that one open. */
  predicate OpensAlone(m: Modes, click: Bar.Click) {
    && (click.OpenSelector? ==> m == NO_MODE || m.selectorActive)
    && (click.RenameTab? ==> m == NO_MODE || m.rename.Some?)
  }

  lemma ClickKeepsExclusiveIff(s: State, click: Bar.Click, isDouble: bool, env: Env)
    requires Core(s.tree) && OpenModes(s.modes) <= 1
    requires click.ActivateTab? ==> click.tab < |CurDesk(s.tree).tabs|
    ensures OpenModes(LeftDown(s, click, isDouble, env).modes) <= 1 <==> OpensAlone(s.modes, click)
  {
    TheOnlyMode(s.modes);
    hide Core;
  }

  /** A mouse event keeps the modes exclusive except for a press that opens the selector over another mode, or a
      double click on the active tab that opens the rename dialog over another mode. */
  lemma MouseKeepsExclusiveIff(s: State, l: Bar.Layout, last: Option<Press>, e: MouseEvent, tracking: bool, env: Env)
    requires Core(s.tree) && !StaleClick(s, l, last, e, env) && OpenModes(s.modes) <= 1
    ensures var click := Pressed(s, l, last, e, env);
            OpenModes(OnMouse(s, l, last, e, tracking, env).modes) <= 1
            <==> (click.Some? ==> OpensAlone(s.modes, click.value))
  {
    hide Core, LeftDown, Bar.InRect, Aim, OpensAlone, OpenModes;
    var click := Pressed(s, l, last, e, env);
    if click.Some? { ClickKeepsExclusiveIff(s, click.value, IsDouble(last, e, env.now), env); }
  }

  // ---- where the mouse leads ----

  function DeskTab(d: Desk): string
    requires GoodDesk(d)
  {
    d.tabs[d.activeTab].id
  }

  function TabAfterClick(t: Tree, click: Bar.Click, env: Env): string
    requires Core(t) && (click.ActivateTab? ==> click.tab < |CurDesk(t).tabs|)
  {
    var desks, d := CurOffice(t).desks, CurDesk(t);
    match click
    case SelectDesk(i) => DeskTab(desks[Min(i, |desks| - 1)])
    case NewTab => env.freshId
    case ActivateTab(k) => d.tabs[k].id
    case _ => DeskTab(d)
  }

  function TabAfterWheel(t: Tree, l: Bar.Layout, e: MouseEvent): string
    requires Core(t)
  {
    var desks := CurOffice(t).desks;
    if Bar.InRect(e.col, e.row, l.sidebar) && (e.kind.WheelUp? || e.kind.WheelDown?) then
      DeskTab(desks[Clamp(Selected(t) + if e.kind.WheelUp? then -1 else 1, |desks| - 1)])
    else DeskTab(CurDesk(t))
  }

  /** The tab that will be active, worked out before the event. */
  function TabAfter(s: State, l: Bar.Layout, last: Option<Press>, e: MouseEvent, env: Env): string
    requires Core(s.tree) && !StaleClick(s, l, last, e, env)
  {
    if Bar.InRect(e.col, e.row, l.content) then DeskTab(CurDesk(s.tree))
    else if Pressed(s, l, last, e, env).Some? then TabAfterClick(s.tree, Pressed(s, l, last, e, env).value, env)
    else TabAfterWheel(s.tree, l, e)
  }

  lemma SelectedTab(t: Tree, i: nat)
    requires Core(t)
    ensures ActiveTab(SelectDesk(t, i)).id == DeskTab(CurOffice(t).desks[Min(i, |CurOffice(t).desks| - 1)])
    ensures ActiveTab(t).id == DeskTab(CurDesk(t)) == DeskTab(CurOffice(t).desks[Selected(t)])
  {
    hide GoodOffices;
  }

  lemma NavTab(s: State, delta: int)
    requires Core(s.tree)
    ensures var desks := CurOffice(s.tree).desks;
            && Core(Nav(s, delta).tree)
            && ActiveTab(Nav(s, delta).tree).id == DeskTab(desks[Clamp(Selected(s.tree) + delta, |desks| - 1)])
  {
    SelectedTab(s.tree, Clamp(Selected(s.tree) + delta, |CurOffice(s.tree).desks| - 1));
    hide GoodOffices, SelectDesk, ActiveTab, DeskTab;
  }

  lemma ClickLeadsTo(s: State, click: Bar.Click, isDouble: bool, env: Env)
    requires Core(s.tree) && (click.ActivateTab? ==> click.tab < |CurDesk(s.tree).tabs|)
    ensures ActiveTab(LeftDown(s, click, isDouble, env).tree).id == TabAfterClick(s.tree, click, env)
  {
    SelectedTab(s.tree, if click.SelectDesk? then click.desk else 0);
    hide GoodOffices, SelectDesk, WithDesk;
  }

  lemma WheelLeadsTo(s: State, l: Bar.Layout, e: MouseEvent)
    requires Core(s.tree)
    ensures ActiveTab(Wheel(s, l, e).tree).id == TabAfterWheel(s.tree, l, e)
  {
    WheelWalksOrScrolls(s, l, e);
    NavTab(s, if e.kind.WheelUp? then -1 else 1);
    SelectedTab(s.tree, 0);
    hide GoodOffices, Nav, SelectDesk, ActiveTab, DeskTab, CurDesk, Bar.InRect, Wheel;
  }

  lemma TabAfterIsActive(s: State, l: Bar.Layout, last: Option<Press>, e: MouseEvent, tracking: bool, env: Env)
    requires Core(s.tree) && !StaleClick(s, l, last, e, env)
    ensures ActiveTab(OnMouse(s, l, last, e, tracking, env).tree).id == TabAfter(s, l, last, e, env)
  {
    SelectedTab(s.tree, 0);
    WheelLeadsTo(s, l, e);
    if Pressed(s, l, last, e, env).Some? {
      ClickLeadsTo(s, Pressed(s, l, last, e, env).value, IsDouble(last, e, env.now), env);
    }
    hide GoodOffices, LeftDown, Wheel, Bar.InRect, Aim, IsDouble, TabAfterClick, TabAfterWheel, ActiveTab, CurDesk;
  }

  lemma NavIsQuiet(s: State, delta: int)
    requires Core(s.tree)
    ensures ContentEsc.Quiet(Nav(s, delta), s)
  {
    var t := SelectDesk(s.tree, Clamp(Selected(s.tree) + delta, |CurOffice(s.tree).desks| - 1));
    ContentEsc.ShowIsQuiet(s, t);
    hide Core, SelectDesk, Clamp, ContentEsc.Deliveries, ActiveTab;
  }

  lemma ClickIsQuiet(s: State, click: Bar.Click, isDouble: bool, env: Env)
    requires Core(s.tree) && (click.ActivateTab? ==> click.tab < |CurDesk(s.tree).tabs|)
    ensures ContentEsc.Quiet(LeftDown(s, click, isDouble, env), s)
  {
    var r := LeftDown(s, click, isDouble, env);
    ContentEsc.ShowIsQuiet(s, r.tree);
    hide GoodOffices, SelectDesk, WithDesk, NewTab, ContentEsc.Deliveries;
  }

  lemma WheelIsQuiet(s: State, l: Bar.Layout, e: MouseEvent)
    requires Core(s.tree)
    ensures ContentEsc.Quiet(Wheel(s, l, e), s)
  {
    WheelWalksOrScrolls(s, l, e);
    NavIsQuiet(s, if e.kind.WheelUp? then -1 else 1);
    hide Core, Nav, ContentEsc.Deliveries, Bar.InRect, Wheel;
  }

  lemma ContentIsQuiet(s: State, area: Bar.Rect, e: MouseEvent, tracking: bool)
    requires Core(s.tree)
    ensures ContentEsc.Quiet(InContent(s, area, e, tracking), s)
  {
    hide Core, ReportBytes, ButtonCode, ActiveTab, ContentEsc.Deliveries;
    var r := InContent(s, area, e, tracking);
    if r.log != s.log { ContentEsc.DeliveredAfter(s.log, r.log[|s.log|]); }
  }

  /** No mouse event sends key bytes or touches the Esc held back. */
  lemma MouseIsQuiet(s: State, l: Bar.Layout, last: Option<Press>, e: MouseEvent, tracking: bool, env: Env)
    requires Core(s.tree) && !StaleClick(s, l, last, e, env)
    ensures ContentEsc.Quiet(OnMouse(s, l, last, e, tracking, env), s)
  {
    ContentIsQuiet(s, l.content, e, tracking);
    WheelIsQuiet(s, l, e);
    if Pressed(s, l, last, e, env).Some? {
      ClickIsQuiet(s, Pressed(s, l, last, e, env).value, IsDouble(last, e, env.now), env);
    }
    hide Core, InContent, LeftDown, Wheel, Bar.InRect, Aim, IsDouble, ActiveTab, ContentEsc.Deliveries;
  }

  /** An Esc held back when a mouse event comes is sent, once it is due, to the tab that the event leads to: it
      reaches the tab it was typed in exactly when the event leads there. */
  lemma MouseRedirectsEscIff(s: State, l: Bar.Layout, last: Option<Press>, e: MouseEvent, tracking: bool, env: Env,
                             now: nat)
    requires Core(s.tree) && !StaleClick(s, l, last, e, env)
    requires s.pendingEsc.Some? && Elapsed(s.pendingEsc.value, now) >= ESC_WINDOW
    ensures var sent := ContentEsc.Deliveries(FlushTick(OnMouse(s, l, last, e, tracking, env), now).log);
            var before := ContentEsc.Deliveries(s.log);
            && sent == before + [ContentEsc.Delivery(TabAfter(s, l, last, e, env), ESC)]
            && (sent == before + ContentEsc.HeldBack(s) <==> TabAfter(s, l, last, e, env) == ActiveTab(s.tree).id)
  {
    var r := OnMouse(s, l, last, e, tracking, env);
    MouseIsQuiet(s, l, last, e, tracking, env);
    TabAfterIsActive(s, l, last, e, tracking, env);
    ContentEsc.FlushDelivers(r);
    hide Core, ContentEsc.Deliveries, OnMouse, TabAfter;
    var before := ContentEsc.Deliveries(r.log);
    var x, y := ContentEsc.Delivery(ActiveTab(r.tree).id, ESC), ContentEsc.Delivery(ActiveTab(s.tree).id, ESC);
    assert (before + [x])[|before|] == x && (before + [y])[|before|] == y;
  }

  lemma ClickKeepsLiveIff(s: State, click: Bar.Click, isDouble: bool, env: Env)
    requires Core(s.tree) && Live(s) && (click.ActivateTab? ==> click.tab < |CurDesk(s.tree).tabs|)
    ensures Live(LeftDown(s, click, isDouble, env))
            <==> (click.SelectDesk? && !isDouble ==> LastLife(s.log, TabAfterClick(s.tree, click, env)) == Some(true))
  {
    var r := LeftDown(s, click, isDouble, env);
    ClickLeadsTo(s, click, isDouble, env);
    ShowIsLive(s, r.tree);
    hide GoodOffices, SelectDesk, WithDesk, NewTab, TabAfterClick, LastLife, BeginRenameTab;
  }

  lemma ContentKeepsLive(s: State, area: Bar.Rect, e: MouseEvent, tracking: bool)
    requires Core(s.tree) && Live(s)
    ensures Live(InContent(s, area, e, tracking))
  {
    hide Core, ReportBytes, ButtonCode, ActiveTab, LastLife;
    var f := s.(focus := Jump.Content);
    ScrollKeepsLive(f, 3);
    ScrollKeepsLive(f, -3);
    if ButtonCode(e.kind).Some? {
      LifeAfter(f.log, Tracked(ActiveTab(s.tree).id, ReportBytes(ButtonCode(e.kind).value, area, e)), ActiveTab(s.tree).id);
    }
  }

  lemma WheelKeepsLive(s: State, l: Bar.Layout, e: MouseEvent)
    requires Core(s.tree) && Live(s)
    ensures Live(Wheel(s, l, e))
  {
    WheelWalksOrScrolls(s, l, e);
    NavKeepsLive(s, if e.kind.WheelUp? then -1 else 1);
    hide Core, Nav, LastLife, ActiveTab, Bar.InRect, Wheel;
  }

  /** A mouse event leaves the active tab spawned except for a single click on a desk, which selects the desk
      without spawning its tab: then the tab is only if it had been before. */
  lemma MouseKeepsLiveIff(s: State, l: Bar.Layout, last: Option<Press>, e: MouseEvent, tracking: bool, env: Env)
    requires Core(s.tree) && !StaleClick(s, l, last, e, env) && Live(s)
    ensures var click := Pressed(s, l, last, e, env);
            Live(OnMouse(s, l, last, e, tracking, env))
            <==> (click.Some? && click.value.SelectDesk? && !IsDouble(last, e, env.now) ==>
                    LastLife(s.log, TabAfter(s, l, last, e, env)) == Some(true))
  {
    ContentKeepsLive(s, l.content, e, tracking);
    WheelKeepsLive(s, l, e);
    if Pressed(s, l, last, e, env).Some? {
      ClickKeepsLiveIff(s, Pressed(s, l, last, e, env).value, IsDouble(last, e, env.now), env);
    }
    hide Core, InContent, LeftDown, Wheel, Bar.InRect, Aim, IsDouble, ActiveTab, CurDesk, LastLife, TabAfterClick;
    hide TabAfterWheel;
  }

  /** The wheel never scrolls the bar past the last tab. */
  lemma WheelStaysOnTabs(s: State, l: Bar.Layout, e: MouseEvent)
    requires Core(s.tree) && s.tabScroll < |CurDesk(s.tree).tabs|
    ensures Wheel(s, l, e).tabScroll < |CurDesk(Wheel(s, l, e).tree).tabs|
  {
    hide GoodOffices, SelectDesk;
  }

  /** Nor does it scroll the active tab away: a step past it is undone by the next draw. */
  lemma WheelPastActiveIsUndone(s: State, l: Bar.Layout, e: MouseEvent, labels: seq<nat>, innerW: nat, scroll: nat)
    requires Core(s.tree) && !Bar.InRect(e.col, e.row, l.sidebar) && |labels| == |CurDesk(s.tree).tabs|
    requires s.tabScroll == CurDesk(s.tree).activeTab && (e.kind.WheelDown? || e.kind.WheelRight?)
    requires var at := CurDesk(s.tree).activeTab; var turned := Wheel(s, l, e).tabScroll;
             Bar.Settled(labels, if at < turned then at else turned, at, innerW, scroll)
    ensures scroll == s.tabScroll
  {
  }
}
