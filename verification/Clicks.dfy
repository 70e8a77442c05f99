/** What mouse events do, in the terms of the screen: which desk is under the pointer, which cell a program is told of,
    what counts as a double click.  The mouse table of docs/KEYBOARD_SHORTCUTS.md over src/client/mouse.rs. */
module Clicks {
  import opened Basics
  import opened Workspace
  import opened Shortcuts
  import opened Mouse
  import Bar = Topbar
  import Jump
  import Utf8

  // ---- numbers in decimal ----

  predicate AreDigits(s: string) { s != "" && forall i :: 0 <= i < |s| ==> '0' <= s[i] <= '9' }

  /** The number that digits spell. */
  function Spelt(s: string): int { if s == "" then 0 else Spelt(s[..|s| - 1]) * 10 + (s[|s| - 1] as int - '0' as int) }

  lemma {:induction false} DecimalSpells(n: nat)
    ensures AreDigits(Decimal(n)) && Spelt(Decimal(n)) == n && (n > 0 ==> Decimal(n)[0] != '0')
  {
    var last := [('0' as int + n % 10) as char];
    if n < 10 {
      assert "" + last == last && last[..0] == "";
    } else {
      DecimalSpells(n / 10);
      assert (Decimal(n / 10) + last)[..|Decimal(n / 10)|] == Decimal(n / 10);
    }
  }

  // ---- what a program that tracks the mouse is told ----

  function Report(b: string, x: string, y: string, released: bool): seq<byte> {
    Utf8.Encode("\U{1b}[<" + b + ";" + x + ";" + y + if released then "m" else "M")
  }

  /** The report of xterm's SGR mode: the number of the button and its column and row, from 1. */
  ghost predicate Tells(report: seq<byte>, button: int, column: int, row: int, released: bool) {
    exists b, x, y ::
      && report == Report(b, x, y, released) && AreDigits(b) && AreDigits(x) && AreDigits(y)
      && Spelt(b) == button && Spelt(x) == column && Spelt(y) == row
  }

  /** The buttons count from 0 on the left, 3 being none; 32 more is a move, 64 more the wheel.  Moves with another
      button than the left one, and the wheel sideways, are not told. */
  function SgrButton(kind: MouseKind): Option<int> {
    match kind
    case ButtonDown(b) => Some(if b.LeftButton? then 0 else if b.MiddleButton? then 1 else 2)
    case ButtonUp => Some(3)
    case Drag(b) => if b.LeftButton? then Some(0 + 32) else None
    case Moved => Some(3 + 32)
    case WheelUp => Some(0 + 64)
    case WheelDown => Some(1 + 64)
    case _ => None
  }

  /** Over the terminal a program that tracks the mouse is told of the cell inside the border, and one that does not
      leaves the wheel to scroll three lines; either way the terminal gets the focus. */
  lemma TerminalIsTold(s: State, l: Bar.Layout, last: Option<Press>, e: MouseEvent, tracking: bool, env: Env)
    requires Core(s.tree) && Bar.InRect(e.col, e.row, l.content)
    ensures !StaleClick(s, l, last, e, env)
    ensures var r, tab, button := OnMouse(s, l, last, e, tracking, env), ActiveTab(s.tree).id, SgrButton(e.kind);
            var column := if e.col > l.content.x then e.col - l.content.x else 1;
            var row := if e.row > l.content.y then e.row - l.content.y else 1;
            && r == s.(focus := Jump.Content, log := r.log)
            && (if tracking && button.Some? then
                  exists report :: r.log == s.log + [Tracked(tab, report)]
                                   && Tells(report, button.value, column, row, e.kind.ButtonUp?)
                else if !tracking && (e.kind.WheelUp? || e.kind.WheelDown?) then
                  r.log == s.log + [Scrolled(tab, if e.kind.WheelUp? then 3 else -3)]
                else r.log == s.log)
  {
    hide Core;
    if tracking && SgrButton(e.kind).Some? {
      ReportTells(ButtonCode(e.kind).value, l.content, e);
    }
  }

  lemma SameReport(b: string, x: string, y: string, released: bool)
    ensures Sgr(b, x, y, released) == Report(b, x, y, released)
  {
  }

  lemma NumbersAreTold(button: nat, x: nat, y: nat, released: bool)
    ensures Tells(Report(Decimal(button), Decimal(x), Decimal(y), released), button, x, y, released)
  {
    DecimalSpells(button);
    DecimalSpells(x);
    DecimalSpells(y);
    hide Decimal, AreDigits, Spelt, Report;
  }

  lemma ReportTells(button: nat, area: Bar.Rect, e: MouseEvent)
    ensures Tells(ReportBytes(button, area, e), button, if e.col > area.x then e.col - area.x else 1,
                  if e.row > area.y then e.row - area.y else 1, e.kind.ButtonUp?)
  {
    hide Decimal, Tells, Report, Sgr;
    var tx, ty := Sub(e.col, area.x + 1) + 1, Sub(e.row, area.y + 1) + 1;
    SameReport(Decimal(button), Decimal(tx), Decimal(ty), e.kind.ButtonUp?);
    NumbersAreTold(button, tx, ty, e.kind.ButtonUp?);
  }

  /** A press repeats the last one if it is on the same cell less than 400 milliseconds later. */
  lemma DoubleIff(last: Option<Press>, e: MouseEvent, now: nat)
    ensures IsDouble(last, e, now)
            <==> last.Some? && (last.value.col, last.value.row) == (e.col, e.row)
                 && (now < last.value.at || (now - last.value.at) / 1_000_000 < 400)
  {
  }

  // ---- the list of desks ----

  /** A left press on the `j`-th row inside the list's border, with nothing of another panel under it. */
  predicate OnRow(l: Bar.Layout, e: MouseEvent, j: nat) {
    && e.kind == ButtonDown(LeftButton) && !Bar.InRect(e.col, e.row, l.content) && !Bar.InRect(e.col, e.row, l.selector)
    && Bar.InRect(e.col, e.row, l.deskList) && e.row == l.deskList.y + 1 + j
  }

  /** It selects the `j`-th desk and focuses the list; twice, it spawns the desk's tab and focuses the terminal. */
  lemma RowSelectsDesk(s: State, l: Bar.Layout, last: Option<Press>, e: MouseEvent, j: nat, tracking: bool, env: Env)
    requires Core(s.tree) && OnRow(l, e, j) && j < |CurOffice(s.tree).desks|
    ensures !StaleClick(s, l, last, e, env)
    ensures var desks := CurOffice(s.tree).desks;
            OnMouse(s, l, last, e, tracking, env) == (
              if IsDouble(last, e, env.now) then
                s.(tree := With(s.tree, desks, j), focus := Jump.Content, log := s.log + [Spawned(TabOf(desks[j]))])
              else s.(tree := With(s.tree, desks, j), focus := Jump.Sidebar))
  {
    Selecting(s.tree, j);
    hide GoodOffices, SelectDesk, With, TabOf, IsDouble;
  }

  /** The row shows the desk that many rows after the list's offset, but the press does not count the offset: it selects
      the desk under the pointer exactly when the list has not been scrolled. */
  lemma ShownDeskIsSelectedIff(s: State, l: Bar.Layout, last: Option<Press>, e: MouseEvent, j: nat, tracking: bool,
                               env: Env)
    requires Core(s.tree) && OnRow(l, e, j) && s.hits.listOffset + j < |CurOffice(s.tree).desks|
    ensures !StaleClick(s, l, last, e, env)
    ensures Selected(OnMouse(s, l, last, e, tracking, env).tree) == s.hits.listOffset + j <==> s.hits.listOffset == 0
  {
    RowSelectsDesk(s, l, last, e, j, tracking, env);
    hide Core, OnMouse, StaleClick, IsDouble;
  }

  // ---- the rest of the table ----

  /** The button of the list of offices opens it on the current one; the bar's button opens a tab; the wheel walks the
      desks over the sidebar, and over the bar turns it by one tab. */
  lemma ButtonsAndWheel(s: State, l: Bar.Layout, last: Option<Press>, e: MouseEvent, tracking: bool, env: Env)
    requires Core(s.tree) && !Bar.InRect(e.col, e.row, l.content) && !StaleClick(s, l, last, e, env)
    ensures e.kind == ButtonDown(LeftButton) && Bar.InRect(e.col, e.row, l.selector) ==>
              OnMouse(s, l, last, e, tracking, env)
              == s.(modes := s.modes.(selectorActive := true), selectorIndex := Some(s.tree.currentOffice))
    ensures e.kind.WheelUp? && Bar.InRect(e.col, e.row, l.sidebar) ==> OnMouse(s, l, last, e, tracking, env) == Nav(s, -1)
    ensures e.kind.WheelDown? && Bar.InRect(e.col, e.row, l.sidebar) ==> OnMouse(s, l, last, e, tracking, env) == Nav(s, 1)
    ensures (e.kind.WheelLeft? || (e.kind.WheelUp? && !Bar.InRect(e.col, e.row, l.sidebar)))
            && Bar.InRect(e.col, e.row, l.topbar) ==>
              OnMouse(s, l, last, e, tracking, env) == s.(tabScroll := if s.tabScroll == 0 then 0 else s.tabScroll - 1)
    ensures (e.kind.WheelRight? || (e.kind.WheelDown? && !Bar.InRect(e.col, e.row, l.sidebar)))
            && Bar.InRect(e.col, e.row, l.topbar) ==>
              OnMouse(s, l, last, e, tracking, env)
              == s.(tabScroll := if s.tabScroll + 1 < |CurDesk(s.tree).tabs| then s.tabScroll + 1 else s.tabScroll)
  {
    hide GoodOffices, Nav, IsDouble, Bar.InRect;
  }

  lemma PlusOpensTab(s: State, l: Bar.Layout, last: Option<Press>, e: MouseEvent, tracking: bool, env: Env)
    requires Core(s.tree) && Bar.PanelsApart(l) && e.kind == ButtonDown(LeftButton)
    requires Bar.InRect(e.col, e.row, l.topbar) && Bar.InRect(e.col, e.row, l.newTab)
    ensures !StaleClick(s, l, last, e, env)
    ensures var desks, i, d := CurOffice(s.tree).desks, Selected(s.tree), CurDesk(s.tree);
            var n := |d.tabs|;
            var grown := d.(tabs := d.tabs + [Tab(env.freshId, "Terminal " + Decimal(n + 1))], activeTab := n);
            OnMouse(s, l, last, e, tracking, env)
            == s.(tree := With(s.tree, desks[i := grown], i), focus := Jump.Topbar, log := s.log + [Spawned(env.freshId)])
  {
    ReplacingDesk(s.tree, NewTab(CurDesk(s.tree), env.freshId));
    hide GoodOffices, WithDesk, With, Decimal, IsDouble;
  }
}
