/** The tab bar of src/client/ui/topbar.rs and the left-click dispatch of src/client/mouse.rs. */
module Topbar {
  import opened Basics

  /** Screen rectangles, as ratatui's `Rect`. */
  datatype Rect = Rect(x: nat, y: nat, width: nat, height: nat)

  const NOWHERE := Rect(0, 0, 0, 0)

  predicate InRect(col: nat, row: nat, r: Rect) {
    col >= r.x && col < r.x + r.width && row >= r.y && row < r.y + r.height
  }

  /** The cells of a rectangle: so many columns and rows from its corner on. */
  lemma InRectIff(col: nat, row: nat, r: Rect)
    ensures InRect(col, row, r) <==> 0 <= col - r.x < r.width && 0 <= row - r.y < r.height
  {
  }

  const PLUS_WIDTH := 6   // the new-tab button: a double-width plus between two pairs of spaces
  const ARROW_WIDTH := 2

  /** Columns that the tabs from `s` up to `e` take, each with the space after it. */
  function Span(labels: seq<nat>, s: nat, e: nat): (n: nat)
    requires s <= e <= |labels|
    decreases e
  {
    if s == e then 0 else Span(labels, s, e - 1) + labels[e - 1] + 1
  }

  lemma {:induction false} SpanSplit(labels: seq<nat>, s: nat, m: nat, e: nat)
    requires s <= m <= e <= |labels|
    ensures Span(labels, s, e) == Span(labels, s, m) + Span(labels, m, e)
    decreases e
  {
    if m < e { SpanSplit(labels, s, m, e - 1); }
  }

  // ---- scrolling the active tab into view ----

  /** The tabs from `s` to the active one fit beside the new-tab button. */
  predicate Fits(labels: seq<nat>, s: nat, at: nat, innerW: nat)
    requires s <= at < |labels|
  {
    PLUS_WIDTH + Span(labels, s, at + 1) <= innerW
  }

  /** One pass of the source's inner loop: the last tab that is visible from `scroll`. */
  method LastVisible(labels: seq<nat>, scroll: nat, innerW: nat) returns (last: nat)
    requires scroll < |labels|
    ensures scroll <= last < |labels|
    ensures forall t :: scroll < t < |labels| ==> (t <= last <==> Fits(labels, scroll, t, innerW))
  {
    var used := PLUS_WIDTH;
    last := scroll;
    var i := scroll;
    while i < |labels|
      invariant scroll <= i <= |labels| && last == (if i == scroll then scroll else i - 1)
      invariant used == PLUS_WIDTH + Span(labels, scroll, i)
      invariant forall t :: scroll <= t < i ==> Fits(labels, scroll, t, innerW)
    {
      if used + (labels[i] + 1) > innerW {
        forall t | i <= t < |labels| ensures !Fits(labels, scroll, t, innerW) {
          SpanSplit(labels, scroll, i + 1, t + 1);
        }
        return;
      }
      used := used + labels[i] + 1;
      last := i;
      i := i + 1;
    }
  }

  /** The scroll position the loop settles on: the first one, from where it starts, that shows the active tab
      or has come up to it. */
  predicate Settled(labels: seq<nat>, from: nat, at: nat, innerW: nat, scroll: nat)
    requires at < |labels|
  {
    && from <= scroll <= at
    && (scroll == at || Fits(labels, scroll, at, innerW))
    && forall s :: from <= s < scroll ==> !Fits(labels, s, at, innerW)
  }

  /** Where it settles, worked out from the state before the draw. */
  function SettledAt(labels: seq<nat>, from: nat, at: nat, innerW: nat): (scroll: nat)
    requires from <= at < |labels|
    ensures from <= scroll <= at
    decreases at - from
  {
    if from == at || Fits(labels, from, at, innerW) then from else SettledAt(labels, from + 1, at, innerW)
  }

  lemma {:induction false} SettledIsSettledAt(labels: seq<nat>, from: nat, at: nat, innerW: nat, scroll: nat)
    requires from <= at < |labels|
    ensures Settled(labels, from, at, innerW, scroll) <==> scroll == SettledAt(labels, from, at, innerW)
    decreases at - from
  {
    if from < at && !Fits(labels, from, at, innerW) { SettledIsSettledAt(labels, from + 1, at, innerW, scroll); }
  }

  class TabBar {
    var tabScroll: nat
    var tabAreas: seq<Rect>
    var tabAreaTabIndices: seq<nat>
    var newTabArea: Rect

    constructor ()
      ensures tabScroll == 0 && tabAreas == [] && tabAreaTabIndices == []
    {
      tabScroll, tabAreas, tabAreaTabIndices := 0, [], [];
      newTabArea := NOWHERE;
    }

    method ScrollIntoView(labels: seq<nat>, at: nat, innerW: nat)
      requires at < |labels|
      modifies this`tabScroll
      ensures Settled(labels, if at < old(tabScroll) then at else old(tabScroll), at, innerW, tabScroll)
    {
      if at < tabScroll {
        tabScroll := at;
      }
      ghost var from := tabScroll;
      while true
        invariant from <= tabScroll <= at
        invariant forall s :: from <= s < tabScroll ==> !Fits(labels, s, at, innerW)
        decreases at - tabScroll
      {
        var lastVisible := LastVisible(labels, tabScroll, innerW);
        if at <= lastVisible || tabScroll >= at {
          return;
        }
        tabScroll := tabScroll + 1;
      }
    }

    /** Lays the tabs out: `labels` are the widths used for scrolling, `drawn` those of the labels drawn, which
        may add a spinner. */
    method Draw(area: Rect, labels: seq<nat>, drawn: seq<nat>, at: nat)
      requires at < |labels| == |drawn|
      modifies this
      ensures Settled(labels, if at < old(tabScroll) then at else old(tabScroll), at, InnerWidth(area), tabScroll)
      ensures LaidOut(area, drawn, tabScroll, tabAreas, tabAreaTabIndices, newTabArea)
    {
      ScrollIntoView(labels, at, if area.width < 2 then 0 else area.width - 2);
      RecordAreas(area, drawn);
    }

    method RecordAreas(area: Rect, drawn: seq<nat>)
      requires tabScroll <= |drawn|
      modifies `tabAreas, `tabAreaTabIndices, `newTabArea
      ensures LaidOut(area, drawn, tabScroll, tabAreas, tabAreaTabIndices, newTabArea)
    {
      var innerW := if area.width < 2 then 0 else area.width - 2;
      tabAreas, tabAreaTabIndices := [], [];
      var x := area.x + 1;
      var reserved := PLUS_WIDTH;
      if tabScroll > 0 {
        x := x + ARROW_WIDTH;
        reserved := reserved + ARROW_WIDTH;
      }
      var available: nat := if innerW < reserved then 0 else innerW - reserved;
      var i := tabScroll;
      while i < |drawn|
        invariant tabScroll <= i <= |drawn|
        invariant |tabAreas| == |tabAreaTabIndices| == i - tabScroll
        invariant x == FirstColumn(area, tabScroll) + Span(drawn, tabScroll, i)
        invariant Span(drawn, tabScroll, i) + available == Available(area, tabScroll)
        invariant forall j :: 0 <= j < i - tabScroll ==>
                    tabAreas[j] == AreaOf(area, drawn, tabScroll, j) && tabAreaTabIndices[j] == tabScroll + j
      {
        var w := drawn[i];
        if w + 1 > available {
          break;
        }
        tabAreas := tabAreas + [Rect(x, area.y + 1, w, 1)];
        tabAreaTabIndices := tabAreaTabIndices + [i];
        x := x + w + 1;
        available := available - (w + 1);
        i := i + 1;
      }
      newTabArea := Rect(x, area.y + 1, PLUS_WIDTH, 1);
    }
  }

  function InnerWidth(area: Rect): nat { if area.width < 2 then 0 else area.width - 2 }

  function FirstColumn(area: Rect, scroll: nat): nat { area.x + 1 + if scroll > 0 then ARROW_WIDTH else 0 }

  function Available(area: Rect, scroll: nat): nat {
    var reserved := PLUS_WIDTH + if scroll > 0 then ARROW_WIDTH else 0;
    if InnerWidth(area) < reserved then 0 else InnerWidth(area) - reserved
  }

  function AreaOf(area: Rect, drawn: seq<nat>, scroll: nat, j: nat): Rect
    requires scroll + j < |drawn|
  {
    Rect(FirstColumn(area, scroll) + Span(drawn, scroll, scroll + j), area.y + 1, drawn[scroll + j], 1)
  }

  /** The recorded hit areas: consecutive tabs from the scroll position, as many as fit, then the button. */
  ghost predicate LaidOut(area: Rect, drawn: seq<nat>, scroll: nat, areas: seq<Rect>, indices: seq<nat>, plus: Rect) {
    && |areas| == |indices| && scroll + |areas| <= |drawn|
    && (forall j :: 0 <= j < |areas| ==> areas[j] == AreaOf(area, drawn, scroll, j) && indices[j] == scroll + j)
    && Span(drawn, scroll, scroll + |areas|) <= Available(area, scroll)
    && (scroll + |areas| < |drawn| ==> Span(drawn, scroll, scroll + |areas| + 1) > Available(area, scroll))
    && plus == Rect(FirstColumn(area, scroll) + Span(drawn, scroll, scroll + |areas|), area.y + 1, PLUS_WIDTH, 1)
  }

  /** Areas are ordered with a gap between neighbours, end before the button, and stay inside the bar's border. */
  lemma AreasAreApart(area: Rect, drawn: seq<nat>, scroll: nat, areas: seq<Rect>, indices: seq<nat>, plus: Rect,
                      i: nat, j: nat)
    requires LaidOut(area, drawn, scroll, areas, indices, plus) && i < j < |areas|
    ensures areas[i].x + areas[i].width < areas[j].x && areas[j].x + areas[j].width < plus.x
    ensures area.x < areas[i].x && areas[j].x + areas[j].width < area.x + area.width
  {
    SpanSplit(drawn, scroll, scroll + i + 1, scroll + j);
    SpanSplit(drawn, scroll, scroll + j + 1, scroll + |areas|);
  }

  /** Where everything stands: on the first row inside the border, from its first column or after the arrow, each tab as
      wide as its label, one column between neighbours, and the button, six columns wide, one column after the last. */
  lemma TabsStandInOrder(area: Rect, drawn: seq<nat>, scroll: nat, areas: seq<Rect>, indices: seq<nat>, plus: Rect, i: nat)
    requires LaidOut(area, drawn, scroll, areas, indices, plus)
    ensures var first := area.x + 1 + if scroll == 0 then 0 else 2;
            && (i < |areas| ==>
                  && indices[i] == scroll + i < |drawn| && areas[i].width == drawn[scroll + i]
                  && areas[i].y == area.y + 1 && areas[i].height == 1
                  && areas[i].x == if i == 0 then first else areas[i - 1].x + areas[i - 1].width + 1)
            && plus.x == (if areas == [] then first else areas[|areas| - 1].x + areas[|areas| - 1].width + 1)
            && plus.y == area.y + 1 && plus.width == 6 && plus.height == 1
  {
  }

  /** The button is inside the border exactly when the bar has room for the columns reserved. */
  lemma ButtonIsInsideIff(area: Rect, drawn: seq<nat>, scroll: nat, areas: seq<Rect>, indices: seq<nat>, plus: Rect)
    requires LaidOut(area, drawn, scroll, areas, indices, plus)
    ensures plus.x + plus.width <= area.x + area.width - 1
            <==> InnerWidth(area) >= PLUS_WIDTH + if scroll > 0 then ARROW_WIDTH else 0
  {
    if |areas| > 0 { SpanSplit(drawn, scroll, scroll + 1, scroll + |areas|); }
  }

  lemma AreaIsInside(area: Rect, drawn: seq<nat>, scroll: nat, areas: seq<Rect>, indices: seq<nat>, plus: Rect, i: nat)
    requires LaidOut(area, drawn, scroll, areas, indices, plus) && i < |areas|
    ensures area.x < areas[i].x && areas[i].x + areas[i].width < plus.x
    ensures plus.x + plus.width <= area.x + area.width - 1
  {
    SpanSplit(drawn, scroll, scroll + i + 1, scroll + |areas|);
  }

  lemma HasAreaIff(area: Rect, drawn: seq<nat>, scroll: nat, areas: seq<Rect>, indices: seq<nat>, plus: Rect, at: nat)
    requires LaidOut(area, drawn, scroll, areas, indices, plus) && scroll <= at < |drawn|
    ensures at in indices <==> Span(drawn, scroll, at + 1) <= Available(area, scroll)
  {
    if at < scroll + |areas| {
      assert indices[at - scroll] == at;
      SpanSplit(drawn, scroll, at + 1, scroll + |areas|);
    } else {
      SpanSplit(drawn, scroll, scroll + |areas| + 1, at + 1);
    }
  }

  /** The active tab has a hit area exactly when, from where the scroll loop will settle, it fits with the labels as
      drawn and the arrow included. */
  lemma ActiveIsDrawnIff(bar: Rect, labels: seq<nat>, drawn: seq<nat>, before: nat, at: nat,
                         scroll: nat, areas: seq<Rect>, indices: seq<nat>, plus: Rect)
    requires at < |labels| == |drawn| && LaidOut(bar, drawn, scroll, areas, indices, plus)
    requires Settled(labels, if at < before then at else before, at, InnerWidth(bar), scroll)
    ensures var from := if at < before then at else before;
            var settled := SettledAt(labels, from, at, InnerWidth(bar));
            at in indices <==> Span(drawn, settled, at + 1) <= Available(bar, settled)
  {
    SettledIsSettledAt(labels, if at < before then at else before, at, InnerWidth(bar), scroll);
    HasAreaIff(bar, drawn, scroll, areas, indices, plus, at);
  }

  /** Without a left arrow and without spinners the scroll loop's promise holds: a tab that it found to fit is
      drawn. */
  lemma UnscrolledActiveIsDrawn(area: Rect, labels: seq<nat>, areas: seq<Rect>, indices: seq<nat>, plus: Rect, at: nat)
    requires at < |labels| && LaidOut(area, labels, 0, areas, indices, plus) && Fits(labels, 0, at, InnerWidth(area))
    ensures at in indices
  {
    HasAreaIff(area, labels, 0, areas, indices, plus, at);
  }

  /** With the arrow it does not: the loop does not count the arrow's two columns.  In a bar of inner width
      `w + 7` a second tab of label width `w` fits, yet once the bar is scrolled no tab is drawn at all. */
  lemma ArrowHidesActive(w: nat, areas: seq<Rect>, indices: seq<nat>, plus: Rect)
    requires LaidOut(Rect(0, 0, w + 9, 3), [w, w], 1, areas, indices, plus)
    ensures Settled([w, w], 1, 1, w + 7, 1) && Fits([w, w], 1, 1, w + 7) && areas == []
  {
    assert Span([w, w], 1, 2) == w + 1;
  }

  // ---- clicks ----

  /** The rectangles that the last draw recorded. */
  datatype Layout = Layout(content: Rect, selector: Rect, deskList: Rect, topbar: Rect, sidebar: Rect,
                           tabAreas: seq<Rect>, tabIndices: seq<nat>, newTab: Rect)

  /** Before the first draw. */
  const UNDRAWN := Layout(NOWHERE, NOWHERE, NOWHERE, NOWHERE, NOWHERE, [], [], NOWHERE)

  datatype Click =
    | ToContent
    | OpenSelector
    | SelectDesk(desk: nat)
    | NewTab
    | ActivateTab(tab: nat)
    | RenameTab
    | FocusTopbar
    | FocusSidebar
    | Nowhere

  function TabHit(areas: seq<Rect>, col: nat, row: nat): Option<nat> {
    if areas == [] then None
    else if InRect(col, row, areas[0]) then Some(0)
    else match TabHit(areas[1..], col, row)
      case None => None
      case Some(i) => Some(i + 1)
  }

  /** What a left press at a cell does; `isDouble` says that it repeats the last press in time. */
  function LeftPress(l: Layout, col: nat, row: nat, isDouble: bool, desks: nat, activeTab: nat): Click {
    if InRect(col, row, l.content) then ToContent
    else if InRect(col, row, l.selector) then OpenSelector
    else if col >= l.deskList.x && col < l.deskList.x + l.deskList.width && row > l.deskList.y
            && row < l.deskList.y + l.deskList.height && row - l.deskList.y - 1 < desks then
      SelectDesk(row - l.deskList.y - 1)
    else if InRect(col, row, l.topbar) then
      if InRect(col, row, l.newTab) then NewTab
      else match TabHit(l.tabAreas, col, row)
        case None => if InRect(col, row, l.sidebar) then FocusSidebar else FocusTopbar
        case Some(i) =>
          var tab := if i < |l.tabIndices| then l.tabIndices[i] else i;
          if isDouble && activeTab == tab then RenameTab else ActivateTab(tab)
    else if InRect(col, row, l.sidebar) then FocusSidebar
    else Nowhere
  }

  /** The panels do not overlap: the sidebar with its selector and list left of the bar, the content below it. */
  predicate PanelsApart(l: Layout) {
    && l.selector.x + l.selector.width <= l.topbar.x && l.deskList.x + l.deskList.width <= l.topbar.x
    && l.topbar.height == 3 && l.topbar.y + 3 <= l.content.y
  }

  lemma {:induction false} FirstHit(areas: seq<Rect>, i: nat, col: nat, row: nat)
    requires i < |areas| && InRect(col, row, areas[i])
    requires forall j :: 0 <= j < i ==> !InRect(col, row, areas[j])
    ensures TabHit(areas, col, row) == Some(i)
  {
    if i > 0 {
      assert !InRect(col, row, areas[0]);
      FirstHit(areas[1..], i - 1, col, row);
    }
  }

  /** Hit areas and dispatch agree: a single click in the i-th area activates exactly the i-th tab from the
      scroll position, and a click on the button opens a new tab. */
  lemma ClickReachesTab(l: Layout, drawn: seq<nat>, scroll: nat, i: nat, col: nat, row: nat, desks: nat, activeTab: nat)
    requires PanelsApart(l) && LaidOut(l.topbar, drawn, scroll, l.tabAreas, l.tabIndices, l.newTab)
    requires i < |l.tabAreas| && InRect(col, row, l.tabAreas[i])
    ensures LeftPress(l, col, row, false, desks, activeTab) == ActivateTab(scroll + i)
    ensures LeftPress(l, col, row, true, desks, scroll + i) == RenameTab
  {
    AreaIsInside(l.topbar, drawn, scroll, l.tabAreas, l.tabIndices, l.newTab, i);
    forall j | 0 <= j < i ensures !InRect(col, row, l.tabAreas[j]) {
      AreasAreApart(l.topbar, drawn, scroll, l.tabAreas, l.tabIndices, l.newTab, j, i);
    }
    FirstHit(l.tabAreas, i, col, row);
  }

  lemma {:induction false} HitIsInside(areas: seq<Rect>, col: nat, row: nat)
    requires TabHit(areas, col, row).Some?
    ensures var i := TabHit(areas, col, row).value; i < |areas| && InRect(col, row, areas[i])
  {
    if !InRect(col, row, areas[0]) { HitIsInside(areas[1..], col, row); }
  }

  /** Conversely a press activates a tab only from inside that tab's own area. */
  lemma OnlyItsAreaActivates(l: Layout, drawn: seq<nat>, scroll: nat, col: nat, row: nat, isDouble: bool,
                             desks: nat, activeTab: nat, tab: nat)
    requires LaidOut(l.topbar, drawn, scroll, l.tabAreas, l.tabIndices, l.newTab)
    requires LeftPress(l, col, row, isDouble, desks, activeTab) == ActivateTab(tab)
    ensures scroll <= tab < scroll + |l.tabAreas| && InRect(col, row, l.tabAreas[tab - scroll])
  {
    HitIsInside(l.tabAreas, col, row);
  }
}
