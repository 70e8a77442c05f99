/** The tables of docs/KEYBOARD_SHORTCUTS.md, row by row, as what `handle_key` leaves behind: which desk and tab are
    there and shown, what has the focus, what reached which PTY.  Where the code does something else it is said so. */
module Shortcuts {
  import opened Basics
  import opened Keys
  import opened Workspace
  import Jump
  import RenameEditor

  /** Nothing is open, and the keys go to a panel. */
  ghost predicate Idle(s: State, focus: Jump.Focus) { Sound(s) && s.modes == NO_MODE && s.focus == focus }

  function After(s: State, code: KeyCode, env: Env): State
    requires Core(s.tree) && DialogsUsable(s.tree, s.modes) && !StaleHit(s, Bare(code)) && !StaleCommit(s, Bare(code))
  {
    HandleKey(s, Bare(code), env).state
  }

  /** The current office with these desks, and one of them selected. */
  function With(t: Tree, desks: seq<Desk>, i: nat): Tree
    requires t.currentOffice < |t.offices|
  {
    t.(offices := t.offices[t.currentOffice := t.offices[t.currentOffice].(desks := desks, activeDesk := i)],
       selected := Some(i))
  }

  /** The tab that a desk shows. */
  function TabOf(d: Desk): string { if d.activeTab < |d.tabs| then d.tabs[d.activeTab].id else "" }

  lemma SameDesks(t: Tree)
    requires Core(t)
    ensures With(t, CurOffice(t).desks, Selected(t)) == t
    ensures forall i :: 0 <= i < |CurOffice(t).desks| ==> GoodDesk(CurOffice(t).desks[i])
    ensures ActiveTab(t).id == TabOf(CurOffice(t).desks[Selected(t)])
  {
    assert With(t, CurOffice(t).desks, Selected(t)).offices == t.offices;
  }

  lemma Selecting(t: Tree, i: nat)
    requires Core(t) && i < |CurOffice(t).desks|
    ensures SelectDesk(t, i) == With(t, CurOffice(t).desks, i) && ActiveTab(SelectDesk(t, i)).id == TabOf(CurOffice(t).desks[i])
  {
    assert SelectDesk(t, i).offices == With(t, CurOffice(t).desks, i).offices;
  }

  /** A panel gets every key but Esc and the two that can quit. */
  lemma PanelGetsTheKey(s: State, code: KeyCode, env: Env)
    requires Sound(s) && s.modes == NO_MODE && s.focus != Jump.Content
    requires !code.Esc? && code != Char('q') && code != Char('Q')
    ensures !StaleHit(s, Bare(code)) && !StaleCommit(s, Bare(code))
    ensures After(s, code, env)
            == if s.focus == Jump.Sidebar then SidebarKey(s, Bare(code), env) else TopbarKey(s, Bare(code), env)
  {
    hide Core, SidebarKey, TopbarKey;
  }

  // ---- the sidebar ----

  /** Up and Down: the desk above or below, if there is one, is selected and its tab spawned. */
  lemma SidebarUp(s: State, env: Env)
    requires Idle(s, Jump.Sidebar)
    ensures var desks, i := CurOffice(s.tree).desks, Selected(s.tree);
            After(s, Up, env) == (
              if i == 0 then s.(tabScroll := 0)
              else s.(tree := With(s.tree, desks, i - 1), tabScroll := 0,
                      log := s.log + [Spawned(TabOf(desks[i - 1]))]))
  {
    hide HandleKey, GoodOffices, Nav, With, TabOf;
    PanelGetsTheKey(s, Up, env);
    if Selected(s.tree) > 0 { Walking(s, -1, Selected(s.tree) - 1); } else { Standing(s, -1); }
  }

  lemma SidebarDown(s: State, env: Env)
    requires Idle(s, Jump.Sidebar)
    ensures var desks, i := CurOffice(s.tree).desks, Selected(s.tree);
            After(s, Down, env) == (
              if i + 1 == |desks| then s.(tabScroll := 0)
              else s.(tree := With(s.tree, desks, i + 1), tabScroll := 0,
                      log := s.log + [Spawned(TabOf(desks[i + 1]))]))
  {
    hide HandleKey, GoodOffices, Nav, With, TabOf;
    PanelGetsTheKey(s, Down, env);
    if Selected(s.tree) + 1 < |CurOffice(s.tree).desks| { Walking(s, 1, Selected(s.tree) + 1); } else { Standing(s, 1); }
  }

  lemma Walking(s: State, delta: int, j: nat)
    requires Core(s.tree) && Selected(s.tree) + delta == j < |CurOffice(s.tree).desks| && delta != 0
    ensures var desks := CurOffice(s.tree).desks;
            Nav(s, delta) == s.(tree := With(s.tree, desks, j), tabScroll := 0, log := s.log + [Spawned(TabOf(desks[j]))])
  {
    Selecting(s.tree, j);
    hide GoodOffices, SelectDesk, ActiveTab, With, TabOf;
  }

  lemma Standing(s: State, delta: int)
    requires Core(s.tree) && Clamp(Selected(s.tree) + delta, |CurOffice(s.tree).desks| - 1) == Selected(s.tree)
    ensures Nav(s, delta) == s.(tabScroll := 0)
  {
    SameDesks(s.tree);
    Selecting(s.tree, Selected(s.tree));
    hide GoodOffices, SelectDesk, ActiveTab, With, TabOf;
  }

  /** `n`: a desk with one tab at the end of the list, selected and spawned. */
  lemma SidebarNewDesk(s: State, env: Env)
    requires Idle(s, Jump.Sidebar)
    ensures var desks := CurOffice(s.tree).desks;
            var d := Desk("Desk " + Decimal(|desks| + 1), [Tab(env.freshId, "Terminal 1")], 0);
            After(s, Char('n'), env)
            == s.(tree := With(s.tree, desks + [d], |desks|), log := s.log + [Spawned(env.freshId)])
  {
    var desks := CurOffice(s.tree).desks;
    var d := Desk("Desk " + Decimal(|desks| + 1), [Tab(env.freshId, "Terminal 1")], 0);
    assert AddDesk(s.tree, env.freshId).offices == With(s.tree, desks + [d], |desks|).offices;
    hide GoodOffices, Decimal;
  }

  /** `x` asks before it closes a desk, and does nothing to the only one; `r` renames, `o` opens the list of offices,
      `s` the settings, and Enter goes to the terminal. */
  lemma SidebarKeys(s: State, env: Env)
    requires Idle(s, Jump.Sidebar)
    ensures var desks, i := CurOffice(s.tree).desks, Selected(s.tree);
            && After(s, Char('x'), env) == (if |desks| <= 1 then s else s.(modes := NO_MODE.(deskDelete := Some(i))))
            && After(s, Char('r'), env) == After(s, Char('R'), env)
               == s.(modes := NO_MODE.(rename := Some(Renaming(RenameEditor.Desk(i),
                                                              RenameEditor.Edit(desks[i].name, |desks[i].name|)))))
            && After(s, Char('o'), env)
               == s.(modes := NO_MODE.(selectorActive := true), selectorIndex := Some(s.tree.currentOffice))
            && After(s, Char('s'), env) == s.(modes := NO_MODE.(showSettings := true))
            && After(s, Enter, env) == s.(focus := Jump.Content, log := s.log + [Spawned(TabOf(desks[i]))])
  {
    SameDesks(s.tree);
    hide HandleKey, GoodOffices, TabOf;
    PanelGetsTheKey(s, Char('x'), env);
    PanelGetsTheKey(s, Char('r'), env);
    PanelGetsTheKey(s, Char('R'), env);
    PanelGetsTheKey(s, Char('o'), env);
    PanelGetsTheKey(s, Char('s'), env);
    PanelGetsTheKey(s, Enter, env);
  }

  /** On both panels Esc enters Jump Mode and `q` quits. */
  lemma PanelKeys(s: State, env: Env)
    requires Sound(s) && s.modes == NO_MODE && s.focus != Jump.Content
    ensures After(s, Esc, env) == s.(modes := NO_MODE.(jumpMode := true))
    ensures HandleKey(s, Bare(Char('q')), env) == Outcome(s, true)
  {
    hide Core;
  }

  // ---- the tab bar ----

  /** Left and Right: the tab before or after, if there is one. */
  lemma TopbarLeft(s: State, env: Env)
    requires Idle(s, Jump.Topbar)
    ensures var desks, i, d := CurOffice(s.tree).desks, Selected(s.tree), CurDesk(s.tree);
            After(s, Left, env) == (
              if d.activeTab == 0 then s
              else s.(tree := With(s.tree, desks[i := d.(activeTab := d.activeTab - 1)], i),
                      log := s.log + [Spawned(d.tabs[d.activeTab - 1].id)]))
  {
    var d := CurDesk(s.tree);
    assert GoodDesk(d);
    hide HandleKey, Core, WithDesk, With, GoodDesk, CurDesk;
    PanelGetsTheKey(s, Left, env);
    if d.activeTab > 0 { ActivatingTab(s, d.activeTab - 1); }
  }

  lemma TopbarRight(s: State, env: Env)
    requires Idle(s, Jump.Topbar)
    ensures var desks, i, d := CurOffice(s.tree).desks, Selected(s.tree), CurDesk(s.tree);
            After(s, Right, env) == (
              if d.activeTab + 1 == |d.tabs| then s
              else s.(tree := With(s.tree, desks[i := d.(activeTab := d.activeTab + 1)], i),
                      log := s.log + [Spawned(d.tabs[d.activeTab + 1].id)]))
  {
    var d := CurDesk(s.tree);
    assert GoodDesk(d);
    hide HandleKey, Core, WithDesk, With, GoodDesk, CurDesk;
    PanelGetsTheKey(s, Right, env);
    if d.activeTab + 1 < |d.tabs| { ActivatingTab(s, d.activeTab + 1); }
  }

  lemma ActivatingTab(s: State, a: nat)
    requires Core(s.tree) && a < |CurDesk(s.tree).tabs|
    ensures var i, d := Selected(s.tree), CurDesk(s.tree);
            Show(s, ActivateTab(s.tree, a))
            == s.(tree := With(s.tree, CurOffice(s.tree).desks[i := d.(activeTab := a)], i),
                  log := s.log + [Spawned(d.tabs[a].id)])
  {
    ReplacingDesk(s.tree, CurDesk(s.tree).(activeTab := a));
    hide GoodOffices, WithDesk, With;
  }

  lemma ReplacingDesk(t: Tree, d: Desk)
    requires Core(t) && GoodDesk(d)
    ensures var i := Selected(t);
            && WithDesk(t, d) == With(t, CurOffice(t).desks[i := d], i) && CurDesk(WithDesk(t, d)) == d
            && ActiveTab(WithDesk(t, d)) == d.tabs[d.activeTab]
  {
    hide GoodOffices;
    assert WithDesk(t, d).offices == With(t, CurOffice(t).desks[Selected(t) := d], Selected(t)).offices;
  }

  /** `n`: a tab at the end of the bar.  `x`: the active tab goes, unless it is the only one, and the next takes its
      place, or else the last. */
  lemma TopbarTabs(s: State, env: Env)
    requires Idle(s, Jump.Topbar)
    ensures var desks, i, d := CurOffice(s.tree).desks, Selected(s.tree), CurDesk(s.tree);
            var a, n := d.activeTab, |d.tabs|;
            var grown := d.(tabs := d.tabs + [Tab(env.freshId, "Terminal " + Decimal(n + 1))], activeTab := n);
            var closed := d.(tabs := d.tabs[..a] + d.tabs[a + 1..], activeTab := if a + 1 < n || n == 1 then a else a - 1);
            && After(s, Char('n'), env)
               == s.(tree := With(s.tree, desks[i := grown], i), log := s.log + [Spawned(env.freshId)])
            && After(s, Char('x'), env) == (
                 if n == 1 then s.(log := s.log + [Spawned(d.tabs[a].id)])
                 else s.(tree := With(s.tree, desks[i := closed], i),
                         log := s.log + [Closed(d.tabs[a].id), Spawned(closed.tabs[closed.activeTab].id)]))
  {
    var d := CurDesk(s.tree);
    SameDesks(s.tree);
    ReplacingDesk(s.tree, NewTab(d, env.freshId));
    ReplacingDesk(s.tree, CloseTab(d));
    assert CurOffice(s.tree).desks[Selected(s.tree) := d] == CurOffice(s.tree).desks;
    hide HandleKey, GoodOffices, WithDesk, With, Decimal;
    PanelGetsTheKey(s, Char('n'), env);
    PanelGetsTheKey(s, Char('x'), env);
  }

  /** `r` renames the tab, and Enter goes to the terminal. */
  lemma TopbarKeys(s: State, env: Env)
    requires Idle(s, Jump.Topbar)
    ensures var i, d := Selected(s.tree), CurDesk(s.tree);
            var name := d.tabs[d.activeTab].name;
            && After(s, Char('r'), env) == After(s, Char('R'), env)
               == s.(modes := NO_MODE.(rename := Some(Renaming(RenameEditor.Tab(i, d.activeTab),
                                                              RenameEditor.Edit(name, |name|)))))
            && After(s, Enter, env) == s.(focus := Jump.Content, log := s.log + [Spawned(d.tabs[d.activeTab].id)])
  {
    SameDesks(s.tree);
    hide HandleKey, GoodOffices;
    PanelGetsTheKey(s, Char('r'), env);
    PanelGetsTheKey(s, Char('R'), env);
    PanelGetsTheKey(s, Enter, env);
  }

  // ---- the terminal ----

  /** Shift and a page key scroll back and forth; an Esc that is held back goes first. */
  lemma ContentScrolls(s: State, env: Env)
    requires Idle(s, Jump.Content)
    ensures var tab := ActiveTab(s.tree).id;
            var sent := if s.pendingEsc.Some? then s.log + [Sent(tab, [0x1b])] else s.log;
            && HandleKey(s, Key(PageUp, false, false, true, false), env)
               == Outcome(s.(pendingEsc := None, log := sent + [Scrolled(tab, 5)]), false)
            && HandleKey(s, Key(PageDown, false, false, true, false), env)
               == Outcome(s.(pendingEsc := None, log := sent + [Scrolled(tab, -5)]), false)
  {
    hide Core;
  }

  /** Alt and a digit, anywhere: the tab of that number, if there is one, its program being told if it asked.  The
      digit 0, which the table does not have, goes to the first. */
  lemma AltDigitSwitches(s: State, c: char, env: Env)
    requires Sound(s) && s.modes == NO_MODE && s.pendingEsc.None? && '0' <= c <= '9'
    ensures var desks, i, d := CurOffice(s.tree).desks, Selected(s.tree), CurDesk(s.tree);
            var at := if c == '0' then 0 else c as int - '1' as int;
            HandleKey(s, Key(Char(c), false, true, false, false), env) == Outcome(
              if at >= |d.tabs| then s
              else
                var told := Told(s.log, s.focus, d.tabs[d.activeTab].id, false, env) + [Spawned(d.tabs[at].id)];
                s.(tree := With(s.tree, desks[i := d.(activeTab := at)], i),
                   log := Told(told, s.focus, d.tabs[at].id, true, env)), false)
  {
    var d := CurDesk(s.tree);
    var at := if c == '0' then 0 else c as int - '1' as int;
    SameDesks(s.tree);
    if at < |d.tabs| { ReplacingDesk(s.tree, d.(activeTab := at)); }
    hide GoodOffices, WithDesk, With, Told;
  }

  /** A program is told that it has gained or lost the focus only if it asked to be and is in the panel in focus. */
  lemma ToldIff(log: seq<PtyOp>, focus: Jump.Focus, tab: string, gained: bool, env: Env)
    ensures Told(log, focus, tab, gained, env)
            == log + if focus == Jump.Content && tab in env.reporting then [Report(tab, gained)] else []
  {
  }

  // ---- Jump Mode ----

  ghost predicate Jumping(s: State) { Sound(s) && s.modes == NO_MODE.(jumpMode := true) }

  /** Where an arrow leads: left to the sidebar, up to the tab bar; right from the sidebar and down from the bar to the
      terminal. */
  function Towards(from: Jump.Focus, arrow: KeyCode): Jump.Focus {
    if arrow == Left then Jump.Sidebar
    else if arrow == Up then Jump.Topbar
    else if arrow == Right && from == Jump.Sidebar then Jump.Content
    else if arrow == Down && from == Jump.Topbar then Jump.Content
    else from
  }

  lemma JumpModeGetsTheKey(s: State, code: KeyCode, env: Env)
    requires Jumping(s) && !code.Char?
    ensures !StaleHit(s, Bare(code)) && !StaleCommit(s, Bare(code)) && After(s, code, env) == JumpKey(s, Bare(code), env)
  {
    hide Core, JumpKey;
  }

  /** Left, Up, Right and Down lead to the panel on that side, from any panel that has one there. */
  lemma JumpArrows(s: State, arrow: KeyCode, env: Env)
    requires Jumping(s) && arrow in {Left, Up, Right, Down}
    ensures var to := Towards(s.focus, arrow);
            After(s, arrow, env) == if to == s.focus then s else s.(modes := NO_MODE, focus := to)
    ensures After(s, Esc, env) == s.(modes := NO_MODE)
  {
    assert Core(s.tree);
    hide Core, HandleKey, StaleHit, StaleCommit;
    JumpModeGetsTheKey(s, arrow, env);
    JumpModeGetsTheKey(s, Esc, env);
  }

  /** `q` quits; `r` renames what the panel lists, or starts the terminal's program again; `c` in the terminal opens copy
      mode. */
  lemma JumpCommands(s: State, env: Env)
    requires Jumping(s) && s.connected
    ensures var i, d := Selected(s.tree), CurDesk(s.tree);
            var tab := d.tabs[d.activeTab];
            && HandleKey(s, Bare(Char('q')), env) == HandleKey(s, Bare(Char('Q')), env) == Outcome(s, true)
            && After(s, Char('r'), env) == After(s, Char('R'), env) == (
                 match s.focus
                 case Sidebar => s.(modes := NO_MODE.(rename := Some(Renaming(RenameEditor.Desk(i),
                                                                              RenameEditor.Edit(d.name, |d.name|)))))
                 case Topbar => s.(modes := NO_MODE.(rename := Some(Renaming(RenameEditor.Tab(i, d.activeTab),
                                                                             RenameEditor.Edit(tab.name, |tab.name|)))))
                 case Content => s.(modes := NO_MODE, log := s.log + [Closed(tab.id), Spawned(tab.id)]))
            && (s.focus == Jump.Content ==> After(s, Char('c'), env) == s.(modes := NO_MODE.(copyMode := true)))
  {
    hide GoodOffices;
  }

  /** A label's tab is spawned; from the terminal, the program left and the one reached are told, if they asked. */
  lemma LabelTells(s: State, c: char, env: Env)
    requires Core(s.tree) && !Stale(s, c) && Chosen(s, c).Some?
    ensures var r, tab := Jumped(s, c, env), ActiveTab(s.tree).id;
            && Core(r.tree)
            && var next := ActiveTab(r.tree).id;
               var left := if s.focus == Jump.Content && tab in env.reporting then [Report(tab, false)] else [];
               var reached := if s.focus == Jump.Content && next in env.reporting then [Report(next, true)] else [];
               r.log == s.log + left + [Spawned(next)] + reached
  {
    hide Core, Chosen, Reached, ActiveTab;
    assert s.log + [] == s.log;
    assert forall log: seq<PtyOp> :: log + [] == log;
  }

  // ---- copy mode ----

  /** The lines that a key scrolls back, or forth if negative. */
  function CopyScroll(code: KeyCode): int {
    if code == Up || code == Char('k') then 3
    else if code == Down || code == Char('j') then -3
    else if code == PageUp then 20
    else if code == PageDown then -20
    else if code == Char('g') then 1_000_000
    else if code == Char('G') then -1_000_000
    else 0
  }

  lemma CopyModeKeys(s: State, code: KeyCode, env: Env)
    requires Sound(s) && s.modes == NO_MODE.(copyMode := true) && s.connected
    ensures var lines := CopyScroll(code);
            HandleKey(s, Bare(code), env) == Outcome(
              if code == Esc || code == Char('q') then s.(modes := NO_MODE)
              else if lines == 0 then s
              else s.(log := s.log + [Scrolled(ActiveTab(s.tree).id, lines)]), false)
  {
    hide Core;
  }

  // ---- the lists and the confirmation ----

  /** The list of offices ends with an entry for a new one, which Enter creates. */
  lemma SelectorKeys(s: State, env: Env)
    requires Sound(s) && s.modes == NO_MODE.(selectorActive := true) && s.connected
    requires s.selectorIndex.Some? ==> s.selectorIndex.value <= |s.tree.offices|
    ensures var i, n := if s.selectorIndex.Some? then s.selectorIndex.value else 0, |s.tree.offices|;
            && After(s, Up, env) == (if i == 0 then s else s.(selectorIndex := Some(i - 1)))
            && After(s, Down, env) == (if i == n then s else s.(selectorIndex := Some(i + 1)))
            && After(s, Esc, env) == After(s, Char('q'), env) == s.(modes := NO_MODE)
            && (i == n ==>
                  && After(s, Enter, env) == s.(modes := NO_MODE, onboarding := true)
                  && After(s, Char('r'), env) == After(s, Char('d'), env) == s)
            && (i < n ==>
                  var name := s.tree.offices[i].name;
                  && After(s, Char('r'), env)
                     == s.(modes := NO_MODE.(rename := Some(Renaming(RenameEditor.Office(i),
                                                                    RenameEditor.Edit(name, |name|)))))
                  && After(s, Char('d'), env)
                     == (if n == 1 then s else s.(modes := NO_MODE.(officeDelete := Some(OfficeDelete(i, ""))))))
  {
    hide GoodOffices;
  }

  /** Enter on an office: it becomes current with the desk that it remembers, or its last, and its tab is spawned. */
  lemma SelectorEnters(s: State, env: Env)
    requires Sound(s) && s.modes == NO_MODE.(selectorActive := true) && s.connected
    requires s.selectorIndex.Some? && s.selectorIndex.value < |s.tree.offices|
    ensures var i := s.selectorIndex.value;
            var o := s.tree.offices[i];
            var at := if o.activeDesk < |o.desks| then o.activeDesk else |o.desks| - 1;
            && GoodOffice(o)
            && After(s, Enter, env) == s.(tree := With(s.tree.(currentOffice := i), o.desks, at), modes := NO_MODE,
                                         tabScroll := 0, log := s.log + [Spawned(TabOf(o.desks[at]))])
  {
    var i := s.selectorIndex.value;
    var o := s.tree.offices[i];
    var at := if o.activeDesk < |o.desks| then o.activeDesk else |o.desks| - 1;
    assert EnterOffice(s.tree, i).offices == With(s.tree.(currentOffice := i), o.desks, at).offices;
  }

  /** The list of themes stops at its ends. */
  lemma SettingsKeys(s: State, env: Env)
    requires Sound(s) && s.modes == NO_MODE.(showSettings := true) && s.connected
    ensures var i := s.settingsSelected;
            && After(s, Up, env) == s.(settingsSelected := if i == 0 then 0 else i - 1)
            && After(s, Down, env) == s.(settingsSelected := if i == 12 then 12 else i + 1)
            && After(s, Enter, env) == s.(modes := NO_MODE, theme := i)
            && After(s, Esc, env) == After(s, Char('s'), env) == After(s, Char('q'), env) == s.(modes := NO_MODE)
  {
    hide Core;
  }

  /** Closing a desk, once confirmed: its tabs' programs end in order, the desk goes, and the next is selected and
      spawned, or else the last. */
  lemma DeskDeleteKeys(s: State, i: nat, env: Env)
    requires Sound(s) && s.modes == NO_MODE.(deskDelete := Some(i)) && i < |CurOffice(s.tree).desks|
    ensures After(s, Char('n'), env) == After(s, Char('N'), env) == After(s, Esc, env) == s.(modes := NO_MODE)
    ensures After(s, Char('y'), env) == After(s, Char('Y'), env) == After(s, Enter, env)
    ensures var desks := CurOffice(s.tree).desks;
            var rest := desks[..i] + desks[i + 1..];
            var at := if i + 1 < |desks| then i else i - 1;
            var ended := seq(|desks[i].tabs|, j requires 0 <= j < |desks[i].tabs| => Closed(desks[i].tabs[j].id));
            After(s, Enter, env) == (
              if |desks| == 1 then s.(modes := NO_MODE)
              else s.(modes := NO_MODE, tree := With(s.tree, rest, at), tabScroll := 0,
                      log := s.log + ended + [Spawned(TabOf(rest[at]))]))
  {
    hide HandleKey, CloseDeskAt, With, TabOf, GoodOffices;
    DeskDeleteGetsTheKey(s, i, Enter, env);
    DeskDeleteGetsTheKey(s, i, Esc, env);
    DeskDeleteGetsTheKey(s, i, Char('y'), env);
    DeskDeleteGetsTheKey(s, i, Char('Y'), env);
    DeskDeleteGetsTheKey(s, i, Char('n'), env);
    DeskDeleteGetsTheKey(s, i, Char('N'), env);
    ClosingADesk(s.(modes := NO_MODE), i);
  }

  lemma ClosingADesk(s: State, i: nat)
    requires Core(s.tree) && i < |CurOffice(s.tree).desks|
    ensures var desks := CurOffice(s.tree).desks;
            var rest := desks[..i] + desks[i + 1..];
            var at := if i + 1 < |desks| then i else i - 1;
            var ended := seq(|desks[i].tabs|, j requires 0 <= j < |desks[i].tabs| => Closed(desks[i].tabs[j].id));
            CloseDeskAt(s, i) == (
              if |desks| == 1 then s
              else s.(tree := With(s.tree, rest, at), tabScroll := 0, log := s.log + ended + [Spawned(TabOf(rest[at]))]))
  {
    var desks := CurOffice(s.tree).desks;
    if |desks| > 1 {
      var rest := desks[..i] + desks[i + 1..];
      assert RemoveDesk(s.tree, i).offices == With(s.tree, rest, if i + 1 < |desks| then i else i - 1).offices;
    }
  }

  lemma DeskDeleteGetsTheKey(s: State, i: nat, code: KeyCode, env: Env)
    requires Sound(s) && s.modes == NO_MODE.(deskDelete := Some(i)) && code != Char('q') && code != Char('Q')
    ensures After(s, code, env) == DeskDeleteKey(s, Bare(code))
  {
    hide Core, CloseDeskAt;
  }

  /** The name typed to delete an office: characters are appended, Backspace takes the last one off, Esc gives up; Enter
      deletes if it is the office's name and there is another, and closes either way. */
  lemma OfficeDeleteKeys(s: State, i: nat, text: string, c: char, env: Env)
    requires Sound(s) && s.connected && s.modes == NO_MODE.(officeDelete := Some(OfficeDelete(i, text + [c])))
    ensures var asked := (t: string) => s.(modes := NO_MODE.(officeDelete := Some(OfficeDelete(i, t))));
            && After(s, Backspace, env) == asked(text)
            && (forall d :: After(asked(text), Char(d), env) == asked(text + [d]))
            && After(asked(""), Backspace, env) == asked("")
    ensures After(s, Esc, env) == s.(modes := NO_MODE)
    ensures var deletes := text + [c] == s.tree.offices[i].name && |s.tree.offices| > 1;
            var r := if deletes then RemoveOffice(s.tree, i) else s.tree;
            After(s, Enter, env)
            == if deletes then s.(modes := NO_MODE, tree := r, tabScroll := 0, log := s.log + [Spawned(ActiveTab(r).id)])
               else s.(modes := NO_MODE)
  {
    assert (text + [c])[..|text + [c]| - 1] == text;
    hide GoodOffices, RemoveOffice;
  }

  /** The rename dialog: Esc gives up, and a key that edits nothing, as a character with Ctrl, changes nothing. */
  lemma RenameKeys(s: State, k: Key, env: Env)
    requires Sound(s) && s.connected && s.modes.rename.Some? && s.modes == NO_MODE.(rename := s.modes.rename)
    ensures After(s, Esc, env) == s.(modes := NO_MODE)
    ensures k.code in {Up, Down, PageUp, PageDown, Insert, HorizontalTab, BackTab, OtherKey} || (k.code.Char? && k.ctrl) ==>
              !StaleCommit(s, k) && HandleKey(s, k, env) == Outcome(s, false)
  {
    hide Core;
  }

  // ---- quitting ----

  /** The client quits on exactly these keys: without its daemon on `q`, `Q` and Ctrl+C whatever is open; otherwise on
      `q` or `Q` in Jump Mode, and on `q` in the two panels with nothing open. */
  lemma QuitsExactlyOn(s: State, k: Key, env: Env)
    requires Sound(s) && !StaleHit(s, k) && !StaleCommit(s, k)
    ensures HandleKey(s, k, env).quit
            <==> || (!s.connected && (k.code == Char('q') || k.code == Char('Q') || (k.ctrl && k.code == Char('c'))))
                 || (s.modes == s.modes.(copyMode := false, deskDelete := None, officeDelete := None,
                                         selectorActive := false, showSettings := false, jumpMode := true)
                     && (k.code == Char('q') || k.code == Char('Q')))
                 || (s.modes == NO_MODE && s.focus != Jump.Content && k.code == Char('q'))
  {
    hide Core, SidebarKey, TopbarKey, ContentKey, JumpKey, AltDigit, CopyKey, DeskDeleteKey, OfficeDeleteKey;
    hide SelectorKey, RenameKey, StaleHit, StaleCommit;
  }

  // ---- the main loop ----

  /** When the focus has moved into the terminal or out of it since the last pass, a program that asked to be told is told
      which, once. */
  lemma PassTellsOfFocus(s: State, env: Env)
    requires Core(s.tree)
    ensures var tab := ActiveTab(s.tree).id;
            var told := if (s.focus == Jump.Content) != (s.prevFocus == Jump.Content) && tab in env.reporting
                        then [Report(tab, s.focus == Jump.Content)] else [];
            SyncFocus(s, env) == s.(prevFocus := s.focus, log := s.log + told)
    ensures SyncFocus(SyncFocus(s, env), env) == SyncFocus(s, env)
  {
    hide Core;
    assert s.log + [] == s.log;
  }

  /** A pass also notes whether the daemon is there, and sends an Esc that has been held back for 300 milliseconds. */
  lemma PassSendsOldEsc(s: State, env: Env, connected: bool)
    requires Core(s.tree) && s.prevFocus == s.focus
    ensures var due := s.pendingEsc.Some? && env.now >= s.pendingEsc.value + 300_000_000;
            MainPass(s, env, connected, None)
            == if due then s.(connected := connected, pendingEsc := None,
                              log := s.log + [Sent(ActiveTab(s.tree).id, [0x1b])])
               else s.(connected := connected)
  {
    hide Core;
  }

  /** A draw records the rows of the list and the tabs that it shows: consecutive ones, from at most the active one, none
      that is not there; in copy mode it shows neither. */
  lemma DrawRecords(s: State, env: Env, connected: bool, d: Drawn, i: nat)
    requires Core(s.tree)
    ensures var r, tabs, at := MainPass(s, env, connected, Some(d)), |CurDesk(s.tree).tabs|, CurDesk(s.tree).activeTab;
            var first := if d.tabScroll < at then d.tabScroll else at;
            && r.tree == s.tree && r.modes == s.modes && r.connected == connected
            && (s.modes.copyMode ==> r.hits == s.hits.(listHeight := 0, tabIndices := []))
            && (!s.modes.copyMode ==>
                  && r.hits.listHeight == d.listHeight && r.hits.listOffset == d.listOffset && r.tabScroll == first
                  && |r.hits.tabIndices| == (if d.tabsShown <= tabs - first then d.tabsShown else tabs - first)
                  && (i < |r.hits.tabIndices| ==> r.hits.tabIndices[i] == first + i < tabs))
  {
    hide GoodOffices, SyncFocus, FlushTick, ActiveTab;
    PassTouches(s.(connected := connected), env);
  }

  lemma PassTouches(s: State, env: Env)
    requires Core(s.tree)
    ensures var r := FlushTick(SyncFocus(s, env), env.now);
            r == s.(prevFocus := r.prevFocus, pendingEsc := r.pendingEsc, log := r.log)
  {
    hide Core, ActiveTab;
  }

  /** While the onboarding screen is up neither keys nor passes nor pastes do anything; when it closes, the office that it
      made, if any, is the last one and current, at the desk that it names or its last, with that tab spawned. */
  lemma OnboardingEnds(s: State, office: UsableOffice, e: Event)
    requires Sound(s) && s.onboarding && !e.Onboarded?
    ensures Step(s, e) == s && Step(s, Onboarded(None)) == s.(onboarding := false)
    ensures var at := if office.activeDesk < |office.desks| then office.activeDesk else |office.desks| - 1;
            var offices := s.tree.offices + [office.(activeDesk := at)];
            Step(s, Onboarded(Some(office)))
            == s.(tree := Tree(offices, |offices| - 1, Some(at)), tabScroll := 0, onboarding := false,
                  log := s.log + [Spawned(TabOf(office.desks[at]))])
  {
    var at := if office.activeDesk < |office.desks| then office.activeDesk else |office.desks| - 1;
    var more := s.tree.(offices := s.tree.offices + [office]);
    assert EnterOffice(more, |s.tree.offices|).offices == s.tree.offices + [office.(activeDesk := at)];
    hide HandleKey, MainPass;
  }

  /** The client starts in the office and at the desk that were saved, or the last ones there are; without a saved
      office, in one with one desk. */
  lemma StartsWhereSaved(saved: Tree, freshId: string, themeIndex: nat)
    requires themeIndex < THEMES && GoodOffices(saved.offices) && saved.offices != []
    ensures var s, n := Started(Some(saved), freshId, themeIndex), |saved.offices|;
            var c := if saved.currentOffice < n then saved.currentOffice else n - 1;
            var o := saved.offices[c];
            var d := if o.activeDesk < |o.desks| then o.activeDesk else |o.desks| - 1;
            && GoodOffice(o)
            && s.tree == Tree(saved.offices[c := o.(activeDesk := d)], c, Some(d))
            && s.modes == NO_MODE && s.focus == Jump.Sidebar && !s.connected && !s.onboarding
            && s.log == [Spawned(TabOf(o.desks[d]))]
  {
  }

  lemma StartsWithDefault(saved: Option<Tree>, freshId: string, themeIndex: nat)
    requires themeIndex < THEMES && (saved.None? || saved.value.offices == [])
    ensures Started(saved, freshId, themeIndex).tree
            == Tree([Office("Default", [Desk("Desk 1", [Tab(freshId, "Terminal 1")], 0)], 0)], 0, Some(0))
  {
  }

  // ---- everything else ----

  predicate IsLabelKey(c: char) { 'a' <= c <= 'z' || 'A' <= c <= 'Z' || '0' <= c <= '9' }

  /** A label that stands for nothing leaves Jump Mode. */
  lemma UnusedLabelLeaves(s: State, c: char, env: Env)
    requires Jumping(s) && s.connected && IsLabelKey(c) && !JumpCommand(s.focus, c) && Chosen(s, c).None?
    ensures !StaleHit(s, Bare(Char(c))) && After(s, Char(c), env) == s.(modes := NO_MODE)
  {
    hide Core, Chosen;
  }

  /** The keys that some table has for a state. */
  predicate Listed(s: State, code: KeyCode) {
    if s.modes.copyMode then code in {Esc, Char('q')} || CopyScroll(code) != 0
    else if s.modes.deskDelete.Some? then code in {Enter, Esc, Char('y'), Char('Y'), Char('n'), Char('N')}
    else if s.modes.selectorActive then code in {Up, Down, Enter, Esc, Char('q'), Char('r'), Char('d')}
    else if s.modes.showSettings then code in {Up, Down, Enter, Esc, Char('s'), Char('q')}
    else if s.modes.jumpMode then code in {Left, Up, Right, Down, Esc} || (code.Char? && IsLabelKey(code.c))
    else match s.focus
      case Sidebar => code in {Up, Down, Enter, Esc, Char('q'), Char('o'), Char('n'), Char('x'), Char('r'), Char('R'), Char('s')}
      case Topbar => code in {Left, Right, Enter, Esc, Char('q'), Char('n'), Char('x'), Char('r'), Char('R')}
      case Content => true
  }

  /** A key that no table has does nothing. */
  lemma UnlistedKeysDoNothing(s: State, code: KeyCode, env: Env)
    requires Sound(s) && s.connected && OpenModes(s.modes) <= 1 && s.modes.rename.None? && s.modes.officeDelete.None?
    requires !Listed(s, code)
    ensures !StaleHit(s, Bare(code)) && HandleKey(s, Bare(code), env) == Outcome(s, false)
  {
    hide GoodOffices;
  }
}
