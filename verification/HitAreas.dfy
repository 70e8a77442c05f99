/** When the hits of the last draw are out of date: what a label press or a click can then run into, exactly, and
    which events make it so. */
module HitAreas {
  import opened Basics
  import opened Keys
  import opened Workspace
  import opened WorkspaceRuns
  import opened WorkspaceLaws
  import opened Mouse
  import opened MixedRuns
  import Bar = Topbar
  import Jump

  // ---- what stale hits cost ----

  /** Every tab that has a label exists. */
  ghost predicate TargetsExist(s: State)
    requires Core(s.tree)
  {
    forall i :: 0 <= i < |JumpTargets(s)| && JumpTargets(s)[i].TabTarget? ==> JumpTargets(s)[i].tab < |CurDesk(s.tree).tabs|
  }

  /** In Jump Mode no key at all indexes out of range exactly when every tab that has a label exists. */
  lemma JumpModeIsSafeIff(s: State)
    requires Core(s.tree) && s.modes.jumpMode
    ensures (forall k :: !StaleHit(s, k)) <==> TargetsExist(s)
  {
    hide Core, JumpTargets, Jump.Labels, Jump.Position;
    if TargetsExist(s) {
      forall k ensures !StaleHit(s, k) {
        if StaleHit(s, k) { LabelledTargetExists(s, k.code.c); }
      }
    } else {
      var i :| 0 <= i < |JumpTargets(s)| && JumpTargets(s)[i].TabTarget? && JumpTargets(s)[i].tab >= |CurDesk(s.tree).tabs|;
      LabelIsChosen(s, i);
      LabelIsNoCommand(s, i);
      assert StaleHit(s, Bare(Char(Jump.Labels(s.focus)[i])));
    }
  }

  /** When there are labels enough for all that is visible, that is to say that every hit is up to date. */
  lemma TargetsExistIff(s: State)
    requires Core(s.tree)
    requires |s.hits.tabIndices| + |Jump.VisibleDesks(|CurOffice(s.tree).desks|, s.hits.listHeight, s.hits.listOffset)|
             <= |Jump.Labels(s.focus)|
    ensures TargetsExist(s) <==> FreshHits(s)
  {
    var tabs, max, task := s.hits.tabIndices, |Jump.Labels(s.focus)|, Selected(s.tree);
    var desks := Jump.VisibleDesks(|CurOffice(s.tree).desks|, s.hits.listHeight, s.hits.listOffset);
    hide GoodOffices, CurDesk, Jump.Labels, Jump.VisibleDesks, Jump.Targets, Jump.TabSlot, Jump.DeskSlot;
    forall i | 0 <= i < |JumpTargets(s)| ensures JumpTargets(s)[i].TabTarget? ==> JumpTargets(s)[i].tab in tabs {
      Jump.TargetIsListed(s.focus, max, tabs, desks, task, i);
    }
    forall j | 0 <= j < |tabs| ensures Jump.TabTarget(task, tabs[j]) in JumpTargets(s) {
      Jump.TargetsKeepOrder(s.focus, max, tabs, desks, task, j);
    }
    if TargetsExist(s) {
      forall t | t in tabs ensures t < |CurDesk(s.tree).tabs| {
        assert Jump.TabTarget(task, t) in JumpTargets(s);
      }
    }
  }

  lemma LabelledTargetExists(s: State, c: char)
    requires Core(s.tree) && TargetsExist(s)
    ensures !Stale(s, c)
  {
    hide Core, JumpTargets, Jump.Labels, Jump.Position;
  }

  /** With the bar as it was drawn, no click at all indexes out of range exactly when the tab of every area that has
      a width exists. */
  lemma ClicksAreSafeIff(s: State, l: Bar.Layout, drawn: seq<nat>, scroll: nat)
    requires Core(s.tree) && Bar.PanelsApart(l)
    requires Bar.LaidOut(l.topbar, drawn, scroll, l.tabAreas, l.tabIndices, l.newTab)
    ensures (forall last, e, env :: !StaleClick(s, l, last, e, env))
            <==> forall i :: 0 <= i < |l.tabAreas| && l.tabAreas[i].width > 0 ==> l.tabIndices[i] < |CurDesk(s.tree).tabs|
  {
    var tabs := |CurDesk(s.tree).tabs|;
    if i :| 0 <= i < |l.tabAreas| && l.tabAreas[i].width > 0 && l.tabIndices[i] >= tabs {
      StaleAreaIsHit(s, l, drawn, scroll, i);
    } else {
      forall last, e, env ensures !StaleClick(s, l, last, e, env) {
        if StaleClick(s, l, last, e, env) { StaleClickHasArea(s, l, drawn, scroll, last, e, env); }
      }
    }
  }

  lemma StaleAreaIsHit(s: State, l: Bar.Layout, drawn: seq<nat>, scroll: nat, i: nat)
    requires Core(s.tree) && Bar.PanelsApart(l)
    requires Bar.LaidOut(l.topbar, drawn, scroll, l.tabAreas, l.tabIndices, l.newTab)
    requires i < |l.tabAreas| && l.tabAreas[i].width > 0 && l.tabIndices[i] >= |CurDesk(s.tree).tabs|
    ensures exists last, e, env :: StaleClick(s, l, last, e, env)
  {
    var a := l.tabAreas[i];
    var e, env := MouseEvent(ButtonDown(LeftButton), a.x, a.y), Env(0, {}, "");
    assert Bar.InRect(a.x, a.y, a);
    Bar.ClickReachesTab(l, drawn, scroll, i, a.x, a.y, |CurOffice(s.tree).desks|, CurDesk(s.tree).activeTab);
    hide Core, Bar.LaidOut, Bar.InRect;
    assert StaleClick(s, l, None, e, env);
  }

  lemma StaleClickHasArea(s: State, l: Bar.Layout, drawn: seq<nat>, scroll: nat, last: Option<Mouse.Press>, e: MouseEvent,
                          env: Env)
    requires Core(s.tree) && StaleClick(s, l, last, e, env)
    requires Bar.LaidOut(l.topbar, drawn, scroll, l.tabAreas, l.tabIndices, l.newTab)
    ensures exists i :: 0 <= i < |l.tabAreas| && l.tabAreas[i].width > 0 && l.tabIndices[i] >= |CurDesk(s.tree).tabs|
  {
    hide GoodOffices, Bar.Span, IsDouble;
    var tab := Pressed(s, l, last, e, env).value.tab;
    Bar.OnlyItsAreaActivates(l, drawn, scroll, e.col, e.row, IsDouble(last, e, env.now), |CurOffice(s.tree).desks|,
                             CurDesk(s.tree).activeTab, tab);
    assert l.tabAreas[tab - scroll].width > 0;
  }

  // ---- which events make hits stale ----

  /** The tabs that an office shows when it is entered. */
  function EnteredTabs(o: Office): nat
    requires GoodOffice(o)
  {
    |o.desks[Min(o.activeDesk, |o.desks| - 1)].tabs|
  }

  /** How many tabs the selected desk will have after a key, worked out before it. */
  function TabsAfterPlain(s: State, k: Key): nat
    requires Core(s.tree)
  {
    var desks, tabs := CurOffice(s.tree).desks, |CurDesk(s.tree).tabs|;
    if k.code.Esc? || (k.alt && IsDigit(k)) then tabs
    else if s.focus.Sidebar? then
      if k.code.Up? then |desks[Clamp(Selected(s.tree) - 1, |desks| - 1)].tabs|
      else if k.code.Down? then |desks[Clamp(Selected(s.tree) + 1, |desks| - 1)].tabs|
      else if IsChar(k, 'n') then 1
      else tabs
    else if s.focus.Topbar? then
      if IsChar(k, 'n') then tabs + 1
      else if IsChar(k, 'x') && tabs > 1 then tabs - 1
      else tabs
    else tabs
  }

  function TabsAfterLabel(s: State, c: char): nat
    requires Core(s.tree)
  {
    var desks, target := CurOffice(s.tree).desks, Chosen(s, c);
    if target.Some? && target.value.DeskTarget? then |desks[Min(target.value.desk, |desks| - 1)].tabs|
    else |CurDesk(s.tree).tabs|
  }

  function TabsAfterJump(s: State, k: Key): nat
    requires Core(s.tree)
  {
    if k.code.Char? && !JumpCommand(s.focus, k.code.c) && Jump.IsAlphanumeric(k.code.c) then TabsAfterLabel(s, k.code.c)
    else |CurDesk(s.tree).tabs|
  }

  function TabsAfterKey(s: State, k: Key): nat
    requires Sound(s)
  {
    var t, m := s.tree, s.modes;
    var desks, n, tabs := CurOffice(t).desks, |t.offices|, |CurDesk(t).tabs|;
    if Ignored(s, k) || m.copyMode then tabs
    else if m.deskDelete.Some? then
      var i := m.deskDelete.value;
      if (k.code.Enter? || IsChar(k, 'y') || IsChar(k, 'Y')) && i < |desks| && |desks| > 1 then
        |RemoveAt(desks, i)[Min(i, |desks| - 2)].tabs|
      else tabs
    else if m.officeDelete.Some? then
      var d := m.officeDelete.value;
      if k.code.Enter? && d.input == t.offices[d.office].name && n > 1 then
        EnteredTabs(t.offices[Before(Min(t.currentOffice, n - 2), d.office)])
      else tabs
    else if m.selectorActive then
      if k.code.Enter? && SelectorIndex(s) < n then EnteredTabs(t.offices[SelectorIndex(s)]) else tabs
    else if m.showSettings then tabs
    else if m.jumpMode then TabsAfterJump(s, k)
    else if m.rename.Some? then tabs
    else TabsAfterPlain(s, k)
  }

  /** The hits are those of the last draw, and the selected desk has `n` tabs. */
  ghost predicate Leaves(s: State, r: State, n: nat) {
    r.hits == s.hits && Core(r.tree) && |CurDesk(r.tree).tabs| == n
  }

  lemma SelectedTabs(t: Tree, i: nat)
    requires Core(t)
    ensures |CurDesk(SelectDesk(t, i)).tabs| == |CurOffice(t).desks[Min(i, |CurOffice(t).desks| - 1)].tabs|
    ensures |CurDesk(t).tabs| == |CurOffice(t).desks[Selected(t)].tabs|
  {
    hide GoodOffices;
  }

  lemma EnteringTabs(t: Tree, i: nat)
    requires GoodOffices(t.offices) && i < |t.offices|
    ensures |CurDesk(EnterOffice(t, i)).tabs| == EnteredTabs(t.offices[i])
  {
    hide GoodOffices;
  }

  lemma RemovingDeskTabs(t: Tree, i: nat)
    requires Core(t) && i < |CurOffice(t).desks| && |CurOffice(t).desks| > 1
    ensures var desks := CurOffice(t).desks;
            |CurDesk(RemoveDesk(t, i)).tabs| == |RemoveAt(desks, i)[Min(i, |desks| - 2)].tabs|
  {
    hide GoodOffices;
  }

  lemma RemovingOfficeTabs(t: Tree, i: nat)
    requires Core(t) && i < |t.offices| && |t.offices| > 1
    ensures |CurDesk(RemoveOffice(t, i)).tabs|
            == EnteredTabs(t.offices[Before(Min(t.currentOffice, |t.offices| - 2), i)])
  {
    var rest := RemoveAt(t.offices, i);
    var current := if t.currentOffice >= |rest| then |rest| - 1 else t.currentOffice;
    EnteringTabs(t.(offices := rest, currentOffice := current), current);
  }

  lemma SameTree(s: State, r: State)
    requires Core(s.tree) && r.tree == s.tree && r.hits == s.hits
    ensures Leaves(s, r, |CurDesk(s.tree).tabs|)
  {
  }

  lemma DeskDeleteKeyLeaves(s: State, k: Key)
    requires Sound(s) && !Ignored(s, k) && !s.modes.copyMode && s.modes.deskDelete.Some?
    ensures Leaves(s, DeskDeleteKey(s, k), TabsAfterKey(s, k))
  {
    var i := s.modes.deskDelete.value;
    if i < |CurOffice(s.tree).desks| && |CurOffice(s.tree).desks| > 1 { RemovingDeskTabs(s.tree, i); }
    hide GoodOffices, RemoveDesk, ActiveTab, CloseAll;
  }

  lemma OfficeDeleteKeyLeaves(s: State, k: Key)
    requires Sound(s) && !Ignored(s, k) && !s.modes.copyMode && s.modes.deskDelete.None? && s.modes.officeDelete.Some?
    ensures Leaves(s, OfficeDeleteKey(s, k), TabsAfterKey(s, k))
  {
    var d := s.modes.officeDelete.value;
    if k.code.Enter? && d.input == s.tree.offices[d.office].name && |s.tree.offices| > 1 {
      DeletingLeaves(s, k);
      hide Leaves, Core, OfficeDeleteKey, EnteredTabs, CurDesk;
    } else {
      hide Leaves, Core, RemoveOffice, EnteredTabs, CurDesk, Retyped, ActiveTab;
      SameTree(s, OfficeDeleteKey(s, k));
    }
  }

  lemma DeletingLeaves(s: State, k: Key)
    requires Sound(s) && s.modes.officeDelete.Some? && k.code.Enter? && |s.tree.offices| > 1
    requires var d := s.modes.officeDelete.value; d.input == s.tree.offices[d.office].name
    ensures var n := |s.tree.offices|;
            Leaves(s, OfficeDeleteKey(s, k),
                   EnteredTabs(s.tree.offices[Before(Min(s.tree.currentOffice, n - 2), s.modes.officeDelete.value.office)]))
  {
    RemovingOfficeTabs(s.tree, s.modes.officeDelete.value.office);
    hide GoodOffices, RemoveOffice, ActiveTab, EnteredTabs, CurDesk;
  }

  lemma SelectorKeyLeaves(s: State, k: Key)
    requires Sound(s) && !Ignored(s, k) && !s.modes.copyMode && s.modes.deskDelete.None? && s.modes.officeDelete.None?
    requires s.modes.selectorActive
    ensures Leaves(s, SelectorKey(s, k), TabsAfterKey(s, k))
  {
    if k.code.Enter? && SelectorIndex(s) < |s.tree.offices| {
      EnteringLeaves(s, k);
    } else {
      hide Leaves, Core, CurDesk, SelectorIndex, EnteredTabs;
      SelectorKeepsTree(s, k);
      SameTree(s, SelectorKey(s, k));
    }
  }

  lemma EnteringLeaves(s: State, k: Key)
    requires Core(s.tree) && k.code.Enter? && SelectorIndex(s) < |s.tree.offices|
    ensures Leaves(s, SelectorKey(s, k), EnteredTabs(s.tree.offices[SelectorIndex(s)]))
  {
    EnteringTabs(s.tree, SelectorIndex(s));
    hide GoodOffices, EnterOffice, ActiveTab, EnteredTabs, SelectorIndex;
  }

  lemma SelectorKeepsTree(s: State, k: Key)
    requires Core(s.tree) && (k.code.Enter? ==> SelectorIndex(s) >= |s.tree.offices|)
    ensures SelectorKey(s, k).tree == s.tree && SelectorKey(s, k).hits == s.hits
  {
    if k.code.Char? {
      SelectorCharIsQuiet(s, k.code.c);
      SelectorCharKeepsHits(s, k.code.c);
    }
    hide Core, SelectorIndex, SelectorChar;
  }

  lemma SelectorCharKeepsHits(s: State, c: char)
    requires Core(s.tree)
    ensures SelectorChar(s, c).hits == s.hits
  {
    hide Core, SelectorIndex;
  }

  lemma CopyKeyLeaves(s: State, k: Key)
    requires Core(s.tree)
    ensures Leaves(s, CopyKey(s, k), |CurDesk(s.tree).tabs|)
  {
    hide Core, ActiveTab, Leaves, CurDesk;
    SameTree(s, CopyKey(s, k));
  }

  lemma SettingsKeyLeaves(s: State, k: Key)
    requires Core(s.tree)
    ensures Leaves(s, SettingsKey(s, k), |CurDesk(s.tree).tabs|)
  {
    hide Core, Leaves, CurDesk;
    SameTree(s, SettingsKey(s, k));
  }

  lemma CommittingTabs(t: Tree, rename: Renaming)
    requires Core(t) && (Trim(rename.text.chars) != "" ==> RenameInRange(t, rename.target))
    ensures |CurDesk(CommitRename(t, rename)).tabs| == |CurDesk(t).tabs|
  {
    hide Trim, GoodOffices;
  }

  lemma RenameKeyLeaves(s: State, k: Key)
    requires Sound(s) && s.modes.rename.Some? && !Misplaced(s.tree, s.modes.rename.value, k)
    ensures Leaves(s, RenameKey(s, k), |CurDesk(s.tree).tabs|)
  {
    if k.code.Enter? { CommittingTabs(s.tree, s.modes.rename.value); }
    hide Core, CommitRename, Trim, EditOf, RenameInRange, CurDesk;
  }

  lemma JumpKeyLeaves(s: State, k: Key, env: Env)
    requires Sound(s) && s.modes.jumpMode && !StaleHit(s, k) && TabsAfterKey(s, k) == TabsAfterJump(s, k)
    ensures Leaves(s, JumpKey(s, k, env), TabsAfterKey(s, k))
  {
    hide Leaves, Core, Stale, Jumped, JumpCommandKey, CurDesk, TabsAfterKey, JumpCommand, Chosen;
    if k.code.Char? && JumpCommand(s.focus, k.code.c) {
      JumpCommandLeaves(s, k.code.c);
    } else if k.code.Char? && Jump.IsAlphanumeric(k.code.c) {
      JumpedLeaves(s, k.code.c, env);
    } else {
      SameTree(s, JumpKey(s, k, env));
    }
  }

  lemma JumpCommandLeaves(s: State, c: char)
    requires Core(s.tree) && JumpCommand(s.focus, c)
    ensures Leaves(s, JumpCommandKey(s, c), |CurDesk(s.tree).tabs|)
  {
    hide Core, Leaves, CurDesk, ActiveTab, BeginRenameDesk, BeginRenameTab;
    SameTree(s, JumpCommandKey(s, c));
  }

  lemma JumpedLeaves(s: State, c: char, env: Env)
    requires Core(s.tree) && !Stale(s, c)
    ensures Leaves(s, Jumped(s, c, env), TabsAfterLabel(s, c))
  {
    hide Chosen, Core, JumpTo, CurDesk, CurOffice, Leaves;
    if Chosen(s, c).Some? {
      ReachingLeaves(s, Chosen(s, c).value, env);
      LeavesWithModes(s, JumpTo(s, Chosen(s, c).value, env), s.modes.(jumpMode := false), TabsAfterLabel(s, c));
    } else {
      SameTree(s, Jumped(s, c, env));
    }
  }

  lemma LeavesWithModes(s: State, r: State, m: Modes, n: nat)
    requires Leaves(s, r, n)
    ensures Leaves(s, r.(modes := m), n)
  {
  }

  lemma ReachingLeaves(s: State, target: Jump.Target, env: Env)
    requires Core(s.tree) && (target.TabTarget? ==> target.tab < |CurDesk(s.tree).tabs|)
    ensures var desks := CurOffice(s.tree).desks;
            Leaves(s, JumpTo(s, target, env),
                   if target.DeskTarget? then |desks[Min(target.desk, |desks| - 1)].tabs| else |CurDesk(s.tree).tabs|)
  {
    if target.DeskTarget? { SelectedTabs(s.tree, target.desk); }
    hide GoodOffices, SelectDesk, WithDesk, Told, ActiveTab;
  }

  lemma NavLeaves(s: State, delta: int)
    requires Core(s.tree)
    ensures var desks := CurOffice(s.tree).desks;
            Leaves(s, Nav(s, delta), |desks[Clamp(Selected(s.tree) + delta, |desks| - 1)].tabs|)
  {
    NavTouches(s, delta);
    SelectedTabs(s.tree, Clamp(Selected(s.tree) + delta, |CurOffice(s.tree).desks| - 1));
    hide GoodOffices, SelectDesk, ActiveTab, CurDesk;
  }

  lemma SidebarCharLeaves(s: State, c: char, env: Env)
    requires Core(s.tree)
    ensures Leaves(s, SidebarChar(s, c, env), if c == 'n' then 1 else |CurDesk(s.tree).tabs|)
  {
    AddedTabs(s.tree, env.freshId);
    hide Core, AddDesk, ActiveTab, CurDesk, BeginRenameDesk;
  }

  lemma SidebarKeyLeaves(s: State, k: Key, env: Env)
    requires Core(s.tree) && s.focus.Sidebar? && !(k.code.Esc? || (k.alt && IsDigit(k)))
    ensures Leaves(s, SidebarKey(s, k, env), TabsAfterPlain(s, k))
  {
    hide GoodOffices, Nav, SidebarChar, ActiveTab, CurDesk, Leaves, Clamp;
    if k.code.Up? {
      NavLeaves(s, -1);
    } else if k.code.Down? {
      NavLeaves(s, 1);
    } else if k.code.Char? {
      SidebarCharLeaves(s, k.code.c, env);
    } else {
      SameTree(s, SidebarKey(s, k, env));
    }
  }

  lemma AddedTabs(t: Tree, id: string)
    requires Core(t)
    ensures |CurDesk(AddDesk(t, id)).tabs| == 1
  {
    hide GoodOffices;
  }

  lemma TopbarKeyLeaves(s: State, k: Key, env: Env)
    requires Core(s.tree) && s.focus.Topbar? && !(k.code.Esc? || (k.alt && IsDigit(k)))
    ensures Leaves(s, TopbarKey(s, k, env), TabsAfterPlain(s, k))
  {
    hide Core, ActiveTab, WithDesk, CurDesk;
  }

  lemma PlainKeyLeaves(s: State, k: Key, env: Env)
    requires Core(s.tree)
    ensures Leaves(s, PlainKey(s, k, env).state, TabsAfterPlain(s, k))
  {
    var f := if s.focus.Content? then FlushEsc(s) else s;
    FlushingLeaves(s);
    if k.code.Esc? || (k.alt && IsDigit(k)) {
      EscOrAltLeaves(s, k, env);
    } else if s.focus.Sidebar? {
      SidebarKeyLeaves(s, k, env);
    } else if s.focus.Topbar? {
      TopbarKeyLeaves(s, k, env);
    }
    hide Core, ActiveTab, SidebarKey, TopbarKey, EscKey, AltDigit, FlushEsc, CurDesk, EncodeContentKey;
  }

  lemma FlushingLeaves(s: State)
    requires Core(s.tree)
    ensures FlushEsc(s).tree == s.tree && FlushEsc(s).hits == s.hits && FlushEsc(s).focus == s.focus
  {
    hide Core, ActiveTab;
  }

  lemma EscOrAltLeaves(s: State, k: Key, env: Env)
    requires Core(s.tree) && (k.code.Esc? || (k.alt && IsDigit(k)))
    ensures Leaves(s, PlainKey(s, k, env).state, |CurDesk(s.tree).tabs|)
  {
    hide GoodOffices, ActiveTab, WithDesk, Told, Elapsed;
  }

  /** A key leaves the hits of the last draw, and a desk selected with the tabs worked out before it. */
  lemma HandleKeyLeaves(s: State, k: Key, env: Env)
    requires Sound(s) && !StaleHit(s, k) && !StaleCommit(s, k)
    ensures Leaves(s, HandleKey(s, k, env).state, TabsAfterKey(s, k))
  {
    var m := s.modes;
    hide Leaves, CopyKey, DeskDeleteKey, OfficeDeleteKey, SelectorKey, SettingsKey, JumpKey, RenameKey, PlainKey, Core;
    hide StaleHit, Misplaced, CurDesk, TabsAfterPlain, TabsAfterJump, EnteredTabs;
    if Ignored(s, k) {
      SameTree(s, s);
    } else if m.copyMode {
      CopyKeyLeaves(s, k);
    } else if m.deskDelete.Some? {
      DeskDeleteKeyLeaves(s, k);
    } else if m.officeDelete.Some? {
      OfficeDeleteKeyLeaves(s, k);
    } else if m.selectorActive {
      SelectorKeyLeaves(s, k);
    } else if m.showSettings {
      SettingsKeyLeaves(s, k);
    } else if m.jumpMode {
      JumpKeyLeaves(s, k, env);
    } else if m.rename.Some? {
      RenameKeyLeaves(s, k);
    } else {
      PlainKeyLeaves(s, k, env);
    }
  }

  /** How many tabs the selected desk will have after an event of the main loop. */
  function TabsAfterEvent(s: State, e: Event): nat
    requires Sound(s)
  {
    match e
    case Press(k, _) => if s.onboarding then |CurDesk(s.tree).tabs| else TabsAfterKey(s, k)
    case Onboarded(Some(o)) => if s.onboarding then EnteredTabs(o) else |CurDesk(s.tree).tabs|
    case _ => |CurDesk(s.tree).tabs|
  }

  lemma EventLeaves(s: State, e: Event)
    requires Sound(s) && Allowed(s, e) && (Draws(e) ==> s.onboarding)
    ensures Leaves(s, Step(s, e), TabsAfterEvent(s, e))
  {
    match e
    case Press(k, env) => if !s.onboarding { HandleKeyLeaves(s, k, env); } hide HandleKey, Core, TabsAfterKey;
    case Pass(env, connected, _) => if !s.onboarding { PassLeaves(s, env, connected); }
    case Paste(_) => hide Core;
    case Onboarded(office) => if s.onboarding && office.Some? { OnboardingLeaves(s, office.value); }
  }

  lemma PassLeaves(s: State, env: Env, connected: bool)
    requires Core(s.tree)
    ensures Leaves(s, MainPass(s, env, connected, None), |CurDesk(s.tree).tabs|)
  {
    var s1 := s.(connected := connected);
    SyncFocusTouches(s1, env);
    FlushTickTouches(SyncFocus(s1, env), env.now);
    hide Core, SyncFocus, FlushTick, CurDesk;
  }

  lemma OnboardingLeaves(s: State, office: UsableOffice)
    requires Core(s.tree) && s.onboarding
    ensures Leaves(s, FinishOnboarding(s, Some(office)), EnteredTabs(office))
  {
    var offices := s.tree.offices + [office];
    EnteringTabs(s.tree.(offices := offices), |offices| - 1);
    hide GoodOffice, EnterOffice, ActiveTab, EnteredTabs;
  }

  /** A draw brings the hits up to date; any other event leaves them so exactly when the desk it selects has tabs
      enough for every one of them. */
  lemma EventKeepsHitsIff(s: State, e: Event)
    requires Sound(s) && Allowed(s, e)
    ensures Core(Step(s, e).tree)
    ensures if Draws(e) && !s.onboarding then FreshHits(Step(s, e))
            else FreshHits(Step(s, e)) <==> forall t :: t in s.hits.tabIndices ==> t < TabsAfterEvent(s, e)
  {
    StepKeepsSound(s, e);
    hide Core, TabsAfterEvent, HandleKey, MainPass, CurDesk;
    if Draws(e) && !s.onboarding {
      DrawFreshens(s, e.env, e.connected, e.drawn.value);
    } else {
      EventLeaves(s, e);
    }
  }

  /** How many tabs the selected desk will have after a mouse event. */
  function TabsAfterClick(t: Tree, click: Bar.Click): nat
    requires Core(t)
  {
    var desks, tabs := CurOffice(t).desks, |CurDesk(t).tabs|;
    match click
    case SelectDesk(i) => |desks[Min(i, |desks| - 1)].tabs|
    case NewTab => tabs + 1
    case _ => tabs
  }

  function TabsAfterMouse(s: State, l: Bar.Layout, last: Option<Mouse.Press>, e: MouseEvent, env: Env): nat
    requires Core(s.tree)
  {
    var desks := CurOffice(s.tree).desks;
    if Bar.InRect(e.col, e.row, l.content) then |CurDesk(s.tree).tabs|
    else if Pressed(s, l, last, e, env).Some? then TabsAfterClick(s.tree, Pressed(s, l, last, e, env).value)
    else if Bar.InRect(e.col, e.row, l.sidebar) && (e.kind.WheelUp? || e.kind.WheelDown?) then
      |desks[Clamp(Selected(s.tree) + if e.kind.WheelUp? then -1 else 1, |desks| - 1)].tabs|
    else |CurDesk(s.tree).tabs|
  }

  lemma ClickLeaves(s: State, click: Bar.Click, isDouble: bool, env: Env)
    requires Core(s.tree) && (click.ActivateTab? ==> click.tab < |CurDesk(s.tree).tabs|)
    ensures Leaves(s, LeftDown(s, click, isDouble, env), TabsAfterClick(s.tree, click))
  {
    if click.SelectDesk? { SelectedTabs(s.tree, click.desk); }
    hide GoodOffices, SelectDesk, WithDesk, ActiveTab, BeginRenameTab;
  }

  lemma MouseLeaves(s: State, l: Bar.Layout, last: Option<Mouse.Press>, e: MouseEvent, tracking: bool, env: Env)
    requires Core(s.tree) && !StaleClick(s, l, last, e, env)
    ensures Leaves(s, OnMouse(s, l, last, e, tracking, env), TabsAfterMouse(s, l, last, e, env))
  {
    hide Core, InContent, LeftDown, Wheel, CurDesk, CurOffice, Leaves, Bar.InRect, Aim, IsDouble;
    if Bar.InRect(e.col, e.row, l.content) {
      ContentLeaves(s, l.content, e, tracking);
    } else if Pressed(s, l, last, e, env).Some? {
      ClickLeaves(s, Pressed(s, l, last, e, env).value, IsDouble(last, e, env.now), env);
    } else {
      WheelLeaves(s, l, e);
    }
  }

  lemma ContentLeaves(s: State, area: Bar.Rect, e: MouseEvent, tracking: bool)
    requires Core(s.tree)
    ensures Leaves(s, InContent(s, area, e, tracking), |CurDesk(s.tree).tabs|)
  {
    hide Core, ActiveTab, ReportBytes, ButtonCode, CurDesk, Leaves;
    SameTree(s, InContent(s, area, e, tracking));
  }

  lemma WheelLeaves(s: State, l: Bar.Layout, e: MouseEvent)
    requires Core(s.tree)
    ensures var desks := CurOffice(s.tree).desks;
            Leaves(s, Wheel(s, l, e),
                   if Bar.InRect(e.col, e.row, l.sidebar) && (e.kind.WheelUp? || e.kind.WheelDown?)
                   then |desks[Clamp(Selected(s.tree) + if e.kind.WheelUp? then -1 else 1, |desks| - 1)].tabs|
                   else |CurDesk(s.tree).tabs|)
  {
    WheelWalksOrScrolls(s, l, e);
    NavLeaves(s, if e.kind.WheelUp? then -1 else 1);
    SameTree(s, s.(tabScroll := Wheel(s, l, e).tabScroll));
    hide Core, Wheel, Nav, CurDesk, Leaves, Bar.InRect;
  }

  lemma MouseKeepsHitsIff(s: State, l: Bar.Layout, last: Option<Mouse.Press>, e: MouseEvent, tracking: bool, env: Env)
    requires Core(s.tree) && !StaleClick(s, l, last, e, env)
    ensures FreshHits(OnMouse(s, l, last, e, tracking, env))
            <==> forall t :: t in s.hits.tabIndices ==> t < TabsAfterMouse(s, l, last, e, env)
  {
    MouseLeaves(s, l, last, e, tracking, env);
    hide Core, OnMouse, TabsAfterMouse, CurDesk;
  }
}
