/** The client's `App` of src/client/app.rs as the source has it, an object whose handlers change its fields one by
    one, proved to follow the workspace state machine.  Rust owns offices, desks and tabs by value, so they are
    values here too; the rename dialog is the editor object of `RenameEditor`. */
module App {
  import opened Basics
  import opened Keys
  import opened Workspace
  import Jump
  import Bar = Topbar
  import Mouse
  import opened RenameEditor
  import WorkspaceRuns
  import WorkspaceLaws
  import ContentEsc
  import MixedRuns
  import MixedEsc

  class App {
    var offices: seq<Workspace.Office>
    var currentOffice: nat
    var selected: Option<nat>
    var focus: Jump.Focus
    var prevFocus: Jump.Focus
    var jumpMode: bool
    var rename: RenameState?
    var selectorActive: bool
    var selectorIndex: Option<nat>
    var showSettings: bool
    var settingsSelected: nat
    var theme: nat
    var shouldShowOnboarding: bool
    var copyMode: bool
    var officeDelete: Option<OfficeDelete>
    var deskDelete: Option<nat>
    var lastContentEsc: Option<nat>
    var daemonConnected: bool
    var tabScroll: nat
    var tabAreaTabIndices: seq<nat>
    var listOffset: nat
    var contentArea: Bar.Rect
    var newDeskArea: Bar.Rect
    var sidebarArea: Bar.Rect
    var sidebarListArea: Bar.Rect
    var topbarArea: Bar.Rect
    var tabAreas: seq<Bar.Rect>
    var newTabArea: Bar.Rect
    var lastClick: Option<Mouse.Press>
    var log: seq<PtyOp>

    predicate Ok()
      reads `rename, rename
    {
      rename != null ==> rename.Valid()
    }

    function TreeView(): Tree
      reads `offices, `currentOffice, `selected
    {
      Tree(offices, currentOffice, selected)
    }

    function RenameView(): Option<Renaming>
      requires Ok()
      reads `rename, rename
    {
      if rename == null then None else Some(Renaming(rename.target, rename.View()))
    }

    function View(): State
      requires Ok()
      reads this, rename
    {
      State(TreeView(),
            Modes(copyMode, deskDelete, officeDelete, selectorActive, showSettings, jumpMode, RenameView()),
            focus, prevFocus, lastContentEsc, selectorIndex, settingsSelected, theme, shouldShowOnboarding,
            daemonConnected, tabScroll, Hits(sidebarListArea.height, listOffset, tabAreaTabIndices), log)
    }

    predicate Usable()
      reads `offices, `currentOffice, `selected
    {
      Core(TreeView())
    }

    constructor (saved: Option<Tree>, freshId: string, themeIndex: nat)
      ensures Ok() && View() == Initial(saved, freshId, themeIndex)
      ensures LayoutView() == Bar.UNDRAWN && lastClick == None
    {
      var loaded := if saved.Some? && saved.value.offices != [] then saved.value
                    else Tree([Workspace.Office("Default", [Workspace.NewDesk("Desk 1", freshId)], 0)], 0, None);
      var c := if loaded.currentOffice < |loaded.offices| then loaded.currentOffice else |loaded.offices| - 1;
      var office := loaded.offices[c];
      var max := if |office.desks| == 0 then 0 else |office.desks| - 1;
      var activeDesk := if office.activeDesk <= max then office.activeDesk else max;
      offices := loaded.offices[c := office.(activeDesk := activeDesk)];
      currentOffice := c;
      selected := Some(activeDesk);
      focus, prevFocus := Jump.Sidebar, Jump.Sidebar;
      jumpMode, rename, copyMode, officeDelete, deskDelete := false, null, false, None, None;
      selectorActive, selectorIndex := false, Some(0);
      showSettings, settingsSelected, theme := false, themeIndex, themeIndex;
      shouldShowOnboarding, daemonConnected, lastContentEsc := false, false, None;
      tabScroll, tabAreaTabIndices, tabAreas, listOffset, lastClick := 0, [], [], 0, None;
      contentArea, newDeskArea, sidebarArea := Bar.NOWHERE, Bar.NOWHERE, Bar.NOWHERE;
      sidebarListArea, topbarArea, newTabArea := Bar.NOWHERE, Bar.NOWHERE, Bar.NOWHERE;
      log := [];
    }

    // ---- helpers of app.rs ----

    function SelectedDesk(): nat
      reads this
    {
      if selected.Some? then selected.value else 0
    }

    method Record(op: PtyOp)
      modifies `log
      ensures log == old(log) + [op]
    {
      log := log + [op];
    }

    method ActiveId() returns (id: string)
      requires Usable()
      ensures id == ActiveTab(TreeView()).id
    {
      var i := SelectedDesk();
      var at := offices[currentOffice].desks[i].activeTab;
      id := offices[currentOffice].desks[i].tabs[at].id;
    }

    method SpawnActivePty()
      requires Usable()
      modifies `log
      ensures log == old(log) + [Spawned(ActiveTab(TreeView()).id)]
    {
      var id := ActiveId();
      Record(Spawned(id));
    }

    method PtyWrite(bytes: seq<byte>)
      requires Usable()
      modifies `log
      ensures log == old(log) + [Sent(ActiveTab(TreeView()).id, bytes)]
    {
      var id := ActiveId();
      Record(Sent(id, bytes));
    }

    method PtyTrack(report: seq<byte>)
      requires Usable()
      modifies `log
      ensures log == old(log) + [Tracked(ActiveTab(TreeView()).id, report)]
    {
      var id := ActiveId();
      Record(Tracked(id, report));
    }

    method PtyScroll(delta: int)
      requires Usable() && Ok()
      modifies `log
      ensures Ok() && View() == Scroll(old(View()), delta)
    {
      var id := ActiveId();
      Record(Scrolled(id, delta));
    }

    method PtySendFocusEvent(gained: bool, env: Env)
      requires Usable()
      modifies `log
      ensures log == Told(old(log), focus, ActiveTab(TreeView()).id, gained, env)
    {
      if focus != Jump.Content {
        return;
      }
      var id := ActiveId();
      if id in env.reporting {
        Record(Report(id, gained));
      }
    }

    method RestartActivePty()
      requires Usable() && Ok()
      modifies `log
      ensures Ok() && View() == RestartPty(old(View()))
    {
      var id := ActiveId();
      Record(Closed(id));
      SpawnActivePty();
    }

    method SelectDesk(idx: nat)
      requires GoodOffices(offices) && (offices != [] ==> currentOffice < |offices|)
      modifies `offices, `selected
      ensures TreeView() == Workspace.SelectDesk(old(TreeView()), idx)
    {
      if offices == [] {
        selected := None;
        return;
      }
      var max := |offices[currentOffice].desks| - 1;
      var i := if idx <= max then idx else max;
      selected := Some(i);
      offices := offices[currentOffice := offices[currentOffice].(activeDesk := i)];
    }

    method SwitchOffice(idx: nat)
      requires GoodOffices(offices)
      modifies `offices, `selected, `currentOffice, `tabScroll, `log
      ensures idx < |old(offices)| ==> TreeView() == EnterOffice(old(TreeView()), idx) && tabScroll == 0
      ensures idx < |old(offices)| ==> log == old(log) + [Spawned(ActiveTab(TreeView()).id)]
      ensures idx >= |old(offices)| ==> TreeView() == old(TreeView()) && tabScroll == old(tabScroll) && log == old(log)
    {
      if idx < |offices| {
        currentOffice := idx;
        var activeDesk := offices[idx].activeDesk;
        SelectDesk(activeDesk);
        tabScroll := 0;
        SpawnActivePty();
      }
    }

    method NewDesk(env: Env)
      requires Ok() && Usable()
      modifies `offices, `selected, `log
      ensures Ok() && View() == Show(old(View()), AddDesk(old(TreeView()), env.freshId))
    {
      hide ActiveTab, RenameView, Ok;
      ghost var v := View();
      var office := offices[currentOffice];
      var name := "Desk " + Decimal(|office.desks| + 1);
      offices := offices[currentOffice := office.(desks := office.desks + [Workspace.NewDesk(name, env.freshId)])];
      SelectDesk(|offices[currentOffice].desks| - 1);
      SpawnActivePty();
      assert TreeView() == AddDesk(v.tree, env.freshId);
      assert View() == v.(tree := TreeView(), log := log);
    }

    method RequestCloseDesk()
      requires Usable()
      modifies `deskDelete
      ensures deskDelete == if |CurOffice(TreeView()).desks| <= 1 then old(deskDelete) else Some(Selected(TreeView()))
    {
      if |offices[currentOffice].desks| <= 1 {
        return;
      }
      deskDelete := Some(SelectedDesk());
    }

    method CloseDeskAt(idx: nat)
      requires Usable()
      modifies `offices, `selected, `tabScroll, `log
      ensures var desks := CurOffice(old(TreeView())).desks;
              if |desks| <= 1 || idx >= |desks| then
                TreeView() == old(TreeView()) && tabScroll == old(tabScroll) && log == old(log)
              else
                TreeView() == RemoveDesk(old(TreeView()), idx) && tabScroll == 0
                && log == CloseAll(old(log), desks[idx].tabs) + [Spawned(ActiveTab(TreeView()).id)]
    {
      var desks := offices[currentOffice].desks;
      if |desks| <= 1 || idx >= |desks| {
        return;
      }
      CloseTabs(desks[idx].tabs);
      var rest := desks[..idx] + desks[idx + 1..];
      offices := offices[currentOffice := offices[currentOffice].(desks := rest)];
      SelectDesk(if idx <= |rest| - 1 then idx else |rest| - 1);
      tabScroll := 0;
      SpawnActivePty();
    }

    method CloseTabs(tabs: seq<Workspace.Tab>)
      modifies `log
      ensures log == CloseAll(old(log), tabs)
    {
      for i := 0 to |tabs|
        invariant log == CloseAll(old(log), tabs[..i])
      {
        Record(Closed(tabs[i].id));
      }
      assert tabs[..|tabs|] == tabs;
    }

    method Nav(delta: int)
      requires Usable()
      modifies `offices, `selected, `tabScroll, `log
      ensures var i := Clamp(Selected(old(TreeView())) + delta, |CurOffice(old(TreeView())).desks| - 1);
              && TreeView() == Workspace.SelectDesk(old(TreeView()), i) && tabScroll == 0
              && log == if i == Selected(old(TreeView())) then old(log)
                        else old(log) + [Spawned(ActiveTab(TreeView()).id)]
    {
      var max := |offices[currentOffice].desks| - 1;
      var next := SelectedDesk() + delta;
      next := if next < 0 then 0 else if next > max then max else next;
      var changed := SelectedDesk() != next;
      SelectDesk(next);
      tabScroll := 0;
      if changed {
        SpawnActivePty();
      }
    }

    method SetDesk(d: Workspace.Desk)
      requires Usable() && GoodDesk(d)
      modifies `offices
      ensures TreeView() == WithDesk(old(TreeView()), d)
    {
      var office := offices[currentOffice];
      offices := offices[currentOffice := office.(desks := office.desks[SelectedDesk() := d])];
    }

    method BeginRenameDesk(idx: nat)
      requires Ok() && Usable() && idx < |CurOffice(TreeView()).desks|
      modifies `rename
      ensures Ok() && fresh(rename)
      ensures var v := old(View());
              View() == v.(modes := v.modes.(rename := Workspace.BeginRenameDesk(v.tree, idx)))
    {
      var name := offices[currentOffice].desks[idx].name;
      rename := new RenameState(RenameTarget.Desk(idx), name);
    }

    method BeginRenameTab()
      requires Ok() && Usable()
      modifies `rename
      ensures Ok() && fresh(rename)
      ensures var v := old(View()); View() == v.(modes := v.modes.(rename := Workspace.BeginRenameTab(v.tree)))
    {
      var i := SelectedDesk();
      var at := offices[currentOffice].desks[i].activeTab;
      var name := offices[currentOffice].desks[i].tabs[at].name;
      rename := new RenameState(RenameTarget.Tab(i, at), name);
    }

    method SetName(target: RenameTarget, name: string)
      requires Usable() && RenameInRange(TreeView(), target)
      modifies `offices
      ensures TreeView() == Renamed(old(TreeView()), target, name)
    {
      var office := offices[currentOffice];
      match target
      case Desk(i) =>
        var desks := office.desks[i := office.desks[i].(name := name)];
        offices := offices[currentOffice := office.(desks := desks)];
      case Tab(i, at) =>
        var desk := office.desks[i];
        var tabs := desk.tabs[at := desk.tabs[at].(name := name)];
        offices := offices[currentOffice := office.(desks := office.desks[i := desk.(tabs := tabs)])];
      case Office(i) =>
        offices := offices[i := offices[i].(name := name)];
    }

    method CommitRename()
      requires Ok() && Usable() && rename != null
      requires Trim(RenameView().value.text.chars) != "" ==> RenameInRange(TreeView(), rename.target)
      modifies `rename, `offices
      ensures rename == null
      ensures TreeView() == Workspace.CommitRename(old(TreeView()), old(RenameView()).value)
    {
      var r := rename;
      rename := null;
      var name := Trim(r.View().chars);
      if name == "" {
        return;
      }
      SetName(r.target, name);
    }

    // ---- jump.rs ----

    method VisibleDeskIndices() returns (desks: seq<nat>)
      requires Usable()
      ensures desks == Jump.VisibleDesks(|CurOffice(TreeView()).desks|, sidebarListArea.height, listOffset)
    {
      desks := Jump.VisibleDesks(|offices[currentOffice].desks|, sidebarListArea.height, listOffset);
    }

    method JumpToDesk(desk: nat, env: Env)
      requires Usable()
      modifies `offices, `selected, `focus, `log
      ensures TreeView() == Workspace.SelectDesk(old(TreeView()), desk)
      ensures focus == FocusOn(old(focus), Jump.DeskTarget(desk))
      ensures var left := Told(old(log), old(focus), ActiveTab(old(TreeView())).id, false, env);
              var id := ActiveTab(TreeView()).id;
              log == Told(left + [Spawned(id)], focus, id, true, env)
    {
      PtySendFocusEvent(false, env);
      SelectDesk(desk);
      focus := if focus == Jump.Content then Jump.Content else Jump.Sidebar;
      SpawnActivePty();
      PtySendFocusEvent(true, env);
    }

    method JumpToTab(desk: nat, tab: nat, env: Env)
      requires Usable() && desk == SelectedDesk() && tab < |CurDesk(TreeView()).tabs|
      modifies `offices, `focus, `log
      ensures TreeView() == ActivateTab(old(TreeView()), tab)
      ensures focus == FocusOn(old(focus), Jump.TabTarget(desk, tab))
      ensures var left := Told(old(log), old(focus), ActiveTab(old(TreeView())).id, false, env);
              var id := ActiveTab(TreeView()).id;
              log == Told(left + [Spawned(id)], focus, id, true, env)
    {
      PtySendFocusEvent(false, env);
      SetActiveTab(desk, tab);
      focus := if focus == Jump.Content then Jump.Content else Jump.Topbar;
      SpawnActivePty();
      PtySendFocusEvent(true, env);
    }

    method SetActiveTab(desk: nat, tab: nat)
      requires Usable() && desk == SelectedDesk() && tab < |CurDesk(TreeView()).tabs|
      modifies `offices
      ensures TreeView() == ActivateTab(old(TreeView()), tab)
    {
      var office := offices[currentOffice];
      offices := offices[currentOffice := office.(desks := office.desks[desk := office.desks[desk].(activeTab := tab)])];
    }

    /** The target of the label `c`, among the labels and targets worked out anew. */
    method TargetOf(c: char) returns (target: Option<Jump.Target>)
      requires Ok() && Usable()
      ensures target == Chosen(View(), c)
      ensures target.Some? && target.value.TabTarget? ==> target.value.desk == SelectedDesk()
    {
      if Chosen(View(), c).Some? {
        WorkspaceRuns.ChosenIsListed(View(), c);
      }
      var labels := Jump.Labels(focus);
      var desks := VisibleDeskIndices();
      var targets := Jump.JumpTargets(focus, |labels|, tabAreaTabIndices, desks, SelectedDesk());
      var idx := Jump.Position(labels, c);
      target := if idx.Some? && idx.value < |targets| then Some(targets[idx.value]) else None;
    }

    method Reach(target: Jump.Target, env: Env)
      requires Ok() && Usable()
      requires target.TabTarget? ==> target.desk == SelectedDesk() && target.tab < |CurDesk(TreeView()).tabs|
      modifies `offices, `selected, `focus, `log
      ensures Ok() && View() == JumpTo(old(View()), target, env)
    {
      hide Core, Workspace.SelectDesk, ActivateTab, FocusOn, Told, ActiveTab, CurDesk;
      match target
      case DeskTarget(desk) => JumpToDesk(desk, env);
      case TabTarget(desk, tab) => JumpToTab(desk, tab, env);
    }

    method HandleJumpSelection(c: char, env: Env)
      requires Ok() && Usable() && !Stale(View(), c)
      modifies `offices, `selected, `focus, `jumpMode, `log
      ensures Ok() && View() == Jumped(old(View()), c, env)
    {
      var target := TargetOf(c);
      hide Chosen, Core, JumpTo, ActiveTab, CurDesk;
      if target.Some? {
        Reach(target.value, env);
      }
      jumpMode := false;
    }

    // ---- input.rs: one handler per mode ----

    method CopyModeKey(k: Key)
      requires Ok() && Usable()
      modifies `copyMode, `log
      ensures Ok() && View() == CopyKey(old(View()), k)
    {
      hide Core, ActiveTab;
      match k.code
      case Esc => copyMode := false;
      case Up => PtyScroll(3);
      case Down => PtyScroll(-3);
      case PageUp => PtyScroll(20);
      case PageDown => PtyScroll(-20);
      case Char(c) =>
        if c == 'q' {
          copyMode := false;
        } else if c == 'k' {
          PtyScroll(3);
        } else if c == 'j' {
          PtyScroll(-3);
        } else if c == 'g' {
          PtyScroll(1_000_000);
        } else if c == 'G' {
          PtyScroll(-1_000_000);
        }
      case _ =>
    }

    method ConfirmCloseDesk(idx: nat)
      requires Ok() && Usable()
      modifies `deskDelete, `offices, `selected, `tabScroll, `log
      ensures Ok() && View() == Workspace.CloseDeskAt(
                old(View()).(modes := old(View()).modes.(deskDelete := None)), idx)
    {
      hide GoodOffices, RemoveDesk, CloseAll, ActiveTab, CurDesk, RenameView, Ok;
      ghost var v := View();
      deskDelete := None;
      CloseDeskAt(idx);
      assert View() == v.(tree := TreeView(), modes := v.modes.(deskDelete := None), tabScroll := tabScroll, log := log);
      hide View;
    }

    method DeskDeleteKey(k: Key)
      requires Ok() && Usable() && deskDelete.Some?
      modifies `deskDelete, `offices, `selected, `tabScroll, `log
      ensures Ok() && View() == Workspace.DeskDeleteKey(old(View()), k)
    {
      hide Core, Workspace.CloseDeskAt, RenameView;
      var idx := deskDelete.value;
      if IsChar(k, 'y') || IsChar(k, 'Y') || k.code.Enter? {
        ConfirmCloseDesk(idx);
      } else if IsChar(k, 'n') || IsChar(k, 'N') || k.code.Esc? {
        deskDelete := None;
      }
    }

    method DeleteOffice(idx: nat)
      requires Usable() && idx < |offices| && |offices| > 1
      modifies `offices, `currentOffice, `selected, `tabScroll, `log
      ensures TreeView() == RemoveOffice(old(TreeView()), idx) && tabScroll == 0
      ensures log == old(log) + [Spawned(ActiveTab(TreeView()).id)]
    {
      offices := offices[..idx] + offices[idx + 1..];
      if currentOffice >= |offices| {
        currentOffice := |offices| - 1;
      }
      SwitchOffice(currentOffice);
    }

    method ConfirmDeleteOffice(confirm: OfficeDelete)
      requires Ok() && Usable() && confirm.office < |offices|
      modifies `offices, `currentOffice, `selected, `tabScroll, `log
      ensures Ok() && View() == DeleteConfirmed(old(View()), confirm)
    {
      hide Core, GoodOffices, CurOffice, CurDesk, RenameView, Ok;
      ghost var v := View();
      if confirm.input == offices[confirm.office].name && |offices| > 1 {
        DeleteOffice(confirm.office);
      }
      assert View() == v.(tree := TreeView(), tabScroll := tabScroll, log := log);
      hide RemoveOffice, ActiveTab, View;
    }

    method Retype(k: Key)
      requires officeDelete.Some?
      modifies `officeDelete
      ensures officeDelete == Some(old(officeDelete).value.(input := Retyped(old(officeDelete).value.input, k)))
    {
      var confirm := officeDelete.value;
      match k.code
      case Char(c) => officeDelete := Some(confirm.(input := confirm.input + [c]));
      case Backspace =>
        if confirm.input != "" {
          officeDelete := Some(confirm.(input := confirm.input[..|confirm.input| - 1]));
        }
      case _ =>
    }

    method OfficeDeleteKey(k: Key)
      requires Ok() && Usable() && officeDelete.Some? && DialogsUsable(TreeView(), View().modes)
      modifies `officeDelete, `offices, `currentOffice, `selected, `tabScroll, `log
      ensures Ok() && View() == Workspace.OfficeDeleteKey(old(View()), k)
    {
      hide GoodOffices, CurOffice, CurDesk, DeleteConfirmed, Retyped, RenameView, Ok;
      if k.code.Esc? {
        officeDelete := None;
      } else if k.code.Enter? {
        ConfirmDeleteOffice(officeDelete.value);
        officeDelete := None;
      } else {
        Retype(k);
      }
    }

    method SelectorKey(k: Key)
      requires Ok() && Usable()
      modifies `rename, `selectorActive, `selectorIndex, `shouldShowOnboarding, `officeDelete
      modifies `offices, `currentOffice, `selected, `tabScroll, `log
      ensures Ok() && (rename == old(rename) || fresh(rename))
      ensures View() == Workspace.SelectorKey(old(View()), k)
    {
      hide Core, Workspace.SwitchOffice, Workspace.SelectorChar, RenameView;
      var maxIdx := |offices|;
      var index := if selectorIndex.Some? then selectorIndex.value else 0;
      if k.code.Esc? {
        selectorActive := false;
      } else if k.code.Up? {
        if index > 0 {
          selectorIndex := Some(index - 1);
        }
      } else if k.code.Down? {
        if index < maxIdx {
          selectorIndex := Some(index + 1);
        }
      } else if k.code.Char? {
        SelectorChar(k.code.c);
      } else if k.code.Enter? {
        EnterSelected(index);
      }
    }

    method EnterSelected(index: nat)
      requires Ok() && Usable()
      modifies `selectorActive, `shouldShowOnboarding, `offices, `currentOffice, `selected, `tabScroll, `log
      ensures Ok()
      ensures var v := old(View()); var closed := v.modes.(selectorActive := false);
              View() == if index < |v.tree.offices| then Workspace.SwitchOffice(v, index).(modes := closed)
                        else v.(modes := closed, onboarding := true)
    {
      hide GoodOffices, EnterOffice, ActiveTab, CurDesk, RenameView, Ok;
      ghost var v := View();
      if index < |offices| {
        SwitchOffice(index);
      } else {
        shouldShowOnboarding := true;
      }
      selectorActive := false;
      assert View() == v.(tree := TreeView(), modes := v.modes.(selectorActive := false), tabScroll := tabScroll,
                          onboarding := shouldShowOnboarding, log := log);
      hide View;
    }

    method SelectorChar(c: char)
      requires Ok() && Usable()
      modifies `rename, `selectorActive, `officeDelete
      ensures Ok() && (rename == old(rename) || fresh(rename))
      ensures View() == Workspace.SelectorChar(old(View()), c)
    {
      var index := if selectorIndex.Some? then selectorIndex.value else 0;
      if c == 'r' && index < |offices| {
        rename := new RenameState(RenameTarget.Office(index), offices[index].name);
        selectorActive := false;
      } else {
        SelectorCommand(c, index);
      }
    }

    method SelectorCommand(c: char, index: nat)
      requires Ok() && Usable() && index == SelectorIndex(View()) && (c != 'r' || index >= |offices|)
      modifies `selectorActive, `officeDelete
      ensures Ok() && View() == Workspace.SelectorChar(old(View()), c)
    {
      hide RenameView, Ok;
      if c == 'q' {
        selectorActive := false;
      } else if c == 'd' && index < |offices| && |offices| > 1 {
        officeDelete := Some(OfficeDelete(index, ""));
        selectorActive := false;
      }
    }

    method SettingsKey(k: Key)
      requires Ok() && settingsSelected < THEMES
      modifies `showSettings, `settingsSelected, `theme
      ensures Ok() && View() == Workspace.SettingsKey(old(View()), k)
    {
      hide RenameView, Ok;
      if k.code.Esc? || k.code == Char('s') || k.code == Char('q') {
        showSettings := false;
      } else if k.code.Up? {
        if settingsSelected > 0 {
          settingsSelected := settingsSelected - 1;
        }
      } else if k.code.Down? {
        if settingsSelected + 1 < THEMES {
          settingsSelected := settingsSelected + 1;
        }
      } else if k.code.Enter? {
        theme := settingsSelected;
        showSettings := false;
      }
    }

    method JumpCommandKey(c: char)
      requires Ok() && Usable() && JumpCommand(focus, c)
      modifies `rename, `copyMode, `jumpMode, `log
      ensures Ok() && (rename == old(rename) || fresh(rename))
      ensures View() == Workspace.JumpCommandKey(old(View()), c)
    {
      hide RestartPty, Workspace.BeginRenameDesk, Workspace.BeginRenameTab;
      if (c == 'r' || c == 'R') && focus == Jump.Sidebar {
        jumpMode := false;
        BeginRenameDesk(SelectedDesk());
      } else if (c == 'r' || c == 'R') && focus == Jump.Topbar {
        jumpMode := false;
        BeginRenameTab();
      } else {
        CopyOrRestart(c);
      }
    }

    method CopyOrRestart(c: char)
      requires Ok() && Usable() && JumpCommand(focus, c) && ((c != 'r' && c != 'R') || focus == Jump.Content)
      modifies `copyMode, `jumpMode, `log
      ensures Ok() && View() == Workspace.JumpCommandKey(old(View()), c)
    {
      hide RestartPty, RenameView, Ok;
      if c == 'c' {
        copyMode := true;
        jumpMode := false;
      } else if c == 'r' || c == 'R' {
        RestartActivePty();
        jumpMode := false;
      }
    }

    method JumpModeKey(k: Key, env: Env) returns (quit: bool)
      requires Ok() && Usable() && jumpMode && !StaleHit(View(), k)
      modifies `rename, `copyMode, `jumpMode, `focus, `offices, `selected, `log
      ensures Ok() && (rename == old(rename) || fresh(rename))
      ensures View() == Workspace.JumpKey(old(View()), k, env) && quit == (IsChar(k, 'q') || IsChar(k, 'Q'))
    {
      hide Core, Stale, Jumped, Workspace.JumpCommandKey, JumpCommand;
      quit := false;
      if k.code.Char? {
        var c := k.code.c;
        quit := c == 'q' || c == 'Q';
        if JumpCommand(focus, c) {
          JumpCommandKey(c);
        } else if Jump.IsAlphanumeric(c) {
          HandleJumpSelection(c, env);
        }
      } else {
        JumpArrow(k, env);
      }
    }

    method JumpArrow(k: Key, env: Env)
      requires Ok() && Usable() && jumpMode && !StaleHit(View(), k) && !k.code.Char?
      modifies `jumpMode, `focus
      ensures Ok() && View() == Workspace.JumpKey(old(View()), k, env)
    {
      hide Core, RenameView, Ok;
      if k.code.Esc? {
        jumpMode := false;
      } else if k.code.Left? && focus != Jump.Sidebar {
        focus := Jump.Sidebar;
        jumpMode := false;
      } else if (k.code.Down? && focus == Jump.Topbar) || (k.code.Right? && focus == Jump.Sidebar) {
        focus := Jump.Content;
        jumpMode := false;
      } else if k.code.Up? && focus != Jump.Topbar {
        focus := Jump.Topbar;
        jumpMode := false;
      }
    }

    method RenameModeKey(k: Key)
      requires Ok() && Usable() && rename != null && !Misplaced(TreeView(), RenameView().value, k)
      modifies this`rename, this`offices, rename
      ensures Ok() && (rename == null || rename == old(rename))
      ensures View() == Workspace.RenameKey(old(View()), k)
    {
      hide Core, Apply, Workspace.CommitRename, EditOf;
      if k.code.Enter? {
        CommitRename();
      } else if k.code.Esc? {
        rename := null;
      } else {
        EditName(k);
      }
    }

    method EditName(k: Key)
      requires Ok() && rename != null && !k.code.Enter? && !k.code.Esc?
      modifies rename
      ensures Ok()
      ensures rename.View() == if EditOf(k).None? then old(rename.View()) else Apply(old(rename.View()), EditOf(k).value)
    {
      hide Apply;
      match k.code
      case Backspace => rename.Backspace();
      case Delete => rename.Delete();
      case Left => rename.MoveLeft();
      case Right => rename.MoveRight();
      case Home => rename.MoveHome();
      case End => rename.MoveEnd();
      case Char(c) =>
        if !k.ctrl {
          rename.InsertChar(c);
        }
      case _ =>
    }

    // ---- input.rs: keys that no mode intercepts ----

    method FlushContentEsc()
      requires Ok() && Usable()
      modifies `lastContentEsc, `log
      ensures Ok() && View() == FlushEsc(old(View()))
    {
      hide Core, RenameView, Ok;
      if lastContentEsc.Some? {
        lastContentEsc := None;
        PtyWrite(ESC);
      }
    }

    method EscKey(env: Env)
      requires Ok() && Usable()
      modifies `lastContentEsc, `jumpMode, `log
      ensures Ok() && View() == Workspace.EscKey(old(View()), env)
    {
      hide Core, RenameView, Ok;
      if focus != Jump.Content {
        jumpMode := true;
        return;
      }
      if lastContentEsc.Some? {
        if Elapsed(lastContentEsc.value, env.now) < ESC_WINDOW {
          lastContentEsc := None;
          jumpMode := true;
          return;
        }
        lastContentEsc := None;
        PtyWrite(ESC);
      }
      lastContentEsc := Some(env.now);
    }

    method AltDigit(c: char, env: Env)
      requires Ok() && Usable() && '0' <= c <= '9'
      modifies `offices, `log
      ensures Ok() && View() == Workspace.AltDigit(old(View()), c, env)
    {
      var digit := c as int - '0' as int;
      var idx := if digit == 0 then 0 else digit - 1;
      var i := SelectedDesk();
      if idx < |offices[currentOffice].desks[i].tabs| {
        hide Core, GoodOffices, CurOffice, RenameView, Ok, Told, ActivateTab, ActiveTab, Show;
        PtySendFocusEvent(false, env);
        ShowTab(i, idx);
        PtySendFocusEvent(true, env);
      }
    }

    method FocusContent()
      requires Ok() && Usable()
      modifies `focus, `log
      ensures Ok() && View() == Show(old(View()).(focus := Jump.Content), old(TreeView()))
    {
      hide Core, ActiveTab, RenameView, Ok;
      focus := Jump.Content;
      SpawnActivePty();
    }

    method MoveSelection(delta: int)
      requires Ok() && Usable()
      modifies `offices, `selected, `tabScroll, `log
      ensures Ok() && View() == Workspace.Nav(old(View()), delta)
    {
      hide ActiveTab, CurDesk, GoodOffices, Workspace.SelectDesk, RenameView, Ok;
      ghost var v := View();
      Nav(delta);
      assert View() == v.(tree := TreeView(), tabScroll := 0, log := log);
    }

    method SidebarKey(k: Key, env: Env)
      requires Ok() && Usable()
      modifies `selectorActive, `selectorIndex, `deskDelete, `rename, `showSettings, `focus
      modifies `offices, `selected, `tabScroll, `log
      ensures Ok() && (rename == old(rename) || fresh(rename))
      ensures View() == Workspace.SidebarKey(old(View()), k, env)
    {
      hide Core, RenameView, Workspace.SidebarChar, Workspace.Nav, Show;
      if k.code.Up? {
        MoveSelection(-1);
      } else if k.code.Down? {
        MoveSelection(1);
      } else if k.code.Enter? {
        FocusContent();
      } else if k.code.Char? {
        SidebarChar(k.code.c, env);
      }
    }

    method SidebarChar(c: char, env: Env)
      requires Ok() && Usable()
      modifies `selectorActive, `selectorIndex, `deskDelete, `rename, `showSettings
      modifies `offices, `selected, `log
      ensures Ok() && (rename == old(rename) || fresh(rename))
      ensures View() == Workspace.SidebarChar(old(View()), c, env)
    {
      if c == 'r' || c == 'R' {
        BeginRenameDesk(SelectedDesk());
      } else {
        SidebarCommand(c, env);
      }
    }

    method SidebarCommand(c: char, env: Env)
      requires Ok() && Usable() && c != 'r' && c != 'R'
      modifies `selectorActive, `selectorIndex, `deskDelete, `showSettings, `offices, `selected, `log
      ensures Ok() && View() == Workspace.SidebarChar(old(View()), c, env)
    {
      hide GoodOffices, CurDesk, AddDesk, Show, RenameView, Ok;
      if c == 'o' {
        selectorActive := true;
        selectorIndex := Some(currentOffice);
      } else if c == 'n' {
        NewDesk(env);
      } else if c == 'x' {
        RequestCloseDesk();
      } else if c == 's' {
        showSettings := true;
      }
    }

    method ShowTab(i: nat, tab: nat)
      requires Ok() && Usable() && i == SelectedDesk() && tab < |CurDesk(TreeView()).tabs|
      modifies `offices, `log
      ensures Ok() && View() == Show(old(View()), ActivateTab(old(TreeView()), tab))
    {
      hide CurOffice, GoodOffices, ActivateTab, ActiveTab, RenameView, Ok;
      SetActiveTab(i, tab);
      SpawnActivePty();
    }

    method TopbarKey(k: Key, env: Env)
      requires Ok() && Usable()
      modifies `rename, `focus, `offices, `log
      ensures Ok() && (rename == old(rename) || fresh(rename))
      ensures View() == Workspace.TopbarKey(old(View()), k, env)
    {
      hide GoodOffices, RenameView, Workspace.TopbarChar, ActivateTab, Show;
      var i := SelectedDesk();
      var at := offices[currentOffice].desks[i].activeTab;
      var len := |offices[currentOffice].desks[i].tabs|;
      if k.code.Left? {
        if at > 0 {
          ShowTab(i, at - 1);
        }
      } else if k.code.Right? {
        if at + 1 < len {
          ShowTab(i, at + 1);
        }
      } else if k.code.Enter? {
        FocusContent();
      } else if k.code.Char? {
        TopbarChar(k.code.c, env);
      }
    }

    method NewTab(env: Env)
      requires Usable()
      modifies `offices
      ensures TreeView() == WithDesk(old(TreeView()), Workspace.NewTab(CurDesk(old(TreeView())), env.freshId))
    {
      var desk := offices[currentOffice].desks[SelectedDesk()];
      var n := |desk.tabs| + 1;
      var tabs := desk.tabs + [Workspace.Tab(env.freshId, "Terminal " + Decimal(n))];
      SetDesk(desk.(tabs := tabs, activeTab := |tabs| - 1));
    }

    lemma SameDesk(t: Tree)
      requires Core(t)
      ensures WithDesk(t, CurDesk(t)) == t
    {
      var o := CurOffice(t);
      assert o.desks[Selected(t) := CurDesk(t)] == o.desks;
    }

    method CloseTab()
      requires Usable()
      modifies `offices, `log
      ensures var d := CurDesk(old(TreeView()));
              && TreeView() == WithDesk(old(TreeView()), Workspace.CloseTab(d))
              && log == if |d.tabs| <= 1 then old(log) else old(log) + [Closed(ActiveTab(old(TreeView())).id)]
    {
      var desk := offices[currentOffice].desks[SelectedDesk()];
      if |desk.tabs| <= 1 {
        SameDesk(TreeView());
        return;
      }
      Record(Closed(desk.tabs[desk.activeTab].id));
      var tabs := desk.tabs[..desk.activeTab] + desk.tabs[desk.activeTab + 1..];
      SetDesk(desk.(tabs := tabs, activeTab := if desk.activeTab <= |tabs| - 1 then desk.activeTab else |tabs| - 1));
    }

    method TopbarChar(c: char, env: Env)
      requires Ok() && Usable()
      modifies `rename, `offices, `log
      ensures Ok() && (rename == old(rename) || fresh(rename))
      ensures View() == Workspace.TopbarChar(old(View()), c, env)
    {
      hide Core, GoodOffices, CurOffice, WithDesk, Workspace.NewTab, Workspace.CloseTab, Workspace.BeginRenameTab;
      hide ActiveTab;
      if c == 'n' {
        NewTab(env);
        SpawnActivePty();
      } else if c == 'x' {
        CloseTab();
        SpawnActivePty();
      } else if c == 'r' || c == 'R' {
        BeginRenameTab();
      }
    }

    method ContentKey(k: Key)
      requires Ok() && Usable()
      modifies `log
      ensures Ok() && View() == Workspace.ContentKey(old(View()), k)
    {
      hide Core, RenameView, Ok, ActiveTab, EncodeContentKey;
      if k.shift && k.code == PageUp {
        PtyScroll(5);
        return;
      }
      if k.shift && k.code == PageDown {
        PtyScroll(-5);
        return;
      }
      var bytes := EncodeContentKey(k);
      if bytes != [] {
        PtyWrite(bytes);
      }
    }

    method PlainKey(k: Key, env: Env) returns (quit: bool)
      requires Ok() && Usable()
      modifies `lastContentEsc, `jumpMode, `selectorActive, `selectorIndex, `deskDelete, `rename, `showSettings
      modifies `focus, `offices, `selected, `tabScroll, `log
      ensures Ok() && (rename == old(rename) || fresh(rename))
      ensures Outcome(View(), quit) == Workspace.PlainKey(old(View()), k, env)
    {
      hide Core, Workspace.EscKey, Workspace.AltDigit, Workspace.SidebarKey, Workspace.TopbarKey, Workspace.ContentKey;
      hide FlushEsc;
      quit := false;
      if k.ctrl && k.code == Char('z') && focus != Jump.Content {
        return;
      }
      if k.code.Esc? {
        EscKey(env);
        return;
      }
      if focus == Jump.Content {
        FlushContentEsc();
      }
      if k.alt && IsDigit(k) {
        AltDigit(k.code.c, env);
        return;
      }
      match focus
      case Sidebar =>
        quit := IsChar(k, 'q');
        if !quit {
          SidebarKey(k, env);
        }
      case Topbar =>
        quit := IsChar(k, 'q');
        if !quit {
          TopbarKey(k, env);
        }
      case Content => ContentKey(k);
    }

    method HandleKey(k: Key, env: Env) returns (quit: bool)
      requires Ok() && Sound(View()) && !StaleHit(View(), k) && !StaleCommit(View(), k)
      modifies `offices, `currentOffice, `selected, `focus, `jumpMode, `rename, `selectorActive, `selectorIndex
      modifies `showSettings, `settingsSelected, `theme, `shouldShowOnboarding, `copyMode, `officeDelete, `deskDelete
      modifies `lastContentEsc, `tabScroll, `log, rename
      ensures Ok() && (rename == old(rename) || rename == null || fresh(rename))
      ensures Outcome(View(), quit) == Workspace.HandleKey(old(View()), k, env)
    {
      hide Workspace.PlainKey, Workspace.JumpKey, Workspace.RenameKey, Workspace.SettingsKey, Workspace.SelectorKey;
      hide Workspace.OfficeDeleteKey, Workspace.DeskDeleteKey, CopyKey, Core, DialogsInRange, StaleHit, OpenModes;
      quit := false;
      if k.code.Esc? && k.repeated {
        return;
      }
      if !daemonConnected && (k.code == Char('q') || k.code == Char('Q') || (k.ctrl && k.code == Char('c'))) {
        return true;
      }
      if copyMode {
        CopyModeKey(k);
      } else if deskDelete.Some? {
        DeskDeleteKey(k);
      } else if officeDelete.Some? {
        OfficeDeleteKey(k);
      } else if selectorActive {
        SelectorKey(k);
      } else if showSettings {
        SettingsKey(k);
      } else if jumpMode {
        quit := JumpModeKey(k, env);
      } else if rename != null {
        RenameModeKey(k);
      } else {
        quit := PlainKey(k, env);
      }
    }

    // ---- main.rs: the loop around the handlers ----

    method SyncFocusEvents(env: Env)
      requires Ok() && Usable()
      modifies `prevFocus, `log
      ensures Ok() && View() == SyncFocus(old(View()), env)
    {
      hide Core, ActiveTab, RenameView, Ok;
      if prevFocus == focus {
        return;
      }
      var wasContent := prevFocus == Jump.Content;
      var isContent := focus == Jump.Content;
      if isContent || wasContent {
        var id := ActiveId();
        if id in env.reporting {
          Record(Report(id, isContent));
        }
      }
      prevFocus := focus;
    }

    method FlushPendingContentEsc(now: nat)
      requires Ok() && Usable()
      modifies `lastContentEsc, `log
      ensures Ok() && View() == FlushTick(old(View()), now)
    {
      hide Core, RenameView, Ok;
      if lastContentEsc.None? {
        return;
      }
      if Elapsed(lastContentEsc.value, now) >= ESC_WINDOW {
        lastContentEsc := None;
        PtyWrite(ESC);
      }
    }

    method AfterDraw(d: Drawn)
      requires Ok() && Usable()
      modifies `sidebarListArea, `listOffset, `tabScroll, `tabAreaTabIndices
      ensures Ok() && View() == Draw(old(View()), d)
    {
      hide Core, CurOffice, CurDesk, RenameView, Ok, Consecutive;
      ghost var v := View();
      if copyMode {
        sidebarListArea := sidebarListArea.(height := 0);
        tabAreaTabIndices := [];
      } else {
        sidebarListArea := sidebarListArea.(height := d.listHeight);
        listOffset := d.listOffset;
        RecordTabs(d);
      }
      assert View() == v.(hits := Hits(sidebarListArea.height, listOffset, tabAreaTabIndices), tabScroll := tabScroll);
    }

    method RecordTabs(d: Drawn)
      requires Usable()
      modifies `tabScroll, `tabAreaTabIndices
      ensures tabScroll == Min(d.tabScroll, CurDesk(TreeView()).activeTab)
      ensures var shown := Min(d.tabsShown, |CurDesk(TreeView()).tabs| - tabScroll);
              tabAreaTabIndices == Consecutive(tabScroll, shown)
    {
      var desk := offices[currentOffice].desks[SelectedDesk()];
      var scroll := if desk.activeTab < d.tabScroll then desk.activeTab else d.tabScroll;
      var shown := if d.tabsShown <= |desk.tabs| - scroll then d.tabsShown else |desk.tabs| - scroll;
      tabScroll := scroll;
      tabAreaTabIndices := Consecutive(scroll, shown);
    }

    method LoopPass(env: Env, connected: bool, drawn: Option<Drawn>)
      requires Ok() && Usable()
      modifies `daemonConnected, `prevFocus, `lastContentEsc, `sidebarListArea, `listOffset, `tabScroll
      modifies `tabAreaTabIndices, `log
      ensures Ok() && View() == MainPass(old(View()), env, connected, drawn)
      ensures drawn.None? ==> sidebarListArea == old(sidebarListArea) && tabAreaTabIndices == old(tabAreaTabIndices)
    {
      hide SyncFocus, FlushTick, Draw, Core, RenameView, Ok;
      daemonConnected := connected;
      SyncFocusEvents(env);
      FlushPendingContentEsc(env.now);
      if drawn.Some? {
        AfterDraw(drawn.value);
      }
    }

    method FinishOnboarding(office: UsableOffice)
      requires Usable()
      modifies `offices, `currentOffice, `selected, `tabScroll, `log
      ensures var t := old(TreeView());
              TreeView() == EnterOffice(t.(offices := t.offices + [office]), |t.offices|) && tabScroll == 0
      ensures log == old(log) + [Spawned(ActiveTab(TreeView()).id)]
    {
      offices := offices + [office];
      SwitchOffice(|offices| - 1);
    }

    method CloseOnboarding(office: Option<UsableOffice>)
      requires Ok() && Usable()
      modifies `shouldShowOnboarding, `offices, `currentOffice, `selected, `tabScroll, `log
      ensures Ok() && View() == Workspace.FinishOnboarding(old(View()), office)
    {
      hide Core, EnterOffice, ActiveTab, CurOffice, CurDesk, GoodOffices, RenameView, Ok;
      ghost var v := View();
      if shouldShowOnboarding {
        if office.Some? {
          FinishOnboarding(office.value);
        }
        shouldShowOnboarding := false;
      }
      assert View() == v.(tree := TreeView(), tabScroll := tabScroll, onboarding := false, log := log);
    }

    method PastePty(text: string)
      requires Ok() && Sound(View())
      modifies `log
      ensures Ok() && View() == Step(old(View()), Paste(text))
    {
      hide ActiveTab, GoodOffices, RenameView, Ok;
      if !shouldShowOnboarding && focus == Jump.Content {
        var id := ActiveId();
        Record(Pasted(id, text));
      }
    }

    method Handle(e: Event)
      requires Ok() && Sound(View()) && Allowed(View(), e)
      modifies `offices, `currentOffice, `selected, `focus, `jumpMode, `rename, `selectorActive, `selectorIndex
      modifies `showSettings, `settingsSelected, `theme, `shouldShowOnboarding, `copyMode, `officeDelete, `deskDelete
      modifies `lastContentEsc, `tabScroll, `log, `daemonConnected, `prevFocus, `listOffset, rename
      modifies `sidebarListArea, `tabAreaTabIndices
      ensures Ok() && (rename == old(rename) || rename == null || fresh(rename))
      ensures View() == Step(old(View()), e)
      ensures !WorkspaceRuns.Draws(e) || old(shouldShowOnboarding) ==>
                sidebarListArea == old(sidebarListArea) && tabAreaTabIndices == old(tabAreaTabIndices)
    {
      hide Step, View, Sound, Allowed, Ok, RenameView;
      match e
      case Press(k, env) => OnPress(k, env);
      case Pass(env, connected, drawn) => OnPass(env, connected, drawn);
      case Paste(text) => PastePty(text);
      case Onboarded(office) => OnOnboarded(office);
    }

    method OnPress(k: Key, env: Env)
      requires Ok() && Sound(View()) && Allowed(View(), Press(k, env))
      modifies `offices, `currentOffice, `selected, `focus, `jumpMode, `rename, `selectorActive, `selectorIndex
      modifies `showSettings, `settingsSelected, `theme, `shouldShowOnboarding, `copyMode, `officeDelete, `deskDelete
      modifies `lastContentEsc, `tabScroll, `log, rename
      ensures Ok() && (rename == old(rename) || rename == null || fresh(rename))
      ensures View() == Step(old(View()), Press(k, env))
    {
      hide Workspace.HandleKey, ActiveTab, StaleHit, StaleCommit, Core, RenameView;
      if !shouldShowOnboarding {
        var _ := HandleKey(k, env);
      }
    }

    method OnPass(env: Env, connected: bool, drawn: Option<Drawn>)
      requires Ok() && Sound(View())
      modifies `daemonConnected, `prevFocus, `lastContentEsc, `sidebarListArea, `listOffset, `tabScroll
      modifies `tabAreaTabIndices, `log
      ensures Ok() && View() == Step(old(View()), Pass(env, connected, drawn))
      ensures drawn.None? || shouldShowOnboarding ==>
                sidebarListArea == old(sidebarListArea) && tabAreaTabIndices == old(tabAreaTabIndices)
    {
      hide MainPass, ActiveTab, Core, RenameView;
      if !shouldShowOnboarding {
        LoopPass(env, connected, drawn);
      }
    }

    method OnOnboarded(office: Option<UsableOffice>)
      requires Ok() && Sound(View())
      modifies `shouldShowOnboarding, `offices, `currentOffice, `selected, `tabScroll, `log
      ensures Ok() && View() == Step(old(View()), Onboarded(office))
    {
      hide Workspace.FinishOnboarding, ActiveTab, Core, RenameView;
      CloseOnboarding(office);
    }

    /** The event loop, over any safe run: the object is where the state machine is, and in a valid state.  So in its
        own log the active tab is still spawned if it was, and, from a log without key bytes on a clock that does not
        run backwards, what was sent and is held back is what was typed. */
    method EventLoop(es: seq<Event>, ghost now: nat)
      requires Ok() && Valid(View()) && WorkspaceRuns.Safe(View(), es)
      modifies this, rename
      ensures Ok() && View() == WorkspaceRuns.Run(old(View()), es) && Valid(View())
      ensures WorkspaceLaws.Live(old(View())) ==> WorkspaceLaws.Live(View())
      ensures ContentEsc.Deliveries(old(log)) == [] && old(lastContentEsc).None? && ContentEsc.Clocked(es, now) ==>
                ContentEsc.Deliveries(log) + ContentEsc.HeldBack(View())
                == ContentEsc.Kept(ContentEsc.Presses(old(View()), es))
    {
      ghost var s := View();
      RunAll(es);
      hide Core, DialogsInRange, OpenModes, WorkspaceLaws.Live, WorkspaceRuns.Safe, WorkspaceRuns.Run, RenameView, Ok;
      if WorkspaceLaws.Live(s) { WorkspaceLaws.RunKeepsLive(s, es); }
      if ContentEsc.Deliveries(s.log) == [] && s.pendingEsc.None? && ContentEsc.Clocked(es, now) {
        ContentEsc.NothingLostOrReordered(s, es, now);
      }
    }

    method RunAll(es: seq<Event>)
      requires Ok() && Valid(View()) && WorkspaceRuns.Safe(View(), es)
      modifies this, rename
      ensures Ok() && View() == WorkspaceRuns.Run(old(View()), es) && Valid(View())
    {
      hide Step, Allowed, Core, DialogsInRange, OpenModes;
      ghost var s := View();
      var i := 0;
      while i < |es|
        invariant 0 <= i <= |es| && Ok() && Valid(View()) && WorkspaceRuns.Safe(View(), es[i..])
        invariant rename == old(rename) || rename == null || fresh(rename)
        invariant WorkspaceRuns.Run(View(), es[i..]) == WorkspaceRuns.Run(s, es)
      {
        WorkspaceRuns.StepKeepsValid(View(), es[i]);
        Handle(es[i]);
        i := i + 1;
      }
    }

    // ---- mouse.rs ----

    function LayoutView(): Bar.Layout
      reads this
    {
      Bar.Layout(contentArea, newDeskArea, sidebarListArea, topbarArea, sidebarArea, tabAreas, tabAreaTabIndices,
                 newTabArea)
    }

    method MouseInContent(e: Mouse.MouseEvent, tracking: bool)
      requires Ok() && Usable()
      modifies `focus, `log
      ensures Ok() && View() == Mouse.InContent(old(View()), contentArea, e, tracking)
    {
      hide Core, ActiveTab, RenameView, Ok, Mouse.ReportBytes, Mouse.ButtonCode;
      if focus != Jump.Content {
        focus := Jump.Content;
      }
      if tracking {
        var code := Mouse.ButtonCode(e.kind);
        if code.Some? {
          PtyTrack(Mouse.ReportBytes(code.value, contentArea, e));
        }
      } else if e.kind.WheelUp? {
        PtyScroll(3);
      } else if e.kind.WheelDown? {
        PtyScroll(-3);
      }
    }

    method ClickDesk(desk: nat, isDouble: bool, env: Env)
      requires Ok() && Usable()
      modifies `offices, `selected, `focus, `log
      ensures Ok() && View() == Mouse.LeftDown(old(View()), Bar.SelectDesk(desk), isDouble, env)
    {
      hide GoodOffices, CurDesk, ActiveTab, Workspace.SelectDesk, RenameView, Ok, Show;
      ghost var v := View();
      SelectDesk(desk);
      assert View() == v.(tree := TreeView());
      if isDouble {
        FocusContent();
        ShowFocused(v, TreeView());
      } else {
        focus := Jump.Sidebar;
      }
    }

    lemma ShowFocused(s: State, t: Tree)
      requires Core(t)
      ensures Show(s.(tree := t, focus := Jump.Content), t) == Show(s.(focus := Jump.Content), t)
    {
    }

    method ClickBar(click: Bar.Click, env: Env)
      requires Ok() && Usable() && (click.NewTab? || click.ActivateTab? || click.RenameTab? || click.FocusTopbar?)
      requires click.ActivateTab? ==> click.tab < |CurDesk(TreeView()).tabs|
      modifies `offices, `focus, `rename, `log
      ensures Ok() && (rename == old(rename) || fresh(rename))
      ensures View() == Mouse.LeftDown(old(View()), click, false, env)
    {
      hide GoodOffices, ActivateTab, WithDesk, Workspace.NewTab, Workspace.BeginRenameTab;
      focus := Jump.Topbar;
      if click.RenameTab? {
        BeginRenameTab();
      } else {
        ClickTab(click, env);
      }
    }

    method ClickTab(click: Bar.Click, env: Env)
      requires Ok() && Usable() && (click.ActivateTab? ==> click.tab < |CurDesk(TreeView()).tabs|)
      modifies `offices, `log
      ensures Ok()
      ensures var v := old(View());
              View() == if click.NewTab? then Show(v, WithDesk(v.tree, Workspace.NewTab(CurDesk(v.tree), env.freshId)))
                        else if click.ActivateTab? then Show(v, ActivateTab(v.tree, click.tab))
                        else v
    {
      hide CurOffice, GoodOffices, ActivateTab, WithDesk, Workspace.NewTab, ActiveTab, RenameView, Ok;
      if click.NewTab? {
        NewTab(env);
        SpawnActivePty();
      } else if click.ActivateTab? {
        SetActiveTab(SelectedDesk(), click.tab);
        SpawnActivePty();
      }
    }

    method OnClick(click: Bar.Click, isDouble: bool, env: Env)
      requires Ok() && Usable() && (click.ActivateTab? ==> click.tab < |CurDesk(TreeView()).tabs|)
      requires !click.ToContent?
      modifies `offices, `selected, `focus, `rename, `selectorActive, `selectorIndex, `log
      ensures Ok() && (rename == old(rename) || fresh(rename))
      ensures View() == Mouse.LeftDown(old(View()), click, isDouble, env)
    {
      hide Core, GoodOffices, ActivateTab, WithDesk, Workspace.NewTab, Workspace.SelectDesk, Show;
      if click.OpenSelector? {
        selectorActive := true;
        selectorIndex := Some(currentOffice);
      } else if click.SelectDesk? {
        ClickDesk(click.desk, isDouble, env);
      } else if click.FocusSidebar? {
        focus := Jump.Sidebar;
      } else if !click.Nowhere? {
        ClickBar(click, env);
      }
    }

    method TurnWheel(e: Mouse.MouseEvent)
      requires Ok() && Usable()
      modifies `offices, `selected, `tabScroll, `log
      ensures Ok() && View() == Mouse.Wheel(old(View()), old(LayoutView()), e)
    {
      hide Core, Workspace.Nav, Bar.InRect, RenameView, Ok;
      if Bar.InRect(e.col, e.row, sidebarArea) && (e.kind.WheelUp? || e.kind.WheelDown?) {
        MoveSelection(if e.kind.WheelUp? then -1 else 1);
      } else if Bar.InRect(e.col, e.row, topbarArea) {
        ScrollBar(e.kind);
      }
    }

    method ScrollBar(kind: Mouse.MouseKind)
      requires Usable()
      modifies `tabScroll
      ensures tabScroll == (
                if kind.WheelUp? || kind.WheelLeft? then Mouse.Sub(old(tabScroll), 1)
                else if (kind.WheelDown? || kind.WheelRight?) && old(tabScroll) < |CurDesk(TreeView()).tabs| - 1
                  then old(tabScroll) + 1
                else old(tabScroll))
    {
      var max := |offices[currentOffice].desks[SelectedDesk()].tabs| - 1;
      if kind.WheelUp? || kind.WheelLeft? {
        tabScroll := if tabScroll == 0 then 0 else tabScroll - 1;
      } else if (kind.WheelDown? || kind.WheelRight?) && tabScroll < max {
        tabScroll := tabScroll + 1;
      }
    }

    method HandleMouse(e: Mouse.MouseEvent, tracking: bool, env: Env)
      requires Ok() && Usable() && !Mouse.StaleClick(View(), LayoutView(), lastClick, e, env)
      modifies `offices, `selected, `focus, `rename, `selectorActive, `selectorIndex, `tabScroll, `lastClick, `log
      ensures Ok() && (rename == old(rename) || fresh(rename))
      ensures View() == Mouse.OnMouse(old(View()), old(LayoutView()), old(lastClick), e, tracking, env)
      ensures lastClick == if Mouse.Pressed(old(View()), old(LayoutView()), old(lastClick), e, env).Some?
                           then Some(Mouse.Press(e.col, e.row, env.now)) else old(lastClick)
    {
      hide Core, Mouse.InContent, Mouse.LeftDown, Mouse.Wheel, Mouse.IsDouble, Mouse.Aim, Bar.InRect;
      if Bar.InRect(e.col, e.row, contentArea) {
        MouseInContent(e, tracking);
      } else if e.kind == Mouse.ButtonDown(Mouse.LeftButton) {
        var isDouble := Mouse.IsDouble(lastClick, e, env.now);
        var click := AimedAt(e, isDouble);
        OnClick(click, isDouble, env);
        lastClick := Some(Mouse.Press(e.col, e.row, env.now));
      } else {
        TurnWheel(e);
      }
    }

    /** The rectangles that a draw records beside what `AfterDraw` does. */
    method PlaceAreas(areas: Bar.Layout)
      requires Ok()
      modifies `contentArea, `newDeskArea, `sidebarArea, `sidebarListArea, `topbarArea, `tabAreas, `newTabArea
      ensures Ok() && View() == old(View()) && LayoutView() == MixedRuns.Fitted(areas, View().hits)
    {
      hide View, Ok, MixedRuns.OneForEach;
      PlaceSidebar(areas);
      PlacePanels(areas);
      PlaceTabs(areas);
    }

    method PlaceSidebar(areas: Bar.Layout)
      requires Ok()
      modifies `sidebarListArea, `newDeskArea
      ensures Ok() && View() == old(View()) && newDeskArea == areas.selector
      ensures sidebarListArea == areas.deskList.(height := View().hits.listHeight)
    {
      hide RenameView, Ok, TreeView;
      ghost var v := View();
      newDeskArea := areas.selector;
      sidebarListArea := areas.deskList.(height := sidebarListArea.height);
      assert View() == v.(hits := Hits(sidebarListArea.height, listOffset, tabAreaTabIndices));
    }

    method PlacePanels(areas: Bar.Layout)
      requires Ok()
      modifies `contentArea, `sidebarArea, `topbarArea
      ensures Ok() && View() == old(View())
      ensures contentArea == areas.content && sidebarArea == areas.sidebar && topbarArea == areas.topbar
    {
      hide RenameView, Ok, TreeView;
      contentArea, sidebarArea, topbarArea := areas.content, areas.sidebar, areas.topbar;
    }

    method PlaceTabs(areas: Bar.Layout)
      requires Ok()
      modifies `tabAreas, `newTabArea
      ensures Ok() && View() == old(View()) && tabAreaTabIndices == View().hits.tabIndices
      ensures tabAreas == MixedRuns.OneForEach(areas.tabAreas, |tabAreaTabIndices|) && newTabArea == areas.newTab
    {
      hide RenameView, Ok, TreeView, MixedRuns.OneForEach;
      tabAreas, newTabArea := MixedRuns.OneForEach(areas.tabAreas, |tabAreaTabIndices|), areas.newTab;
    }

    function ScreenView(): MixedRuns.Screen
      requires Ok()
      reads this, rename
    {
      MixedRuns.Screen(View(), LayoutView(), lastClick)
    }

    method OnEvent(e: Event, areas: Bar.Layout)
      requires Ok() && Sound(View()) && MixedRuns.Fine(ScreenView(), MixedRuns.Loop(e, areas))
      modifies this, rename
      ensures Ok() && (rename == old(rename) || rename == null || fresh(rename))
      ensures ScreenView() == MixedRuns.MixedStep(old(ScreenView()), MixedRuns.Loop(e, areas))
    {
      var active := IsActive();
      hide Step, Sound, Core, Allowed, Ok, View, RenameView, LayoutView, MixedRuns.Fitted;
      if active && WorkspaceRuns.Draws(e) {
        OnDraw(e, areas);
      } else {
        OnOther(e);
      }
    }

    method OnOther(e: Event)
      requires Ok() && Sound(View()) && Allowed(View(), e) && (WorkspaceRuns.Draws(e) ==> View().onboarding)
      modifies this, rename
      ensures Ok() && (rename == old(rename) || rename == null || fresh(rename))
      ensures View() == Step(old(View()), e) && lastClick == old(lastClick) && LayoutView() == old(LayoutView())
    {
      hide Step, Sound, Core, Allowed, Ok, RenameView;
      Handle(e);
    }

    method OnDraw(e: Event, areas: Bar.Layout)
      requires Ok() && Sound(View()) && Allowed(View(), e)
      modifies this, rename
      ensures Ok() && (rename == old(rename) || rename == null || fresh(rename))
      ensures View() == Step(old(View()), e) && lastClick == old(lastClick)
      ensures LayoutView() == MixedRuns.Fitted(areas, View().hits)
    {
      hide Step, Sound, Core, Allowed, Ok, RenameView, MixedRuns.Fitted;
      Handle(e);
      PlaceAreas(areas);
    }

    lemma SeenIsLayout()
      requires Ok()
      ensures MixedRuns.Seen(ScreenView()) == LayoutView()
    {
      hide RenameView, TreeView, Ok;
    }

    method OnPointer(e: Mouse.MouseEvent, tracking: bool, env: Env)
      requires Ok() && Sound(View()) && MixedRuns.Fine(ScreenView(), MixedRuns.Pointer(e, tracking, env))
      modifies this, rename
      ensures Ok() && (rename == old(rename) || rename == null || fresh(rename))
      ensures ScreenView() == MixedRuns.MixedStep(old(ScreenView()), MixedRuns.Pointer(e, tracking, env))
    {
      SeenIsLayout();
      var active := IsActive();
      hide Core, Ok, View, LayoutView, Mouse.OnMouse, Mouse.StaleClick, Mouse.Pressed, MixedRuns.Seen;
      if active {
        Point(e, tracking, env);
      }
    }

    method IsActive() returns (active: bool)
      requires Ok()
      ensures active == !View().onboarding
    {
      active := !shouldShowOnboarding;
    }

    method Point(e: Mouse.MouseEvent, tracking: bool, env: Env)
      requires Ok() && Usable() && !Mouse.StaleClick(View(), LayoutView(), lastClick, e, env)
      modifies this
      ensures Ok() && (rename == old(rename) || fresh(rename)) && LayoutView() == old(LayoutView())
      ensures View() == Mouse.OnMouse(old(View()), old(LayoutView()), old(lastClick), e, tracking, env)
      ensures lastClick == if Mouse.Pressed(old(View()), old(LayoutView()), old(lastClick), e, env).Some?
                           then Some(Mouse.Press(e.col, e.row, env.now)) else old(lastClick)
    {
      hide Core, Ok, View, Mouse.OnMouse, Mouse.StaleClick, Mouse.Pressed;
      HandleMouse(e, tracking, env);
    }

    method OnInput(i: MixedRuns.Input)
      requires Ok() && Sound(View()) && MixedRuns.Fine(ScreenView(), i)
      modifies this, rename
      ensures Ok() && (rename == old(rename) || rename == null || fresh(rename))
      ensures ScreenView() == MixedRuns.MixedStep(old(ScreenView()), i)
    {
      hide Sound, MixedRuns.Fine, MixedRuns.MixedStep, Ok, View, LayoutView;
      match i
      case Loop(e, areas) => OnEvent(e, areas);
      case Pointer(e, tracking, env) => OnPointer(e, tracking, env);
    }

    /** The event loop with the mouse, over any run whose indices stay in range: the object is where the model of mixed
        runs is.  So in its own log, from one without key bytes on a clock that does not run backwards, what was sent
        and is held back is what was typed, with every key but an Esc for the tab it was typed in. */
    method MixedLoop(ins: seq<MixedRuns.Input>, ghost now: nat)
      requires Ok() && Sound(View()) && MixedRuns.FineRun(ScreenView(), ins)
      modifies this, rename
      ensures Ok() && Sound(View()) && ScreenView() == MixedRuns.MixedRun(old(ScreenView()), ins)
      ensures ContentEsc.Deliveries(old(log)) == [] && old(lastContentEsc).None? && MixedEsc.InTime(ins, now) ==>
                MixedEsc.SameBytes(ContentEsc.Deliveries(log) + ContentEsc.HeldBack(View()),
                                   ContentEsc.Kept(MixedEsc.AsTyped(old(ScreenView()), ins)))
    {
      ghost var m := ScreenView();
      RunInputs(ins);
      hide Sound, MixedRuns.FineRun, MixedRuns.MixedRun, MixedEsc.AsTyped, MixedEsc.SameBytes, MixedEsc.InTime, Ok;
      hide ContentEsc.Deliveries, ContentEsc.Kept, RenameView;
      if ContentEsc.Deliveries(m.app.log) == [] && m.app.pendingEsc.None? && MixedEsc.InTime(ins, now) {
        MixedEsc.MixedNothingLost(m, ins, now);
      }
    }

    method RunInputs(ins: seq<MixedRuns.Input>)
      requires Ok() && Sound(View()) && MixedRuns.FineRun(ScreenView(), ins)
      modifies this, rename
      ensures Ok() && Sound(View()) && ScreenView() == MixedRuns.MixedRun(old(ScreenView()), ins)
    {
      hide Sound, MixedRuns.Fine, MixedRuns.MixedStep, MixedRuns.FineRun, MixedRuns.MixedRun, Ok, View, LayoutView;
      ghost var m := ScreenView();
      var i := 0;
      assert ins[0..] == ins;
      while i < |ins|
        invariant 0 <= i <= |ins| && Ok() && Sound(View()) && MixedRuns.FineRun(ScreenView(), ins[i..])
        invariant rename == old(rename) || rename == null || fresh(rename)
        invariant MixedRuns.MixedRun(ScreenView(), ins[i..]) == MixedRuns.MixedRun(m, ins)
      {
        MixedEsc.RunUnfolds(ScreenView(), ins[i..], []);
        assert ins[i..][1..] == ins[i + 1..];
        OnInput(ins[i]);
        i := i + 1;
      }
      MixedEsc.RunUnfolds(ScreenView(), ins[i..], []);
    }

    method AimedAt(e: Mouse.MouseEvent, isDouble: bool) returns (click: Bar.Click)
      requires Ok() && Usable() && !Bar.InRect(e.col, e.row, contentArea)
      ensures click == Mouse.Aim(View(), LayoutView(), e.col, e.row, isDouble) && !click.ToContent?
    {
      var desk := offices[currentOffice].desks[SelectedDesk()];
      click := Bar.LeftPress(LayoutView(), e.col, e.row, isDouble, |offices[currentOffice].desks|, desk.activeTab);
    }
  }

  /** The client from its start to the end of its loop. */
  method RunClient(saved: Option<Tree>, freshId: string, themeIndex: nat, es: seq<Event>, ghost now: nat)
    returns (app: App)
    requires themeIndex < THEMES && (saved.Some? ==> GoodOffices(saved.value.offices))
    requires WorkspaceRuns.Safe(Started(saved, freshId, themeIndex), es) && ContentEsc.Clocked(es, now)
    ensures app.Ok() && app.View() == WorkspaceRuns.Run(Started(saved, freshId, themeIndex), es)
    ensures Valid(app.View()) && WorkspaceLaws.Live(app.View())
    ensures ContentEsc.Deliveries(app.log) + ContentEsc.HeldBack(app.View())
            == ContentEsc.Kept(ContentEsc.Presses(Started(saved, freshId, themeIndex), es))
  {
    app := new App(saved, freshId, themeIndex);
    ghost var start := Initial(saved, freshId, themeIndex);
    StartsValidIff(saved, freshId, themeIndex);
    WorkspaceLaws.ShowIsLive(start, start.tree);
    ContentEsc.ShowIsQuiet(start, start.tree);
    app.SpawnActivePty();
    assert app.View() == Started(saved, freshId, themeIndex);
    hide Loaded, Initial, Core, DialogsInRange, OpenModes, WorkspaceLaws.Live;
    app.EventLoop(es, now);
  }

  /** The client from its start, with the mouse. */
  method RunMixedClient(saved: Option<Tree>, freshId: string, themeIndex: nat, ins: seq<MixedRuns.Input>, ghost now: nat)
    returns (app: App)
    requires themeIndex < THEMES && (saved.Some? ==> GoodOffices(saved.value.offices))
    requires MixedRuns.FineRun(StartScreen(saved, freshId, themeIndex), ins) && MixedEsc.InTime(ins, now)
    ensures app.Ok() && app.ScreenView() == MixedRuns.MixedRun(StartScreen(saved, freshId, themeIndex), ins)
    ensures Sound(app.View())
    ensures MixedEsc.SameBytes(ContentEsc.Deliveries(app.log) + ContentEsc.HeldBack(app.View()),
                               ContentEsc.Kept(MixedEsc.AsTyped(StartScreen(saved, freshId, themeIndex), ins)))
  {
    app := new App(saved, freshId, themeIndex);
    ghost var start := Initial(saved, freshId, themeIndex);
    StartsValidIff(saved, freshId, themeIndex);
    ContentEsc.ShowIsQuiet(start, start.tree);
    app.SpawnActivePty();
    assert app.ScreenView() == StartScreen(saved, freshId, themeIndex);
    hide Loaded, Initial, Core;
    app.MixedLoop(ins, now);
  }

  /** Before the first draw nothing on the screen can be hit. */
  function StartScreen(saved: Option<Tree>, freshId: string, themeIndex: nat): (m: MixedRuns.Screen)
    requires themeIndex < THEMES && (saved.Some? ==> GoodOffices(saved.value.offices))
    ensures Sound(m.app)
  {
    StartsValidIff(saved, freshId, themeIndex);
    MixedRuns.Screen(Started(saved, freshId, themeIndex), Bar.UNDRAWN, None)
  }
}
