/** What opening, closing, selecting and renaming do to the offices, desks and tabs, and what undoes them:
    src/client/desk.rs:26-55 and src/client/app.rs:676-834. */
module TreeLaws {
  import opened Basics
  import opened Workspace
  import opened WorkspaceLaws
  import RenameEditor

  // ---- tabs ----

  /** Closing the active tab leaves the others in order, and activates the one after it, or the last. */
  lemma ClosingATab(d: Desk)
    requires GoodDesk(d) && |d.tabs| > 1
    ensures var r := CloseTab(d);
            && |r.tabs| == |d.tabs| - 1
            && (forall i :: 0 <= i < |r.tabs| ==> r.tabs[i] == d.tabs[Before(i, d.activeTab)])
            && Before(r.activeTab, d.activeTab)
               == if d.activeTab + 1 < |d.tabs| then d.activeTab + 1 else d.activeTab - 1
  {
  }

  /** Closing the tab just opened gives the tabs back, and the desk itself exactly when its last tab was active. */
  lemma ClosingUndoesOpeningIff(d: Desk, id: string)
    requires GoodDesk(d)
    ensures CloseTab(NewTab(d, id)).tabs == d.tabs
    ensures CloseTab(NewTab(d, id)) == d <==> d.activeTab == |d.tabs| - 1
  {
    var r := CloseTab(NewTab(d, id));
    assert r.tabs == d.tabs;
  }

  // ---- desks ----

  /** Removing a desk leaves the others in order; the next desk, or the last, is selected. */
  lemma RemovingADesk(t: Tree, idx: nat)
    requires Core(t) && idx < |CurOffice(t).desks| && |CurOffice(t).desks| > 1
    ensures var r := RemoveDesk(t, idx);
            && |CurOffice(r).desks| == |CurOffice(t).desks| - 1
            && (forall i :: 0 <= i < |CurOffice(r).desks| ==> CurOffice(r).desks[i] == CurOffice(t).desks[Before(i, idx)])
            && Before(Selected(r), idx) == (if idx + 1 < |CurOffice(t).desks| then idx + 1 else idx - 1)
            && r.currentOffice == t.currentOffice && |r.offices| == |t.offices|
            && forall j :: 0 <= j < |t.offices| && j != t.currentOffice ==> r.offices[j] == t.offices[j]
  {
    hide GoodOffices;
  }

  /** Deleting the desk just added gives back the workspace, with the last desk selected. */
  lemma RemovingUndoesAdding(t: Tree, id: string)
    requires Core(t)
    ensures var n := |CurOffice(t).desks|;
            && |CurOffice(AddDesk(t, id)).desks| == n + 1 && Selected(AddDesk(t, id)) == n
            && RemoveDesk(AddDesk(t, id), n) == SelectDesk(t, n - 1)
  {
    hide GoodOffices;
    var o, n, a := CurOffice(t), |CurOffice(t).desks|, AddDesk(t, id);
    assert RemoveAt(CurOffice(a).desks, n) == o.desks;
    assert RemoveDesk(a, n).offices == SelectDesk(t, n - 1).offices;
  }

  lemma SelectingSelects(t: Tree, i: nat)
    requires Core(t)
    ensures var n := |CurOffice(t).desks|;
            && Selected(SelectDesk(t, i)) == Min(i, n - 1)
            && CurOffice(SelectDesk(t, i)).desks == CurOffice(t).desks
            && forall j: nat :: SelectDesk(SelectDesk(t, i), j) == SelectDesk(t, j)
  {
    hide GoodOffices;
    forall j: nat ensures SelectDesk(SelectDesk(t, i), j) == SelectDesk(t, j) {
      assert SelectDesk(SelectDesk(t, i), j).offices == SelectDesk(t, j).offices;
    }
  }

  /** Down and then up comes back to the same workspace, except from the last of several desks. */
  lemma UpUndoesDownIff(s: State)
    requires Core(s.tree)
    ensures Core(Nav(s, 1).tree)
    ensures Nav(Nav(s, 1), -1).tree == s.tree
            <==> Selected(s.tree) + 1 < |CurOffice(s.tree).desks| || |CurOffice(s.tree).desks| == 1
  {
    var t, n, i := s.tree, |CurOffice(s.tree).desks|, Selected(s.tree);
    SelectingSelects(t, Clamp(i + 1, n - 1));
    Reselecting(t);
    hide Core, GoodOffices, ActiveTab;
    var down := SelectDesk(t, Clamp(i + 1, n - 1));
    assert Nav(s, 1).tree == down;
    assert Nav(Nav(s, 1), -1).tree == SelectDesk(t, Clamp(Selected(down) - 1, n - 1));
  }

  lemma Reselecting(t: Tree)
    requires Core(t)
    ensures SelectDesk(t, Selected(t)) == t
    ensures forall i: nat :: SelectDesk(t, i) == t ==> Min(i, |CurOffice(t).desks| - 1) == Selected(t)
  {
    assert SelectDesk(t, Selected(t)).offices == t.offices;
  }

  // ---- offices ----

  /** Each office remembers its desk: going to another office and back restores the workspace, exactly when the
      other office remembered a desk that it has. */
  lemma SwitchingBackRestoresIff(t: Tree, j: nat)
    requires Core(t) && j < |t.offices|
    ensures EnterOffice(EnterOffice(t, j), t.currentOffice) == t
            <==> t.offices[j].activeDesk < |t.offices[j].desks|
  {
    hide GoodOffice;
    var there := EnterOffice(t, j);
    var back := EnterOffice(there, t.currentOffice);
    assert forall k :: 0 <= k < |t.offices| && k != j ==> back.offices[k] == t.offices[k];
    assert back.offices[j].activeDesk == Min(t.offices[j].activeDesk, |t.offices[j].desks| - 1);
    assert back.selected == t.selected && back.currentOffice == t.currentOffice;
    if t.offices[j].activeDesk < |t.offices[j].desks| {
      assert back.offices == t.offices;
    }
  }

  // ---- renaming ----

  function NameOf(t: Tree, target: RenameEditor.RenameTarget): string
    requires Core(t) && RenameInRange(t, target)
  {
    match target
    case Desk(i) => CurOffice(t).desks[i].name
    case Tab(i, j) => CurOffice(t).desks[i].tabs[j].name
    case Office(i) => t.offices[i].name
  }

  /** Committing a rename gives its target the trimmed text, unless that is empty, and renames nothing else. */
  lemma RenamingSetsOneName(t: Tree, rename: Workspace.Renaming, other: RenameEditor.RenameTarget)
    requires Core(t) && RenameInRange(t, rename.target)
    ensures RenameInRange(CommitRename(t, rename), other) <==> RenameInRange(t, other)
    ensures RenameInRange(t, other) ==>
              NameOf(CommitRename(t, rename), other)
              == if other == rename.target && Trim(rename.text.chars) != "" then Trim(rename.text.chars)
                 else NameOf(t, other)
  {
    hide Trim, GoodOffices;
  }
}
