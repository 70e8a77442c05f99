/** Runs that mix keys and mouse events, as the batch loop of src/main.rs:481-550 does.  The modes are no longer
    exclusive there, so that a rename dialog can outlive the place that it holds: what keeps it in place, exactly,
    and that nothing else indexes out of range. */
module MixedRuns {
  import opened Basics
  import opened Keys
  import opened Workspace
  import opened WorkspaceRuns
  import opened WorkspaceLaws
  import opened Mouse
  import Bar = Topbar
  import Jump
  import RenameEditor

  // ---- where a rename dialog's target has to be ----

  /** The current office's desks and the number of offices. */
  datatype Places = Places(desks: seq<Desk>, offices: nat)

  predicate FitsIn(p: Places, target: RenameEditor.RenameTarget) {
    match target
    case Desk(i) => i < |p.desks|
    case Tab(i, j) => i < |p.desks| && j < |p.desks[i].tabs|
    case Office(i) => i < p.offices
  }

  /** An open rename dialog's target exists. */
  predicate InPlace(s: State)
    requires Core(s.tree)
  {
    s.modes.rename.Some? ==> RenameInRange(s.tree, s.modes.rename.value.target)
  }

  /** The keys that, with a dialog open underneath, put other desks or offices in place of the ones it was opened on:
      confirming the deletion of a desk or of an office, and choosing an office. */
  function Renewed(s: State, k: Key): Option<Places>
    requires Sound(s)
  {
    var t, m := s.tree, s.modes;
    var desks, n := CurOffice(t).desks, |t.offices|;
    if Ignored(s, k) || m.copyMode then None
    else if m.deskDelete.Some? then
      if (k.code.Enter? || IsChar(k, 'y') || IsChar(k, 'Y')) && m.deskDelete.value < |desks| && |desks| > 1 then
        Some(Places(RemoveAt(desks, m.deskDelete.value), n))
      else None
    else if m.officeDelete.Some? then
      var d := m.officeDelete.value;
      if k.code.Enter? && d.input == t.offices[d.office].name && n > 1 then
        Some(Places(t.offices[Before(Min(t.currentOffice, n - 2), d.office)].desks, n - 1))
      else None
    else if m.selectorActive && k.code.Enter? && SelectorIndex(s) < n then
      Some(Places(t.offices[SelectorIndex(s)].desks, n))
    else None
  }

  /** What the tree of a state offers to a dialog. */
  function PlacesOf(t: Tree): Places
    requires Core(t)
  {
    Places(CurOffice(t).desks, |t.offices|)
  }

  lemma InPlaceFits(s: State)
    requires Core(s.tree)
    ensures InPlace(s) <==> (s.modes.rename.Some? ==> FitsIn(PlacesOf(s.tree), s.modes.rename.value.target))
  {
  }

  /** Trees that offer at least the same places. */
  ghost predicate Covers(r: Tree, t: Tree)
    requires Core(r) && Core(t)
  {
    && |CurOffice(r).desks| >= |CurOffice(t).desks| && |r.offices| >= |t.offices|
    && forall i :: 0 <= i < |CurOffice(t).desks| ==> |CurOffice(r).desks[i].tabs| >= |CurOffice(t).desks[i].tabs|
  }

  lemma CoveredStaysInPlace(s: State, r: State)
    requires Core(s.tree) && Core(r.tree) && Covers(r.tree, s.tree) && InPlace(s) && r.modes.rename == s.modes.rename
    ensures InPlace(r)
  {
    hide GoodOffices;
  }

  lemma SelectingCovers(t: Tree, i: nat)
    requires Core(t)
    ensures Covers(SelectDesk(t, i), t)
  {
    hide GoodOffices;
  }

  lemma ActivatingCovers(t: Tree, tab: nat)
    requires Core(t) && tab < |CurDesk(t).tabs|
    ensures Covers(ActivateTab(t, tab), t)
  {
    hide GoodOffices;
  }

  lemma OpeningCovers(t: Tree, id: string)
    requires Core(t)
    ensures Covers(WithDesk(t, NewTab(CurDesk(t), id)), t)
  {
    hide GoodOffices;
  }

  lemma NavCovers(s: State, delta: int)
    requires Core(s.tree)
    ensures Core(Nav(s, delta).tree) && Covers(Nav(s, delta).tree, s.tree)
  {
    SelectingCovers(s.tree, Clamp(Selected(s.tree) + delta, |CurOffice(s.tree).desks| - 1));
    hide Covers, SelectDesk, GoodOffices;
  }

  // ---- mouse events ----

  lemma ClickKeepsSound(s: State, click: Bar.Click, isDouble: bool, env: Env)
    requires Sound(s) && (click.ActivateTab? ==> click.tab < |CurDesk(s.tree).tabs|)
    ensures var r := LeftDown(s, click, isDouble, env); Sound(r) && (InPlace(s) ==> InPlace(r))
  {
    var r := LeftDown(s, click, isDouble, env);
    BegunRenames(s.tree);
    if click.SelectDesk? { SelectingCovers(s.tree, click.desk); }
    if click.ActivateTab? { ActivatingCovers(s.tree, click.tab); }
    if click.NewTab? { OpeningCovers(s.tree, env.freshId); }
    if r.modes.rename == s.modes.rename && InPlace(s) { CoveredStaysInPlace(s, r); }
  }

  lemma MouseKeepsSound(s: State, l: Bar.Layout, last: Option<Press>, e: MouseEvent, tracking: bool, env: Env)
    requires Sound(s) && !StaleClick(s, l, last, e, env)
    ensures var r := OnMouse(s, l, last, e, tracking, env); Sound(r) && (InPlace(s) ==> InPlace(r))
  {
    var r := OnMouse(s, l, last, e, tracking, env);
    if Pressed(s, l, last, e, env).Some? {
      ClickKeepsSound(s, Pressed(s, l, last, e, env).value, IsDouble(last, e, env.now), env);
    } else if Bar.InRect(e.col, e.row, l.content) {
      hide Core, ReportBytes, ButtonCode, ActiveTab;
      assert r.tree == s.tree && r.modes == s.modes;
    } else {
      WheelWalksOrScrolls(s, l, e);
      NavKeepsSound(s, if e.kind.WheelUp? then -1 else 1);
      hide Core, Wheel, Nav, Bar.InRect;
    }
  }

  lemma NavKeepsSound(s: State, delta: int)
    requires Sound(s)
    ensures Sound(Nav(s, delta)) && (InPlace(s) ==> InPlace(Nav(s, delta)))
  {
    NavCovers(s, delta);
    hide GoodOffices, SelectDesk;
    if InPlace(s) { CoveredStaysInPlace(s, Nav(s, delta)); }
  }

  // ---- keys ----

  lemma RemovedDeskPlaces(t: Tree, idx: nat)
    requires Core(t) && idx < |CurOffice(t).desks| && |CurOffice(t).desks| > 1
    ensures PlacesOf(RemoveDesk(t, idx)) == Places(RemoveAt(CurOffice(t).desks, idx), |t.offices|)
  {
    hide GoodOffices;
  }

  lemma RemovedOfficePlaces(t: Tree, idx: nat)
    requires Core(t) && idx < |t.offices| && |t.offices| > 1
    ensures var n := |t.offices|;
            PlacesOf(RemoveOffice(t, idx)) == Places(t.offices[Before(Min(t.currentOffice, n - 2), idx)].desks, n - 1)
  {
    hide GoodOffices;
  }

  lemma EnteredPlaces(t: Tree, i: nat)
    requires GoodOffices(t.offices) && i < |t.offices|
    ensures PlacesOf(EnterOffice(t, i)) == Places(t.offices[i].desks, |t.offices|)
  {
    hide GoodOffices;
  }

  /** The outcome of a key: sound, and its dialog in place exactly when it fits in what the key put in place. */
  ghost predicate Keeps(s: State, k: Key, r: State)
    requires Sound(s)
  {
    && Sound(r)
    && (InPlace(s) ==>
          (InPlace(r) <==> (s.modes.rename.Some? && Renewed(s, k).Some? ==>
                              FitsIn(Renewed(s, k).value, s.modes.rename.value.target))))
  }

  /** On the same tree, a dialog is left as it was, closed, or opened on a place that exists. */
  ghost predicate Reopens(s: State, r: State)
    requires Sound(s)
  {
    var old_, new_ := s.modes, r.modes;
    && r.tree == s.tree && r.settingsSelected < THEMES
    && (|| new_.officeDelete == old_.officeDelete || new_.officeDelete.None?
        || new_.officeDelete.value.office < |s.tree.offices|)
    && (|| new_.rename == old_.rename || new_.rename.None?
        || (RenameEditor.InRange(new_.rename.value.text) && RenameInRange(s.tree, new_.rename.value.target)))
  }

  lemma ReopeningKeeps(s: State, k: Key, r: State)
    requires Sound(s) && Reopens(s, r) && Renewed(s, k).None?
    ensures Keeps(s, k, r)
  {
    hide Core, Renewed, RenameInRange;
  }

  lemma UntouchedReopens(s: State, r: State)
    requires Sound(s) && r.tree == s.tree && r.settingsSelected < THEMES
    requires r.modes.officeDelete == s.modes.officeDelete && r.modes.rename == s.modes.rename
    ensures Reopens(s, r)
  {
  }

  lemma InPlaceKeeps(s: State, k: Key, r: State)
    requires Sound(s) && Sound(r) && Renewed(s, k).None? && (InPlace(s) ==> InPlace(r))
    ensures Keeps(s, k, r)
  {
    hide Core, Renewed, Sound, InPlace;
  }

  lemma CopyKeyKeeps(s: State, k: Key)
    requires Sound(s) && s.modes.copyMode
    ensures Keeps(s, k, CopyKey(s, k))
  {
    hide Core, Keeps, ActiveTab, RenameInRange;
    ReopeningKeeps(s, k, CopyKey(s, k));
  }

  lemma DeskDeleteKeyKeeps(s: State, k: Key)
    requires Sound(s) && !Ignored(s, k) && !s.modes.copyMode && s.modes.deskDelete.Some?
    ensures Keeps(s, k, DeskDeleteKey(s, k))
  {
    var r, idx := DeskDeleteKey(s, k), s.modes.deskDelete.value;
    if Renewed(s, k).Some? {
      RemovedDeskPlaces(s.tree, idx);
      InPlaceFits(r);
      hide Core, RemoveDesk, FitsIn, InPlace, ActiveTab;
    } else {
      hide Core, Keeps, RemoveDesk, ActiveTab, RenameInRange;
      ReopeningKeeps(s, k, r);
    }
  }

  lemma OfficeDeleteKeyKeeps(s: State, k: Key)
    requires Sound(s) && !Ignored(s, k) && !s.modes.copyMode && s.modes.deskDelete.None? && s.modes.officeDelete.Some?
    ensures Keeps(s, k, OfficeDeleteKey(s, k))
  {
    var r, idx := OfficeDeleteKey(s, k), s.modes.officeDelete.value.office;
    if Renewed(s, k).Some? {
      RemovedOfficePlaces(s.tree, idx);
      InPlaceFits(r);
      hide Core, RemoveOffice, FitsIn, InPlace, ActiveTab;
    } else {
      hide Keeps, Core, Renewed, RenameInRange;
      RetypingKeepsSound(s, k);
      InPlaceKeeps(s, k, r);
    }
  }

  lemma RetypingKeepsSound(s: State, k: Key)
    requires Sound(s) && !Ignored(s, k) && !s.modes.copyMode && s.modes.deskDelete.None? && s.modes.officeDelete.Some?
    requires Renewed(s, k).None?
    ensures var r := OfficeDeleteKey(s, k); Sound(r) && r.tree == s.tree && r.modes.rename == s.modes.rename
  {
    hide Core, RemoveOffice, ActiveTab, Retyped;
  }

  lemma SelectorKeyKeeps(s: State, k: Key)
    requires Sound(s) && !Ignored(s, k) && !s.modes.copyMode && s.modes.deskDelete.None? && s.modes.officeDelete.None?
    requires s.modes.selectorActive
    ensures Keeps(s, k, SelectorKey(s, k))
  {
    if Renewed(s, k).Some? {
      EnteringKeeps(s, k);
    } else {
      hide Keeps, Core, Renewed, RenameInRange, SelectorKey;
      SelectorReopens(s, k);
      ReopeningKeeps(s, k, SelectorKey(s, k));
    }
  }

  lemma EnteringKeeps(s: State, k: Key)
    requires Sound(s) && s.modes.selectorActive && k.code.Enter? && SelectorIndex(s) < |s.tree.offices|
    requires Renewed(s, k) == Some(Places(s.tree.offices[SelectorIndex(s)].desks, |s.tree.offices|))
    ensures Keeps(s, k, SelectorKey(s, k))
  {
    EnteredPlaces(s.tree, SelectorIndex(s));
    InPlaceFits(SelectorKey(s, k));
    hide GoodOffices, EnterOffice, FitsIn, InPlace, ActiveTab, SelectorIndex, Renewed;
  }

  lemma SelectorReopens(s: State, k: Key)
    requires Sound(s) && (k.code.Enter? ==> SelectorIndex(s) >= |s.tree.offices|)
    ensures Reopens(s, SelectorKey(s, k))
  {
    if k.code.Char? { SelectorCharReopens(s, k.code.c); }
    hide Core, SelectorIndex, SelectorChar, RenameInRange;
  }

  lemma SelectorCharReopens(s: State, c: char)
    requires Sound(s)
    ensures Reopens(s, SelectorChar(s, c))
  {
    hide Core, SelectorIndex;
  }

  lemma JumpKeyKeeps(s: State, k: Key, env: Env)
    requires Sound(s) && s.modes.jumpMode && !StaleHit(s, k) && Renewed(s, k).None?
    ensures Keeps(s, k, JumpKey(s, k, env))
  {
    hide Keeps, Core, Renewed, RenameInRange, Stale, JumpCommandKey, Jumped, JumpCommand, Reopens;
    if k.code.Char? && JumpCommand(s.focus, k.code.c) {
      JumpCommandKeeps(s, k);
    } else if k.code.Char? && Jump.IsAlphanumeric(k.code.c) {
      JumpedKeeps(s, k, env);
    } else {
      ArrowsReopen(s, k, env);
      ReopeningKeeps(s, k, JumpKey(s, k, env));
    }
  }

  lemma ArrowsReopen(s: State, k: Key, env: Env)
    requires Sound(s) && s.modes.jumpMode && !StaleHit(s, k)
    requires k.code.Char? ==> !JumpCommand(s.focus, k.code.c) && !Jump.IsAlphanumeric(k.code.c)
    ensures Reopens(s, JumpKey(s, k, env))
  {
    hide Core, StaleHit, JumpCommand, RenameInRange, Reopens;
    UntouchedReopens(s, JumpKey(s, k, env));
  }

  lemma JumpCommandKeeps(s: State, k: Key)
    requires Sound(s) && k.code.Char? && JumpCommand(s.focus, k.code.c) && Renewed(s, k).None?
    ensures Keeps(s, k, JumpCommandKey(s, k.code.c))
  {
    hide Keeps, Core, Renewed, RenameInRange, JumpCommandKey, JumpCommand, Reopens;
    JumpCommandReopens(s, k.code.c);
    ReopeningKeeps(s, k, JumpCommandKey(s, k.code.c));
  }

  lemma JumpCommandReopens(s: State, c: char)
    requires Sound(s) && JumpCommand(s.focus, c)
    ensures Reopens(s, JumpCommandKey(s, c))
  {
    if (c == 'r' || c == 'R') && !s.focus.Content? {
      JumpRenameReopens(s, c);
    } else {
      hide Core, RenameInRange, ActiveTab, Reopens;
      UntouchedReopens(s, JumpCommandKey(s, c));
    }
  }

  lemma JumpRenameReopens(s: State, c: char)
    requires Sound(s) && (c == 'r' || c == 'R') && !s.focus.Content?
    ensures Reopens(s, JumpCommandKey(s, c))
  {
    BegunRenames(s.tree);
    hide Core, RenameInRange, ActiveTab, CurDesk;
  }

  lemma JumpedKeeps(s: State, k: Key, env: Env)
    requires Sound(s) && k.code.Char? && !Stale(s, k.code.c) && Renewed(s, k).None?
    ensures Keeps(s, k, Jumped(s, k.code.c, env))
  {
    var r := Jumped(s, k.code.c, env);
    if Chosen(s, k.code.c).Some? {
      ReachedKeepsSound(s, Chosen(s, k.code.c).value, env);
    }
    hide Keeps, Core, Chosen, Renewed, JumpTo, RenameInRange;
    InPlaceKeeps(s, k, r);
  }

  lemma ReachedKeepsSound(s: State, target: Jump.Target, env: Env)
    requires Sound(s) && (target.TabTarget? ==> target.tab < |CurDesk(s.tree).tabs|)
    ensures var r := JumpTo(s, target, env); Sound(r) && r.modes == s.modes && (InPlace(s) ==> InPlace(r))
  {
    if target.DeskTarget? { SelectingCovers(s.tree, target.desk); } else { ActivatingCovers(s.tree, target.tab); }
    hide GoodOffices, SelectDesk, ActivateTab, Told;
    if InPlace(s) { CoveredStaysInPlace(s, JumpTo(s, target, env)); }
  }

  lemma RenameKeyKeeps(s: State, k: Key)
    requires Sound(s) && s.modes.rename.Some? && !Misplaced(s.tree, s.modes.rename.value, k) && Renewed(s, k).None?
    requires s.modes == NO_MODE.(rename := s.modes.rename)
    ensures Keeps(s, k, RenameKey(s, k))
  {
    hide GoodOffices, Renewed, Trim, EditOf, RenameEditor.Apply;
  }

  /** With no mode open, keys leave none open, or one whose place they have just read off the tree. */
  ghost predicate OpensInPlace(s: State, r: State) {
    && Core(r.tree) && r.settingsSelected == s.settingsSelected
    && r.modes.officeDelete.None?
    && (r.modes.rename.Some? ==> RenameEditor.InRange(r.modes.rename.value.text) && InPlace(r))
  }

  lemma NavTouches(s: State, delta: int)
    requires Core(s.tree)
    ensures var r := Nav(s, delta); Core(r.tree) && r == s.(tree := r.tree, tabScroll := 0, log := r.log)
  {
    NavCovers(s, delta);
    hide Core, SelectDesk, Clamp, Covers, ActiveTab;
  }

  lemma SidebarCharOpens(s: State, c: char, env: Env)
    requires Core(s.tree) && s.modes == NO_MODE
    ensures OpensInPlace(s, SidebarChar(s, c, env))
  {
    BegunRenames(s.tree);
    hide Core, RenameInRange, AddDesk, ActiveTab;
  }

  lemma SidebarKeyOpens(s: State, k: Key, env: Env)
    requires Core(s.tree) && s.modes == NO_MODE
    ensures OpensInPlace(s, SidebarKey(s, k, env))
  {
    NavTouches(s, -1);
    NavTouches(s, 1);
    if k.code.Char? { SidebarCharOpens(s, k.code.c, env); }
    hide Core, RenameInRange, SidebarChar, Nav, ActiveTab;
  }

  lemma TopbarKeyOpens(s: State, k: Key, env: Env)
    requires Core(s.tree) && s.modes == NO_MODE
    ensures OpensInPlace(s, TopbarKey(s, k, env))
  {
    BegunRenames(s.tree);
    hide Core, RenameInRange, WithDesk, NewTab, CloseTab, ActivateTab, ActiveTab;
  }

  lemma ContentKeyOpens(s: State, k: Key, env: Env)
    requires Core(s.tree) && s.modes == NO_MODE
    ensures OpensInPlace(s, ContentKey(s, k)) && OpensInPlace(s, EscKey(s, env))
    ensures IsDigit(k) ==> OpensInPlace(s, AltDigit(s, k.code.c, env))
    ensures FlushEsc(s).tree == s.tree && FlushEsc(s).modes == s.modes
            && FlushEsc(s).settingsSelected == s.settingsSelected
  {
    hide Core, RenameInRange, ActiveTab, ActivateTab, EncodeContentKey, Told, Elapsed;
  }

  lemma PlainKeyOpens(s: State, k: Key, env: Env)
    requires Core(s.tree) && s.modes == NO_MODE
    ensures OpensInPlace(s, PlainKey(s, k, env).state)
  {
    var f := if s.focus.Content? then FlushEsc(s) else s;
    ContentKeyOpens(s, k, env);
    ContentKeyOpens(f, k, env);
    SidebarKeyOpens(f, k, env);
    TopbarKeyOpens(f, k, env);
    hide Core, InPlace, SidebarKey, TopbarKey, ContentKey, EscKey, AltDigit, FlushEsc;
  }

  lemma PlainKeyKeeps(s: State, k: Key, env: Env)
    requires Sound(s) && s.modes == NO_MODE && Renewed(s, k).None?
    ensures Keeps(s, k, PlainKey(s, k, env).state)
  {
    PlainKeyOpens(s, k, env);
    hide Keeps, PlainKey, Core, Renewed;
    InPlaceKeeps(s, k, PlainKey(s, k, env).state);
  }

  lemma SettingsKeyKeeps(s: State, k: Key)
    requires Sound(s) && Renewed(s, k).None?
    ensures Keeps(s, k, SettingsKey(s, k))
  {
    hide Core, Keeps, Renewed, Reopens, RenameInRange;
    UntouchedReopens(s, SettingsKey(s, k));
    ReopeningKeeps(s, k, SettingsKey(s, k));
  }

  /** A key keeps the state sound.  The place of an open rename dialog survives it exactly when it is among the desks
      and offices that the key puts in place of the present ones, if it does. */
  lemma HandleKeyKeeps(s: State, k: Key, env: Env)
    requires Sound(s) && !StaleHit(s, k) && !StaleCommit(s, k)
    ensures Keeps(s, k, HandleKey(s, k, env).state)
  {
    hide Keeps, CopyKey, DeskDeleteKey, OfficeDeleteKey, SelectorKey, SettingsKey, JumpKey, RenameKey, PlainKey, Core;
    hide StaleHit, Misplaced;
    var m := s.modes;
    if Ignored(s, k) {
      ReopeningKeeps(s, k, s);
    } else if m.copyMode {
      CopyKeyKeeps(s, k);
    } else if m.deskDelete.Some? {
      DeskDeleteKeyKeeps(s, k);
    } else if m.officeDelete.Some? {
      OfficeDeleteKeyKeeps(s, k);
    } else if m.selectorActive {
      SelectorKeyKeeps(s, k);
    } else if m.showSettings {
      SettingsKeyKeeps(s, k);
    } else if m.jumpMode {
      JumpKeyKeeps(s, k, env);
    } else if m.rename.Some? {
      RenameKeyKeeps(s, k);
    } else {
      PlainKeyKeeps(s, k, env);
    }
  }

  // ---- every event of the main loop ----

  function RenewedBy(s: State, e: Event): Option<Places>
    requires Sound(s)
  {
    match e
    case Press(k, _) => if s.onboarding then None else Renewed(s, k)
    case Onboarded(Some(o)) => if s.onboarding then Some(Places(o.desks, |s.tree.offices| + 1)) else None
    case _ => None
  }

  /** The event leaves an open rename dialog in place. */
  predicate Spares(s: State, e: Event)
    requires Sound(s)
  {
    s.modes.rename.Some? && RenewedBy(s, e).Some? ==> FitsIn(RenewedBy(s, e).value, s.modes.rename.value.target)
  }

  lemma StepKeepsSound(s: State, e: Event)
    requires Sound(s) && Allowed(s, e)
    ensures Sound(Step(s, e)) && (InPlace(s) ==> (InPlace(Step(s, e)) <==> Spares(s, e)))
  {
    match e
    case Press(k, env) => if !s.onboarding { HandleKeyKeeps(s, k, env); PressStep(s, k, env); }
    case Pass(env, connected, drawn) => if !s.onboarding { MainPassTouches(s, env, connected, drawn); PassStep(s, e); }
    case Paste(_) => hide Core;
    case Onboarded(office) => if s.onboarding && office.Some? { OnboardedStep(s, office.value); }
  }

  lemma PressStep(s: State, k: Key, env: Env)
    requires Sound(s) && !s.onboarding && !StaleHit(s, k) && !StaleCommit(s, k)
    requires Keeps(s, k, HandleKey(s, k, env).state)
    ensures var e := Event.Press(k, env);
            Sound(Step(s, e)) && (InPlace(s) ==> (InPlace(Step(s, e)) <==> Spares(s, e)))
  {
    hide HandleKey, Core, Renewed, FitsIn, InPlace;
  }

  lemma PassStep(s: State, e: Event)
    requires Sound(s) && e.Pass? && !s.onboarding
    ensures Sound(Step(s, e)) && (InPlace(s) ==> InPlace(Step(s, e)))
  {
    MainPassTouches(s, e.env, e.connected, e.drawn);
    hide MainPass, Core;
  }

  lemma OnboardedStep(s: State, office: UsableOffice)
    requires Sound(s) && s.onboarding
    ensures var e := Onboarded(Some(office));
            Sound(Step(s, e)) && (InPlace(s) ==> (InPlace(Step(s, e)) <==> Spares(s, e)))
  {
    var offices := s.tree.offices + [office];
    var r := Step(s, Onboarded(Some(office)));
    EnteredPlaces(s.tree.(offices := offices), |offices| - 1);
    InPlaceFits(r);
    hide GoodOffice, EnterOffice, FitsIn, InPlace, ActiveTab;
  }

  // ---- mixed runs ----

  /** The workspace, the rectangles of the last draw, and the last left press. */
  datatype Screen = Screen(app: State, layout: Bar.Layout, last: Option<Mouse.Press>)

  /** An event of the main loop, with the rectangles that it records if it draws; or one of the mouse. */
  datatype Input =
    | Loop(event: Event, areas: Bar.Layout)
    | Pointer(mouse: MouseEvent, tracking: bool, env: Env)

  function OneForEach(areas: seq<Bar.Rect>, tabs: nat): (r: seq<Bar.Rect>)
    ensures |r| == tabs
  {
    seq(tabs, i => if 0 <= i < |areas| then areas[i] else Bar.NOWHERE)
  }

  /** A draw records one area for each tab shown, and the list at the height it has. */
  function Fitted(l: Bar.Layout, h: Hits): Bar.Layout {
    l.(tabAreas := OneForEach(l.tabAreas, |h.tabIndices|), tabIndices := h.tabIndices, deskList := l.deskList.(height := h.listHeight))
  }

  function Seen(m: Screen): Bar.Layout { m.layout.(tabIndices := m.app.hits.tabIndices) }

  /** Every index that the handler of the input uses is in range. */
  predicate Fine(m: Screen, i: Input)
    requires Core(m.app.tree)
  {
    match i
    case Loop(e, _) => Allowed(m.app, e)
    case Pointer(e, _, env) => m.app.onboarding || !StaleClick(m.app, Seen(m), m.last, e, env)
  }

  function MixedStep(m: Screen, i: Input): Screen
    requires Sound(m.app) && Fine(m, i)
  {
    match i
    case Loop(e, areas) =>
      var r := Step(m.app, e);
      Screen(r, if Draws(e) && !m.app.onboarding then Fitted(areas, r.hits) else m.layout, m.last)
    case Pointer(e, tracking, env) =>
      if m.app.onboarding then m
      else
        var r := OnMouse(m.app, Seen(m), m.last, e, tracking, env);
        Screen(r, m.layout,
               if Pressed(m.app, Seen(m), m.last, e, env).Some? then Some(Mouse.Press(e.col, e.row, env.now)) else m.last)
  }

  /** The input leaves an open rename dialog in place; only keys and a finished onboarding can fail to. */
  predicate Retains(m: Screen, i: Input)
    requires Sound(m.app)
  {
    i.Loop? ==> Spares(m.app, i.event)
  }

  lemma MixedStepKeepsSound(m: Screen, i: Input)
    requires Sound(m.app) && Fine(m, i)
    ensures var r := MixedStep(m, i).app; Sound(r) && (InPlace(m.app) ==> (InPlace(r) <==> Retains(m, i)))
  {
    match i
    case Loop(e, _) => StepKeepsSound(m.app, e); hide Step, Core, Spares, InPlace;
    case Pointer(e, tracking, env) =>
      if !m.app.onboarding {
        MouseKeepsSound(m.app, Seen(m), m.last, e, tracking, env);
        hide OnMouse, Core, InPlace;
      }
  }

  ghost predicate FineRun(m: Screen, ins: seq<Input>)
    requires Sound(m.app)
    decreases |ins|
  {
    ins == [] || (Fine(m, ins[0]) && (MixedStepKeepsSound(m, ins[0]); FineRun(MixedStep(m, ins[0]), ins[1..])))
  }

  ghost function MixedRun(m: Screen, ins: seq<Input>): (r: Screen)
    requires Sound(m.app) && FineRun(m, ins)
    ensures Sound(r.app)
    decreases |ins|
  {
    if ins == [] then m else MixedStepKeepsSound(m, ins[0]); MixedRun(MixedStep(m, ins[0]), ins[1..])
  }

  predicate Paints(i: Input) { i.Loop? && Draws(i.event) }

  predicate Reacts(i: Input) { i.Pointer? || i.event.Press? }

  /** Between two inputs of the user the screen is drawn. */
  ghost predicate Repainted(ins: seq<Input>) {
    forall n :: 0 < n < |ins| && Reacts(ins[n]) ==> Paints(ins[n - 1])
  }

  ghost predicate Fresh(m: Screen)
    requires Core(m.app.tree)
  {
    m.app.onboarding || Shown(m.app, Seen(m))
  }

  /** No commit of the run is to a place that does not exist. */
  ghost predicate CommitsInPlace(m: Screen, ins: seq<Input>)
    requires Sound(m.app)
    decreases |ins|
  {
    ins == []
    || (&& (ins[0].Loop? && ins[0].event.Press? && !m.app.onboarding ==> !StaleCommit(m.app, ins[0].event.key))
        && (Fine(m, ins[0]) ==> (MixedStepKeepsSound(m, ins[0]); CommitsInPlace(MixedStep(m, ins[0]), ins[1..]))))
  }

  lemma PaintingFreshens(m: Screen, i: Input)
    requires Sound(m.app) && Paints(i) && Fine(m, i)
    ensures Core(MixedStep(m, i).app.tree) && Fresh(MixedStep(m, i))
  {
    MixedStepKeepsSound(m, i);
    if !m.app.onboarding {
      var e := i.event;
      DrawFreshens(m.app, e.env, e.connected, e.drawn.value);
      hide Core, MainPass, FreshHits;
    }
  }

  lemma FreshIsFineIff(m: Screen, i: Input)
    requires Sound(m.app) && (Reacts(i) ==> Fresh(m))
    ensures Fine(m, i) <==> (i.Loop? && i.event.Press? && !m.app.onboarding ==> !StaleCommit(m.app, i.event.key))
  {
    hide Core, StaleHit, StaleCommit, StaleClick, FreshHits;
    if !m.app.onboarding {
      match i
      case Loop(e, _) => if e.Press? { FreshHitsAreNotStale(m.app, e.key); }
      case Pointer(e, _, env) => ShownIsNotStale(m.app, Seen(m), m.last, e, env);
    }
  }

  /** With redraws between inputs, a run of keys and mouse events keeps every index in range exactly when no commit
      in it is to a place that does not exist. */
  lemma {:induction false} MixedRunIsFineIff(m: Screen, ins: seq<Input>)
    requires Sound(m.app) && Repainted(ins) && (ins != [] && Reacts(ins[0]) ==> Fresh(m))
    ensures FineRun(m, ins) <==> CommitsInPlace(m, ins)
    decreases |ins|
  {
    if ins != [] {
      var i := ins[0];
      FreshIsFineIff(m, i);
      if Fine(m, i) {
        MixedStepKeepsSound(m, i);
        var n := MixedStep(m, i);
        if Paints(i) { PaintingFreshens(m, i); }
        hide Sound, Fresh, MixedStep, Fine, StaleCommit;
        assert forall k :: 0 < k < |ins| - 1 ==> ins[1..][k] == ins[k + 1] && ins[1..][k - 1] == ins[k];
        MixedRunIsFineIff(n, ins[1..]);
      }
    }
  }

  /** Along a run, every input leaves an open rename dialog in place. */
  ghost predicate Steady(m: Screen, ins: seq<Input>)
    requires Sound(m.app)
    decreases |ins|
  {
    ins == []
    || (&& Retains(m, ins[0])
        && (Fine(m, ins[0]) ==> (MixedStepKeepsSound(m, ins[0]); Steady(MixedStep(m, ins[0]), ins[1..]))))
  }

  lemma InPlaceIsNotStale(s: State, k: Key)
    requires Core(s.tree) && InPlace(s)
    ensures !StaleCommit(s, k)
  {
    hide Core;
  }

  /** Dialogs that are left in place are committed in place. */
  lemma {:induction false} SteadyCommitsInPlace(m: Screen, ins: seq<Input>)
    requires Sound(m.app) && InPlace(m.app) && Steady(m, ins)
    ensures CommitsInPlace(m, ins)
    decreases |ins|
  {
    if ins != [] {
      var i := ins[0];
      if i.Loop? && i.event.Press? { InPlaceIsNotStale(m.app, i.event.key); }
      if Fine(m, i) {
        MixedStepKeepsSound(m, i);
        hide Sound, InPlace, MixedStep, Fine, Retains, StaleCommit;
        SteadyCommitsInPlace(MixedStep(m, i), ins[1..]);
      }
    }
  }
}
