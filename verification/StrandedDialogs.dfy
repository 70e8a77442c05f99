/** Rename dialogs that outlive the desk, tab or office that they were opened on, in runs that mix keys and mouse
    events: which keys strand one, and a run that does. */
module StrandedDialogs {
  import opened Basics
  import opened Keys
  import opened Workspace
  import opened WorkspaceLaws
  import opened Mouse
  import opened MixedRuns
  import Bar = Topbar
  import RenameEditor

  // ---- which keys ----

  /** A key that leaves the rename dialog alone on the screen strands it, so that Enter then indexes out of range,
      exactly when there is a name to commit and the key has put other desks or offices in place, among which the
      dialog's place is not. */
  lemma KeyStrandsDialogIff(s: State, k: Key, env: Env)
    requires Sound(s) && InPlace(s) && s.modes.rename.Some? && !StaleHit(s, k) && !StaleCommit(s, k)
    requires HandleKey(s, k, env).state.modes == NO_MODE.(rename := s.modes.rename)
    ensures var r, d := HandleKey(s, k, env).state, s.modes.rename.value;
            && Core(r.tree)
            && (StaleCommit(r, Bare(Enter))
                <==> Trim(d.text.chars) != "" && Renewed(s, k).Some? && !FitsIn(Renewed(s, k).value, d.target))
  {
    HandleKeyKeeps(s, k, env);
    hide Core, HandleKey, Renewed, FitsIn, RenameInRange, Trim;
  }

  /** The selector, opened over the dialog by the mouse and entered at office `j`. */
  lemma SwitchStrandsDialogIff(s: State, j: nat, env: Env)
    requires Sound(s) && InPlace(s) && s.modes.rename.Some? && s.modes == NO_MODE.(rename := s.modes.rename)
    requires j < |s.tree.offices|
    ensures var c := ClickSelector(s).(selectorIndex := Some(j));
            var r, d := HandleKey(c, Bare(Enter), env).state, s.modes.rename.value;
            && Core(r.tree)
            && (StaleCommit(r, Bare(Enter))
                <==> Trim(d.text.chars) != "" && !FitsIn(Places(s.tree.offices[j].desks, |s.tree.offices|), d.target))
  {
    var c := ClickSelector(s).(selectorIndex := Some(j));
    SelectorAnswers(c, env);
    hide Core, FitsIn, RenameInRange, Trim, HandleKey;
    KeyStrandsDialogIff(c, Bare(Enter), env);
  }

  lemma SelectorAnswers(c: State, env: Env)
    requires Sound(c) && c.modes.selectorActive && SelectorIndex(c) < |c.tree.offices|
    requires c.modes == NO_MODE.(selectorActive := true, rename := c.modes.rename)
    ensures HandleKey(c, Bare(Enter), env).state.modes == NO_MODE.(rename := c.modes.rename)
    ensures Renewed(c, Bare(Enter)) == Some(Places(c.tree.offices[SelectorIndex(c)].desks, |c.tree.offices|))
  {
    hide GoodOffices, EnterOffice, ActiveTab;
  }

  /** The deletion of an office, confirmed over the dialog. */
  lemma DeletionStrandsDialogIff(s: State, env: Env)
    requires Sound(s) && InPlace(s) && s.modes.rename.Some? && s.modes.officeDelete.Some?
    requires s.modes == NO_MODE.(rename := s.modes.rename, officeDelete := s.modes.officeDelete)
    requires var o := s.modes.officeDelete.value; o.input == s.tree.offices[o.office].name && |s.tree.offices| > 1
    ensures var r, d, n := HandleKey(s, Bare(Enter), env).state, s.modes.rename.value, |s.tree.offices|;
            var desks := s.tree.offices[Before(Min(s.tree.currentOffice, n - 2), s.modes.officeDelete.value.office)].desks;
            && Core(r.tree)
            && (StaleCommit(r, Bare(Enter)) <==> Trim(d.text.chars) != "" && !FitsIn(Places(desks, n - 1), d.target))
  {
    DeletionAnswers(s, env);
    hide Core, FitsIn, RenameInRange, Trim, HandleKey;
    KeyStrandsDialogIff(s, Bare(Enter), env);
  }

  lemma DeletionAnswers(s: State, env: Env)
    requires Sound(s) && s.modes.rename.Some? && s.modes.officeDelete.Some?
    requires s.modes == NO_MODE.(rename := s.modes.rename, officeDelete := s.modes.officeDelete)
    requires var o := s.modes.officeDelete.value; o.input == s.tree.offices[o.office].name && |s.tree.offices| > 1
    ensures HandleKey(s, Bare(Enter), env).state.modes == NO_MODE.(rename := s.modes.rename)
  {
    hide Core, RemoveOffice, ActiveTab;
  }

  // ---- runs, piece by piece ----

  lemma NothingMore(m: Screen)
    requires Sound(m.app)
    ensures FineRun(m, []) && MixedRun(m, []) == m
  {
  }

  lemma OneMoreInput(m: Screen, i: Input, ins: seq<Input>)
    requires Sound(m.app) && Fine(m, i) && Sound(MixedStep(m, i).app) && FineRun(MixedStep(m, i), ins)
    ensures FineRun(m, [i] + ins) && MixedRun(m, [i] + ins) == MixedRun(MixedStep(m, i), ins)
  {
    hide MixedStep, Fine, Sound;
    assert ([i] + ins)[1..] == ins;
  }

  lemma OneInput(m: Screen, i: Input)
    requires Sound(m.app) && Fine(m, i) && Sound(MixedStep(m, i).app)
    ensures FineRun(m, [i]) && MixedRun(m, [i]) == MixedStep(m, i)
  {
    NothingMore(MixedStep(m, i));
    OneMoreInput(m, i, []);
    assert [i] + [] == [i];
  }

  lemma FirstInput(m: Screen, ins: seq<Input>)
    requires Sound(m.app) && FineRun(m, ins) && ins != []
    ensures Fine(m, ins[0]) && Sound(MixedStep(m, ins[0]).app) && FineRun(MixedStep(m, ins[0]), ins[1..])
    ensures MixedRun(m, ins) == MixedRun(MixedStep(m, ins[0]), ins[1..])
  {
    MixedStepKeepsSound(m, ins[0]);
    hide MixedStep, Fine, Sound;
  }

  lemma HeadAndTail<T>(a: seq<T>, b: seq<T>)
    requires a != []
    ensures [a[0]] + (a[1..] + b) == a + b
  {
  }

  lemma {:induction false} RunsJoin(m: Screen, a: seq<Input>, b: seq<Input>)
    requires Sound(m.app) && FineRun(m, a) && FineRun(MixedRun(m, a), b)
    ensures FineRun(m, a + b) && MixedRun(m, a + b) == MixedRun(MixedRun(m, a), b)
    decreases |a|
  {
    if a == [] {
      assert a + b == b;
    } else {
      FirstInput(m, a);
      hide *;
      HeadAndTail(a, b);
      RunsJoin(MixedStep(m, a[0]), a[1..], b);
      OneMoreInput(m, a[0], a[1..] + b);
    }
  }

  function Stroke(code: KeyCode, env: Env, l: Bar.Layout): Input { Loop(Event.Press(Bare(code), env), l) }

  function Strokes(code: KeyCode, n: nat, env: Env, l: Bar.Layout): seq<Input> {
    if n == 0 then [] else [Stroke(code, env, l)] + Strokes(code, n - 1, env, l)
  }

  // ---- a run that strands a dialog ----

  /** The sidebar has the keys, with `desks` desks in the current office. */
  ghost predicate AtSidebar(s: State, desks: nat) {
    && Sound(s) && s.modes == NO_MODE && s.focus.Sidebar? && !s.onboarding
    && |CurOffice(s.tree).desks| == desks
  }

  /** The last desk is selected, and has a name. */
  ghost predicate OnNewDesk(s: State)
    requires Core(s.tree)
  {
    Selected(s.tree) == |CurOffice(s.tree).desks| - 1 && Trim(CurDesk(s.tree).name) != ""
  }

  lemma NumberedNames(n: nat)
    ensures Trim("Desk " + Decimal(n)) != ""
  {
    var name := "Desk " + Decimal(n);
    var before, after := TrimTrims(name);
    assert name[0] == 'D' && name[0] in name && !IsWhitespace('D');
  }

  lemma NewDeskOpens(s: State, desks: nat, env: Env)
    requires AtSidebar(s, desks)
    ensures var r := HandleKey(s, Bare(Char('n')), env).state;
            && AtSidebar(r, desks + 1) && OnNewDesk(r)
            && |r.tree.offices| == |s.tree.offices| && r.tree.currentOffice == s.tree.currentOffice
  {
    NumberedNames(desks + 1);
    var t := AddDesk(s.tree, env.freshId);
    hide GoodOffices, Trim, StaleHit, ActiveTab;
    assert HandleKey(s, Bare(Char('n')), env).state == Show(s, t);
    assert CurDesk(t).name == "Desk " + Decimal(desks + 1);
  }

  lemma {:induction false} NewDesksOpen(m: Screen, desks: nat, n: nat, env: Env, l: Bar.Layout)
    requires AtSidebar(m.app, desks) && n > 0
    ensures var ins := Strokes(Char('n'), n, env, l);
            && FineRun(m, ins)
            && var r := MixedRun(m, ins);
            && AtSidebar(r.app, desks + n) && OnNewDesk(r.app) && r == m.(app := r.app)
            && |r.app.tree.offices| == |m.app.tree.offices| && r.app.tree.currentOffice == m.app.tree.currentOffice
    decreases n
  {
    var i := Stroke(Char('n'), env, l);
    NewDeskOpens(m.app, desks, env);
    assert Fine(m, i) && MixedStep(m, i) == m.(app := HandleKey(m.app, Bare(Char('n')), env).state);
    var next := MixedStep(m, i);
    if n == 1 {
      NothingMore(next);
      assert Strokes(Char('n'), 0, env, l) == [];
    } else {
      hide AtSidebar, OnNewDesk, Core, HandleKey, FineRun, MixedRun, MixedStep, Fine, StaleHit;
      NewDesksOpen(next, desks + 1, n - 1, env, l);
    }
    hide AtSidebar, OnNewDesk, Core, HandleKey, FineRun, MixedRun, MixedStep, Fine, StaleHit;
    OneMoreInput(m, i, Strokes(Char('n'), n - 1, env, l));
  }

  /** The rename dialog, alone on the screen, on the desk `desk`. */
  ghost predicate Renaming(s: State, desk: nat) {
    && Sound(s) && !s.onboarding
    && s.modes.rename.Some? && s.modes == NO_MODE.(rename := s.modes.rename)
    && s.modes.rename.value.target == RenameEditor.Desk(desk) && Trim(s.modes.rename.value.text.chars) != ""
  }

  lemma RenameOpens(s: State, desks: nat, env: Env)
    requires AtSidebar(s, desks) && OnNewDesk(s)
    ensures var r := HandleKey(s, Bare(Char('r')), env).state;
            Renaming(r, desks - 1) && r == s.(modes := r.modes)
  {
    hide GoodOffices, Trim;
    assert HandleKey(s, Bare(Char('r')), env).state
        == s.(modes := NO_MODE.(rename := BeginRenameDesk(s.tree, Selected(s.tree))));
  }

  /** The dialog with the selector over it. */
  ghost predicate Choosing(s: State, desk: nat, index: nat) {
    && Sound(s) && !s.onboarding && s.selectorIndex == Some(index) && s.modes.selectorActive
    && Renaming(s.(modes := s.modes.(selectorActive := false)), desk)
  }

  lemma SelectorIsHit(m: Screen, desk: nat, click: MouseEvent, env: Env)
    requires click.kind == ButtonDown(LeftButton) && Bar.InRect(click.col, click.row, m.layout.selector)
    requires !Bar.InRect(click.col, click.row, m.layout.content) && Renaming(m.app, desk)
    ensures var i, press := Pointer(click, false, env), Some(Mouse.Press(click.col, click.row, env.now));
            && Fine(m, i) && MixedStep(m, i) == Screen(ClickSelector(m.app), m.layout, press)
            && Choosing(ClickSelector(m.app), desk, m.app.tree.currentOffice)
  {
    hide Core, Bar.InRect, Trim;
    assert Pressed(m.app, Seen(m), m.last, click, env) == Some(Bar.OpenSelector);
  }

  lemma DownChooses(s: State, desk: nat, index: nat, env: Env)
    requires Choosing(s, desk, index) && index < |s.tree.offices|
    ensures var r := HandleKey(s, Bare(Down), env).state;
            r == s.(selectorIndex := Some(index + 1)) && Choosing(r, desk, index + 1)
  {
    hide Core, Trim;
  }

  lemma {:induction false} DownsChoose(m: Screen, desk: nat, index: nat, n: nat, env: Env, l: Bar.Layout)
    requires Choosing(m.app, desk, index) && index + n <= |m.app.tree.offices|
    ensures var ins := Strokes(Down, n, env, l);
            && FineRun(m, ins)
            && MixedRun(m, ins) == m.(app := m.app.(selectorIndex := Some(index + n)))
            && Choosing(MixedRun(m, ins).app, desk, index + n)
    decreases n
  {
    if n == 0 {
      NothingMore(m);
      assert m.app == m.app.(selectorIndex := Some(index));
    } else {
      var i := Stroke(Down, env, l);
      DownChooses(m.app, desk, index, env);
      var next := m.(app := m.app.(selectorIndex := Some(index + 1)));
      assert Fine(m, i) && MixedStep(m, i) == next;
      hide Choosing, Core, HandleKey, FineRun, MixedRun, MixedStep, Fine;
      DownsChoose(next, desk, index + 1, n - 1, env, l);
      OneMoreInput(m, i, Strokes(Down, n - 1, env, l));
    }
  }

  /** The last entry of the selector asks for a new office; its desks take the place of the present ones. */
  lemma NewOfficeStrands(s: State, desk: nat, office: UsableOffice, env: Env)
    requires Choosing(s, desk, |s.tree.offices|) && |office.desks| <= desk
    ensures var asked := HandleKey(s, Bare(Enter), env).state;
            var r := FinishOnboarding(asked, Some(office));
            && Sound(asked) && asked.onboarding
            && Sound(r) && !r.onboarding && StaleCommit(r, Bare(Enter))
  {
    AskingForAnOffice(s, desk, env);
    var asked := HandleKey(s, Bare(Enter), env).state;
    hide HandleKey;
    StepKeepsSound(asked, Onboarded(Some(office)));
    EnteredPlaces(s.tree.(offices := s.tree.offices + [office]), |s.tree.offices|);
    hide GoodOffices, EnterOffice, Trim, ActiveTab, StaleHit;
  }

  lemma AskingForAnOffice(s: State, desk: nat, env: Env)
    requires Choosing(s, desk, |s.tree.offices|)
    ensures HandleKey(s, Bare(Enter), env).state
            == s.(modes := s.modes.(selectorActive := false), onboarding := true)
  {
    hide Core, Trim;
  }

  /** As many new desks as the office to come has, and the rename dialog of the last. */
  function Opening(office: UsableOffice, env: Env, l: Bar.Layout): seq<Input> {
    Strokes(Char('n'), |office.desks|, env, l) + [Stroke(Char('r'), env, l)]
  }

  /** The selector's last entry, and the creation of the office. */
  function Creating(office: UsableOffice, env: Env, l: Bar.Layout): seq<Input> {
    [Stroke(Enter, env, l), Loop(Onboarded(Some(office)), l)]
  }

  /** A press on the selector's button, and the `n` steps down that lead to its last entry. */
  function Replacing(n: nat, click: MouseEvent, office: UsableOffice, env: Env, l: Bar.Layout): seq<Input> {
    [Pointer(click, false, env)] + (Strokes(Down, n, env, l) + Creating(office, env, l))
  }

  lemma DialogOpens(m: Screen, desks: nat, n: nat, env: Env, l: Bar.Layout)
    requires AtSidebar(m.app, desks) && n > 0
    ensures var ins := Strokes(Char('n'), n, env, l) + [Stroke(Char('r'), env, l)];
            && FineRun(m, ins)
            && var r := MixedRun(m, ins);
            && Renaming(r.app, desks + n - 1) && r == m.(app := r.app)
            && |r.app.tree.offices| == |m.app.tree.offices| && r.app.tree.currentOffice == m.app.tree.currentOffice
  {
    NewDesksOpen(m, desks, n, env, l);
    var i, mid := Stroke(Char('r'), env, l), MixedRun(m, Strokes(Char('n'), n, env, l));
    RenameOpens(mid.app, desks + n, env);
    assert Fine(mid, i) && MixedStep(mid, i) == mid.(app := HandleKey(mid.app, Bare(Char('r')), env).state);
    hide Core, HandleKey, Renaming, FineRun, MixedRun, MixedStep, Fine, Strokes, Trim;
    OneInput(mid, i);
    RunsJoin(m, Strokes(Char('n'), n, env, l), [i]);
  }

  lemma OfficeCreated(m: Screen, desk: nat, office: UsableOffice, env: Env, l: Bar.Layout)
    requires Choosing(m.app, desk, |m.app.tree.offices|) && |office.desks| <= desk
    ensures FineRun(m, Creating(office, env, l)) && Strands(MixedRun(m, Creating(office, env, l)))
  {
    NewOfficeStrands(m.app, desk, office, env);
    var enter, create := Stroke(Enter, env, l), Loop(Onboarded(Some(office)), l);
    var asked := m.(app := HandleKey(m.app, Bare(Enter), env).state);
    assert Fine(m, enter) && MixedStep(m, enter) == asked;
    assert Fine(asked, create) && MixedStep(asked, create) == asked.(app := FinishOnboarding(asked.app, Some(office)));
    hide Core, HandleKey, FinishOnboarding, StaleCommit, FineRun, MixedRun, MixedStep, Fine;
    OneInput(asked, create);
    OneMoreInput(m, enter, [create]);
    assert [enter] + [create] == Creating(office, env, l);
  }

  /** Enter would commit a name to a place that does not exist. */
  ghost predicate Strands(m: Screen) {
    Core(m.app.tree) && !m.app.onboarding && StaleCommit(m.app, Bare(Enter))
  }

  lemma StrandsAfter(m: Screen, a: seq<Input>, b: seq<Input>)
    requires Sound(m.app) && FineRun(m, a) && FineRun(MixedRun(m, a), b) && Strands(MixedRun(MixedRun(m, a), b))
    ensures FineRun(m, a + b) && Strands(MixedRun(m, a + b))
  {
    hide *;
    RunsJoin(m, a, b);
  }

  lemma StrandsAfterFirst(m: Screen, i: Input, n: Screen, ins: seq<Input>)
    requires Sound(m.app) && Fine(m, i) && MixedStep(m, i) == n && Sound(n.app)
    requires FineRun(n, ins) && Strands(MixedRun(n, ins))
    ensures FineRun(m, [i] + ins) && Strands(MixedRun(m, [i] + ins))
  {
    hide *;
    OneMoreInput(m, i, ins);
  }

  lemma DownsCreate(m: Screen, desk: nat, index: nat, n: nat, office: UsableOffice, env: Env, l: Bar.Layout)
    requires Choosing(m.app, desk, index) && index + n == |m.app.tree.offices| && |office.desks| <= desk
    ensures var ins := Strokes(Down, n, env, l) + Creating(office, env, l); FineRun(m, ins) && Strands(MixedRun(m, ins))
  {
    hide Strokes, Creating, FineRun, MixedRun, Strands, Core, Choosing;
    DownsChoose(m, desk, index, n, env, l);
    OfficeCreated(m.(app := m.app.(selectorIndex := Some(index + n))), desk, office, env, l);
    StrandsAfter(m, Strokes(Down, n, env, l), Creating(office, env, l));
  }

  lemma SelectorStrands(m: Screen, desk: nat, n: nat, click: MouseEvent, office: UsableOffice, env: Env, l: Bar.Layout)
    requires click.kind == ButtonDown(LeftButton) && Bar.InRect(click.col, click.row, m.layout.selector)
    requires !Bar.InRect(click.col, click.row, m.layout.content) && Renaming(m.app, desk) && |office.desks| <= desk
    requires m.app.tree.currentOffice + n == |m.app.tree.offices|
    ensures var ins := Replacing(n, click, office, env, l); FineRun(m, ins) && Strands(MixedRun(m, ins))
  {
    var i, press := Pointer(click, false, env), Some(Mouse.Press(click.col, click.row, env.now));
    var over := Screen(ClickSelector(m.app), m.layout, press);
    SelectorIsHit(m, desk, click, env);
    hide Core, Choosing, Strands, FineRun, MixedRun, MixedStep, Fine, Strokes, Creating, Bar.InRect, Seen, Pressed;
    DownsCreate(over, desk, m.app.tree.currentOffice, n, office, env, l);
    StrandsAfterFirst(m, i, over, Strokes(Down, n, env, l) + Creating(office, env, l));
  }

  /** From any workspace whose sidebar has the keys, and for whatever office onboarding then creates, these inputs end
      where Enter commits a rename to a desk that the new office does not have. */
  lemma AnySidebarStrandsDialog(m: Screen, desks: nat, n: nat, click: MouseEvent, office: UsableOffice, env: Env)
    requires AtSidebar(m.app, desks) && m.app.tree.currentOffice + n == |m.app.tree.offices|
    requires click.kind == ButtonDown(LeftButton) && Bar.InRect(click.col, click.row, m.layout.selector)
    requires !Bar.InRect(click.col, click.row, m.layout.content)
    ensures var ins := Opening(office, env, m.layout) + Replacing(n, click, office, env, m.layout);
            FineRun(m, ins) && Strands(MixedRun(m, ins))
  {
    DialogOpens(m, desks, |office.desks|, env, m.layout);
    hide FineRun, MixedRun, AtSidebar, Renaming, Core, Replacing, Strands, Bar.InRect, Strokes;
    var open := MixedRun(m, Opening(office, env, m.layout));
    SelectorStrands(open, desks + |office.desks| - 1, n, click, office, env, m.layout);
    StrandsAfter(m, Opening(office, env, m.layout), Replacing(n, click, office, env, m.layout));
  }

  /** Every client starts there, whatever workspace it has loaded. */
  lemma ClientStartsAtSidebar(saved: Option<Tree>, freshId: string, themeIndex: nat)
    requires themeIndex < THEMES && (saved.Some? ==> GoodOffices(saved.value.offices))
    ensures var s := Started(saved, freshId, themeIndex); AtSidebar(s, |CurOffice(s.tree).desks|)
  {
  }
}
