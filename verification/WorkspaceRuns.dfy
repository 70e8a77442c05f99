/** What every keyboard run of the workspace keeps, and where a label press leads. */
module WorkspaceRuns {
  import opened Basics
  import opened Keys
  import opened Workspace
  import Jump

  // ---- a step keeps the workspace valid ----

  /** With at most one mode open, an open one is known to be the only one. */
  lemma TheOnlyMode(m: Modes)
    requires OpenModes(m) <= 1
    ensures m.copyMode ==> m == NO_MODE.(copyMode := true)
    ensures m.selectorActive ==> m == NO_MODE.(selectorActive := true)
    ensures m.showSettings ==> m == NO_MODE.(showSettings := true)
    ensures m.jumpMode ==> m == NO_MODE.(jumpMode := true)
    ensures OpenModes(m) == 0 ==> m == NO_MODE
  {
  }

  lemma CopyKeyKeepsValid(s: State, k: Key)
    requires Valid(s) && !s.onboarding && s.modes.copyMode
    ensures Valid(CopyKey(s, k))
  {
    hide Core;
  }

  lemma DeskDeleteKeyKeepsValid(s: State, k: Key)
    requires Valid(s) && !s.onboarding && s.modes.deskDelete.Some?
    ensures Valid(DeskDeleteKey(s, k))
  {
    hide Core;
  }

  lemma OfficeDeleteKeyKeepsValid(s: State, k: Key)
    requires Valid(s) && !s.onboarding && s.modes.officeDelete.Some?
    ensures Valid(OfficeDeleteKey(s, k))
  {
    hide Core;
  }

  lemma SelectorCharKeepsValid(s: State, c: char)
    requires Valid(s) && !s.onboarding && s.modes.selectorActive
    ensures Valid(SelectorChar(s, c))
  {
    TheOnlyMode(s.modes);
    hide Core;
  }

  lemma SelectorKeyKeepsValid(s: State, k: Key)
    requires Valid(s) && !s.onboarding && s.modes.selectorActive
    ensures Valid(SelectorKey(s, k))
  {
    TheOnlyMode(s.modes);
    hide Core, SelectorChar;
    if k.code.Char? { SelectorCharKeepsValid(s, k.code.c); }
  }

  lemma SettingsKeyKeepsValid(s: State, k: Key)
    requires Valid(s) && !s.onboarding && s.modes.showSettings
    ensures Valid(SettingsKey(s, k))
  {
    hide Core;
  }

  /** A rename that begins from the current desk or tab holds its place. */
  lemma BegunRenames(t: Tree)
    requires Core(t)
    ensures t.offices != [] && Selected(t) < |CurOffice(t).desks|
    ensures RenameInRange(t, BeginRenameDesk(t, Selected(t)).value.target)
    ensures RenameInRange(t, BeginRenameTab(t).value.target)
  {
  }

  lemma JumpCommandKeepsValid(s: State, c: char)
    requires Valid(s) && !s.onboarding && s.modes.jumpMode && JumpCommand(s.focus, c)
    ensures Valid(JumpCommandKey(s, c))
  {
    BegunRenames(s.tree);
    TheOnlyMode(s.modes);
    hide Core, RenameInRange, BeginRenameDesk, BeginRenameTab;
  }

  lemma JumpedKeepsValid(s: State, c: char, env: Env)
    requires Valid(s) && !s.onboarding && s.modes.jumpMode && !Stale(s, c)
    ensures Valid(Jumped(s, c, env))
  {
    TheOnlyMode(s.modes);
    hide Core, Chosen;
  }

  lemma JumpKeyKeepsValid(s: State, k: Key, env: Env)
    requires Valid(s) && !s.onboarding && s.modes.jumpMode && !StaleHit(s, k)
    ensures Valid(JumpKey(s, k, env))
  {
    TheOnlyMode(s.modes);
    hide Core, Jumped, JumpCommandKey, JumpCommand, Stale;
    if k.code.Char? {
      if JumpCommand(s.focus, k.code.c) {
        JumpCommandKeepsValid(s, k.code.c);
      } else if Jump.IsAlphanumeric(k.code.c) {
        JumpedKeepsValid(s, k.code.c, env);
      }
    }
  }

  lemma RenameKeyKeepsValid(s: State, k: Key)
    requires Valid(s) && !s.onboarding && s.modes.rename.Some?
    ensures Valid(RenameKey(s, k))
  {
    hide Core;
  }

  lemma EscKeyKeepsValid(s: State, env: Env)
    requires Valid(s) && !s.onboarding && s.modes == NO_MODE
    ensures Valid(EscKey(s, env))
  {
    hide Core;
  }

  lemma AltDigitKeepsValid(s: State, c: char, env: Env)
    requires Valid(s) && !s.onboarding && s.modes == NO_MODE && '0' <= c <= '9'
    ensures Valid(AltDigit(s, c, env))
  {
    hide Core, DialogsInRange;
    NothingOpen(s.tree);
    NothingOpen(AltDigit(s, c, env).tree);
  }

  lemma NothingOpen(t: Tree)
    requires Core(t)
    ensures DialogsInRange(t, NO_MODE) && OpenModes(NO_MODE) == 0
  {
  }

  /** Keys taken with no mode open either leave none open or open one on the tree as it is. */
  lemma OpensAtMostOne(s: State, r: State)
    requires Valid(s) && !r.onboarding && r.settingsSelected == s.settingsSelected && r.pendingEsc.None? && Core(r.tree)
    requires || r.modes == NO_MODE
             || (OpenModes(r.modes) == 1 && DialogsUsable(r.tree, r.modes) && DialogsInRange(r.tree, r.modes))
    ensures Valid(r)
  {
    NothingOpen(r.tree);
  }

  lemma SidebarCharKeepsValid(s: State, c: char, env: Env)
    requires Valid(s) && !s.onboarding && s.modes == NO_MODE && s.pendingEsc.None?
    ensures Valid(SidebarChar(s, c, env))
  {
    BegunRenames(s.tree);
    hide Core, RenameInRange, BeginRenameDesk;
    OpensAtMostOne(s, SidebarChar(s, c, env));
  }

  lemma SidebarKeyKeepsValid(s: State, k: Key, env: Env)
    requires Valid(s) && !s.onboarding && s.modes == NO_MODE && s.pendingEsc.None?
    ensures Valid(SidebarKey(s, k, env))
  {
    BegunRenames(s.tree);
    hide Core, SidebarChar;
    if k.code.Char? { SidebarCharKeepsValid(s, k.code.c, env); } else { OpensAtMostOne(s, SidebarKey(s, k, env)); }
  }

  lemma TopbarCharKeepsValid(s: State, c: char, env: Env)
    requires Valid(s) && !s.onboarding && s.modes == NO_MODE && s.pendingEsc.None?
    ensures Valid(TopbarChar(s, c, env))
  {
    BegunRenames(s.tree);
    hide Core, RenameInRange, BeginRenameTab;
    OpensAtMostOne(s, TopbarChar(s, c, env));
  }

  lemma TopbarKeyKeepsValid(s: State, k: Key, env: Env)
    requires Valid(s) && !s.onboarding && s.modes == NO_MODE && s.pendingEsc.None?
    ensures Valid(TopbarKey(s, k, env))
  {
    hide Core, TopbarChar;
    if k.code.Char? { TopbarCharKeepsValid(s, k.code.c, env); } else { OpensAtMostOne(s, TopbarKey(s, k, env)); }
  }

  lemma ContentKeyKeepsValid(s: State, k: Key)
    requires Valid(s) && !s.onboarding
    ensures Valid(ContentKey(s, k))
  {
    hide Core, DialogsInRange;
  }

  lemma FlushEscKeepsValid(s: State)
    requires Valid(s) && !s.onboarding
    ensures Valid(FlushEsc(s))
  {
    hide Core, DialogsInRange;
  }

  lemma PlainKeyKeepsValid(s: State, k: Key, env: Env)
    requires Valid(s) && !s.onboarding && s.modes == NO_MODE
    ensures Valid(PlainKey(s, k, env).state)
  {
    hide Core, DialogsInRange, SidebarKey, TopbarKey, ContentKey, AltDigit, EscKey;
    FlushEscKeepsValid(s);
    var f := if s.focus.Content? then FlushEsc(s) else s;
    assert Valid(f) && !f.onboarding && f.modes == NO_MODE && (!f.focus.Content? ==> f.pendingEsc.None?);
    hide Valid, FlushEsc;
    if k.code.Esc? {
      EscKeyKeepsValid(s, env);
    } else if k.alt && IsDigit(k) {
      AltDigitKeepsValid(f, k.code.c, env);
    } else if s.focus.Sidebar? {
      SidebarKeyKeepsValid(f, k, env);
    } else if s.focus.Topbar? {
      TopbarKeyKeepsValid(f, k, env);
    } else {
      ContentKeyKeepsValid(f, k);
    }
  }

  lemma HandleKeyKeepsValid(s: State, k: Key, env: Env)
    requires Valid(s) && !s.onboarding && !StaleHit(s, k)
    ensures Valid(HandleKey(s, k, env).state)
  {
    hide Valid, CopyKey, DeskDeleteKey, OfficeDeleteKey, SelectorKey, SettingsKey, JumpKey, RenameKey, PlainKey;
    if Ignored(s, k) {
    } else if s.modes.copyMode {
      CopyKeyKeepsValid(s, k);
    } else if s.modes.deskDelete.Some? {
      DeskDeleteKeyKeepsValid(s, k);
    } else if s.modes.officeDelete.Some? {
      OfficeDeleteKeyKeepsValid(s, k);
    } else if s.modes.selectorActive {
      SelectorKeyKeepsValid(s, k);
    } else if s.modes.showSettings {
      SettingsKeyKeepsValid(s, k);
    } else if s.modes.jumpMode {
      JumpKeyKeepsValid(s, k, env);
    } else if s.modes.rename.Some? {
      RenameKeyKeepsValid(s, k);
    } else {
      assert OpenModes(s.modes) == 0;
      TheOnlyMode(s.modes);
      PlainKeyKeepsValid(s, k, env);
    }
  }

  /** Onboarding opens the new office. */
  lemma OnboardedKeepsValid(s: State, office: UsableOffice)
    requires Valid(s) && s.onboarding
    ensures Valid(Step(s, Onboarded(Some(office))))
    ensures CurOffice(Step(s, Onboarded(Some(office))).tree).desks == office.desks
  {
    var t := EnterOffice(s.tree.(offices := s.tree.offices + [office]), |s.tree.offices|);
    hide GoodOffices;
    NothingOpen(t);
  }

  lemma SyncFocusTouches(s: State, env: Env)
    requires Core(s.tree)
    ensures var r := SyncFocus(s, env); r == s.(prevFocus := s.focus, log := r.log)
  {
    hide Core;
  }

  lemma FlushTickTouches(s: State, now: nat)
    requires Core(s.tree)
    ensures var r := FlushTick(s, now); r == s.(pendingEsc := r.pendingEsc, log := r.log)
    ensures FlushTick(s, now).pendingEsc.Some? ==> FlushTick(s, now) == s
  {
    hide Core, Elapsed;
  }

  /** A pass of the main loop leaves the workspace and its modes alone. */
  lemma MainPassTouches(s: State, env: Env, connected: bool, drawn: Option<Drawn>)
    requires Core(s.tree)
    ensures var r := MainPass(s, env, connected, drawn);
            && r == s.(connected := connected, prevFocus := s.focus, pendingEsc := r.pendingEsc, hits := r.hits,
                       tabScroll := r.tabScroll, log := r.log)
            && (r.pendingEsc.Some? ==> r.pendingEsc == s.pendingEsc)
  {
    hide Core, SyncFocus, FlushTick;
    var s1 := s.(connected := connected);
    SyncFocusTouches(s1, env);
    FlushTickTouches(SyncFocus(s1, env), env.now);
  }

  lemma MainPassKeepsValid(s: State, env: Env, connected: bool, drawn: Option<Drawn>)
    requires Valid(s) && !s.onboarding
    ensures Valid(MainPass(s, env, connected, drawn))
  {
    MainPassTouches(s, env, connected, drawn);
    hide Core, DialogsInRange, OpenModes, MainPass;
  }

  lemma StepKeepsValid(s: State, e: Event)
    requires Valid(s) && Allowed(s, e)
    ensures Valid(Step(s, e))
  {
    hide HandleKey, MainPass, OpenModes;
    match e
    case Press(k, env) => if !s.onboarding { HandleKeyKeepsValid(s, k, env); }
    case Pass(env, connected, drawn) => if !s.onboarding { MainPassKeepsValid(s, env, connected, drawn); }
    case Paste(_) =>
    case Onboarded(office) => if s.onboarding && office.Some? { OnboardedKeepsValid(s, office.value); }
  }

  // ---- runs ----

  /** Every index that the handlers of the run use is in range. */
  ghost predicate Safe(s: State, es: seq<Event>)
    requires Valid(s)
    decreases |es|
  {
    es == [] || (Allowed(s, es[0]) && (StepKeepsValid(s, es[0]); Safe(Step(s, es[0]), es[1..])))
  }

  /** In every such run the workspace stays valid. */
  ghost function Run(s: State, es: seq<Event>): (r: State)
    requires Valid(s) && Safe(s, es)
    ensures Valid(r)
    decreases |es|
  {
    if es == [] then s else StepKeepsValid(s, es[0]); Run(Step(s, es[0]), es[1..])
  }

  /** Every tab with a hit area exists. */
  ghost predicate FreshHits(s: State)
    requires Core(s.tree)
  {
    forall t :: t in s.hits.tabIndices ==> t < |CurDesk(s.tree).tabs|
  }

  lemma ChosenIsListed(s: State, c: char)
    requires Core(s.tree) && Chosen(s, c).Some?
    ensures var t := Chosen(s, c).value;
            if t.TabTarget? then t.desk == Selected(s.tree) && t.tab in s.hits.tabIndices
            else t.desk < |CurOffice(s.tree).desks|
  {
    hide Jump.Position, Jump.Labels, Jump.Targets;
    var i := Jump.Position(Jump.Labels(s.focus), c).value;
    var desks := Jump.VisibleDesks(|CurOffice(s.tree).desks|, s.hits.listHeight, s.hits.listOffset);
    Jump.TargetIsListed(s.focus, |Jump.Labels(s.focus)|, s.hits.tabIndices, desks, Selected(s.tree), i);
  }

  lemma FreshHitsAreNotStale(s: State, k: Key)
    requires Core(s.tree) && FreshHits(s)
    ensures !StaleHit(s, k)
  {
    hide Core, Chosen;
    if StaleHit(s, k) { ChosenIsListed(s, k.code.c); }
  }

  lemma DrawFreshens(s: State, env: Env, connected: bool, d: Drawn)
    requires Core(s.tree)
    ensures FreshHits(MainPass(s, env, connected, Some(d)))
  {
    var ready := FlushTick(SyncFocus(s.(connected := connected), env), env.now);
    hide Core, GoodDesk;
    assert ready.tree == s.tree;
  }

  predicate Draws(e: Event) { e.Pass? && e.drawn.Some? }

  /** Between two keys the screen is drawn. */
  ghost predicate Redrawn(es: seq<Event>) {
    forall i :: 0 < i < |es| && es[i].Press? ==> Draws(es[i - 1])
  }

  /** With a redraw between events, no key ever meets a stale hit: every keyboard run is safe, and so valid. */
  lemma {:induction false} RedrawnRunsAreSafe(s: State, es: seq<Event>)
    requires Valid(s) && Redrawn(es)
    requires es != [] && es[0].Press? && !s.onboarding ==> FreshHits(s)
    ensures Safe(s, es)
    decreases |es|
  {
    if es != [] {
      var e := es[0];
      hide HandleKey, MainPass, StaleHit, GoodOffices;
      if e.Press? && !s.onboarding { FreshHitsAreNotStale(s, e.key); }
      StepKeepsValid(s, e);
      if Draws(e) && !s.onboarding { DrawFreshens(s, e.env, e.connected, e.drawn.value); }
      hide Valid, FreshHits, Step;
      if |es| > 1 && es[1].Press? { assert Draws(e); }
      assert forall i :: 0 < i < |es| - 1 ==> es[1..][i] == es[i + 1] && es[1..][i - 1] == es[i];
      RedrawnRunsAreSafe(Step(s, e), es[1..]);
    }
  }
}
