/** Laws of the workspace that span several keys: jumping, deleting an office, and spawned tabs. */
module WorkspaceLaws {
  import opened Basics
  import opened Keys
  import opened Workspace
  import opened WorkspaceRuns
  import Jump
  import Bar = Topbar

  // ---- Jump Mode ----

  lemma LabelIsChosen(s: State, i: nat)
    requires Core(s.tree) && i < |JumpTargets(s)|
    ensures i < |Jump.Labels(s.focus)| && Chosen(s, Jump.Labels(s.focus)[i]) == Some(JumpTargets(s)[i])
  {
    Jump.PositionOfLabel(s.focus, i);
  }

  lemma LabelIsNoCommand(s: State, i: nat)
    requires i < |Jump.Labels(s.focus)|
    ensures var c := Jump.Labels(s.focus)[i]; !JumpCommand(s.focus, c) && Jump.IsAlphanumeric(c)
  {
    hide Jump.Labels;
    Jump.LabelsAreUsable(s.focus);
    assert Jump.Labels(s.focus)[i] in Jump.Labels(s.focus);
  }

  /** The workspace and focus after a jump to a target. */
  ghost predicate At(s: State, origin: State, target: Jump.Target)
    requires Core(s.tree) && Core(origin.tree)
  {
    && !s.modes.jumpMode
    && s.focus == (if origin.focus == Jump.Content then Jump.Content
                   else if target.DeskTarget? then Jump.Sidebar else Jump.Topbar)
    && s.tree.currentOffice == origin.tree.currentOffice
    && if target.DeskTarget? then Selected(s.tree) == target.desk
       else Selected(s.tree) == target.desk == Selected(origin.tree) && CurDesk(s.tree).activeTab == target.tab
  }

  lemma JumpedArrives(s: State, c: char, env: Env)
    requires Valid(s) && s.modes.jumpMode && !s.onboarding && !Stale(s, c) && Chosen(s, c).Some?
    ensures Valid(Jumped(s, c, env)) && At(Jumped(s, c, env), s, Chosen(s, c).value)
  {
    JumpedKeepsValid(s, c, env);
    ChosenIsListed(s, c);
    hide Valid, Chosen, GoodOffices, GoodDesk;
  }

  ghost predicate Arrives(o: Outcome, origin: State, target: Jump.Target)
    requires Core(origin.tree)
  {
    !o.quit && Valid(o.state) && At(o.state, origin, target)
  }

  /** Once Jump Mode is up, it is the mode that gets the key. */
  lemma JumpModeGetsTheKey(s: State, k: Key, env: Env)
    requires Valid(s) && s.modes.jumpMode && !StaleHit(s, k)
    requires k.code.Char? && !JumpCommand(s.focus, k.code.c) && Jump.IsAlphanumeric(k.code.c) && (s.connected || !k.ctrl)
    ensures HandleKey(s, k, env) == Outcome(Jumped(s, k.code.c, env), false)
  {
    TheOnlyMode(s.modes);
    hide Core, Jumped, StaleHit, Stale, OpenModes;
  }

  /** In Jump Mode, pressing the i-th label reaches the i-th target: no command key shadows it. */
  lemma LabelReachesTarget(s: State, i: nat, k: Key, env: Env)
    requires Valid(s) && s.modes.jumpMode && !s.onboarding && FreshHits(s) && (s.connected || !k.ctrl)
    requires i < |JumpTargets(s)| && i < |Jump.Labels(s.focus)| && IsChar(k, Jump.Labels(s.focus)[i])
    ensures !StaleHit(s, k) && Arrives(HandleKey(s, k, env), s, JumpTargets(s)[i])
  {
    assert Core(s.tree);
    hide Valid, Core, At, JumpTargets, HandleKey, Stale, Chosen, JumpCommand, FreshHits;
    FreshHitsAreNotStale(s, k);
    LabelIsChosen(s, i);
    LabelIsNoCommand(s, i);
    JumpModeGetsTheKey(s, k, env);
    JumpedArrives(s, k.code.c, env);
  }

  /** Closing a tab on the bar leaves the hits of the last draw behind. */
  lemma ClosingKeepsHits(s: State, env: Env)
    requires Valid(s) && s.modes == NO_MODE && !s.onboarding && s.focus.Topbar? && s.connected
    ensures var r := HandleKey(s, Bare(Char('x')), env).state;
            && Valid(r) && r == s.(tree := r.tree, log := r.log)
            && (|CurDesk(s.tree).tabs| > 1 ==> |CurDesk(r.tree).tabs| == |CurDesk(s.tree).tabs| - 1)
  {
    HandleKeyKeepsValid(s, Bare(Char('x')), env);
    hide Core, Valid;
  }

  lemma EscOpensJumpMode(s: State, env: Env)
    requires Valid(s) && s.modes == NO_MODE && !s.onboarding && !s.focus.Content?
    ensures HandleKey(s, Bare(Esc), env).state == s.(modes := NO_MODE.(jumpMode := true))
  {
    hide Core;
  }

  lemma LastLabelIsStale(s: State, n: nat)
    requires Core(s.tree) && s.modes.jumpMode && s.focus.Topbar? && |CurDesk(s.tree).tabs| <= n < |Jump.Labels(s.focus)|
    requires s.hits.tabIndices == seq(n + 1, i => i)
    ensures StaleHit(s, Bare(Char(Jump.Labels(s.focus)[n])))
  {
    hide Jump.Labels, Jump.Position;
    Jump.PositionOfLabel(s.focus, n);
    LabelIsNoCommand(s, n);
    var desks := Jump.VisibleDesks(|CurOffice(s.tree).desks|, s.hits.listHeight, s.hits.listOffset);
    Jump.TargetsKeepOrder(s.focus, |Jump.Labels(s.focus)|, s.hits.tabIndices, desks, Selected(s.tree), n);
  }

  lemma RunOfTwo(s: State, a: Event, b: Event)
    requires Valid(s) && Allowed(s, a) && Valid(Step(s, a)) && Allowed(Step(s, a), b)
    ensures Safe(s, [a, b]) && Run(s, [a, b]) == Step(Step(s, a), b)
  {
    assert Sound(s) && Sound(Step(s, a));
    hide Step, Allowed, Valid, Sound;
    var s1 := Step(s, a);
    StepKeepsValid(s1, b);
    assert [a, b][1..] == [b] && [b][1..] == [];
    assert Safe(Step(s1, b), []);
    assert Safe(s1, [b]);
    assert Run(Step(s, a), [b]) == Step(Step(s, a), b);
  }

  /** Without a redraw the hits can be stale: in one batch of keys, closing a tab on the bar and then jumping to
      the label of the last tab drawn sets the active tab out of range, and the next index panics. */
  lemma StaleHitIsReachable(s: State, env: Env)
    requires Valid(s) && s.modes == NO_MODE && !s.onboarding && s.focus.Topbar? && s.connected
    requires 1 < |CurDesk(s.tree).tabs| <= |Jump.Labels(s.focus)|
    requires s.hits.tabIndices == seq(|CurDesk(s.tree).tabs|, i => i)
    ensures var es := [Press(Bare(Char('x')), env), Press(Bare(Esc), env)];
            && Safe(s, es)
            && StaleHit(Run(s, es), Bare(Char(Jump.Labels(s.focus)[|CurDesk(s.tree).tabs| - 1])))
  {
    var x, esc := Press(Bare(Char('x')), env), Press(Bare(Esc), env);
    ClosingKeepsHits(s, env);
    var s1 := HandleKey(s, x.key, env).state;
    EscOpensJumpMode(s1, env);
    var s2 := HandleKey(s1, esc.key, env).state;
    hide HandleKey, Valid, Jump.Labels, Core, StaleHit;
    RunOfTwo(s, x, esc);
    LastLabelIsStale(s2, |CurDesk(s.tree).tabs| - 1);
  }

  lemma OneMore(s: State, e: Event, es: seq<Event>)
    requires Valid(s) && Allowed(s, e) && Valid(Step(s, e)) && Safe(Step(s, e), es)
    ensures Safe(s, [e] + es) && Run(s, [e] + es) == Run(Step(s, e), es)
  {
    hide Step, Allowed, Valid;
    assert ([e] + es)[1..] == es;
  }

  lemma FirstLabels()
    ensures var labels := Jump.Labels(Jump.Topbar); |labels| >= 2 && labels[0] == 'a' && labels[1] == 'b'
  {
    var all := Jump.JumpLabels();
    assert all[0] == Jump.LabelAt(0) == 'a' && all[1] == Jump.LabelAt(1) == 'b';
    assert Jump.Unreserved(Jump.Topbar, all) == ['a'] + Jump.Unreserved(Jump.Topbar, all[1..]);
    assert Jump.Unreserved(Jump.Topbar, all[1..]) == ['b'] + Jump.Unreserved(Jump.Topbar, all[1..][1..]);
  }

  /** A fresh client's bar with two tabs: Jump Mode to the bar, a second tab, and a draw. */
  function TwoTabs(id: string, env: Env): State {
    var tab1, tab2 := Tab(id, "Terminal 1"), Tab(env.freshId, "Terminal " + Decimal(2));
    var desk := Desk("Desk 1", [tab1, tab2], 1);
    Started(None, id, 0).(
      tree := Tree([Office("Default", [desk], 0)], 0, Some(0)), connected := true, focus := Jump.Topbar,
      prevFocus := Jump.Topbar, hits := Hits(10, 0, Consecutive(0, 2)), log := [Spawned(id), Spawned(env.freshId)])
  }

  function ToTwoTabs(env: Env): seq<Event> {
    [Pass(env, true, None), Press(Bare(Esc), env), Press(Bare(Up), env), Press(Bare(Char('n')), env),
     Pass(env, true, Some(Drawn(10, 0, 0, 2)))]
  }

  lemma ConnectedAtStart(id: string, env: Env)
    ensures Valid(Started(None, id, 0))
    ensures Step(Started(None, id, 0), Pass(env, true, None)) == Started(None, id, 0).(connected := true)
  {
  }

  lemma UpFocusesTheBar(s: State, env: Env)
    requires Valid(s) && s.modes == NO_MODE.(jumpMode := true) && !s.onboarding && s.focus.Sidebar?
    ensures HandleKey(s, Bare(Up), env).state == s.(modes := NO_MODE, focus := Jump.Topbar)
  {
    hide Core, Stale;
  }

  lemma SecondTabOpens(id: string, env: Env)
    ensures var s := Started(None, id, 0).(connected := true, focus := Jump.Topbar);
            && Valid(s)
            && HandleKey(s, Bare(Char('n')), env).state
               == s.(tree := TwoTabs(id, env).tree, log := [Spawned(id), Spawned(env.freshId)])
  {
    var s := Started(None, id, 0).(connected := true, focus := Jump.Topbar);
    var desk := NewTab(CurDesk(s.tree), env.freshId);
    assert desk == CurDesk(TwoTabs(id, env).tree);
    var office := CurOffice(s.tree);
    assert office.desks[0 := desk] == [desk] && s.tree.offices[0 := office.(desks := [desk])] == [office.(desks := [desk])];
    assert WithDesk(s.tree, desk) == TwoTabs(id, env).tree;
    hide Stale;
    assert PlainKey(s, Bare(Char('n')), env).state == TopbarChar(s, 'n', env);
    assert TopbarChar(s, 'n', env) == Show(s, WithDesk(s.tree, desk));
  }

  lemma TwoTabsAreDrawn(id: string, env: Env)
    ensures var s := TwoTabs(id, env).(prevFocus := Jump.Sidebar, hits := Hits(0, 0, []));
            && Valid(s) && Valid(TwoTabs(id, env))
            && Step(s, Pass(env, true, Some(Drawn(10, 0, 0, 2)))) == TwoTabs(id, env)
  {
  }

  lemma TwoTabsReached(id: string, env: Env, es: seq<Event>)
    requires Valid(TwoTabs(id, env)) && Safe(TwoTabs(id, env), es)
    ensures Valid(Started(None, id, 0)) && Safe(Started(None, id, 0), ToTwoTabs(env) + es)
    ensures Run(Started(None, id, 0), ToTwoTabs(env) + es) == Run(TwoTabs(id, env), es)
  {
    var s0 := Started(None, id, 0);
    ConnectedAtStart(id, env);
    var s1 := s0.(connected := true);
    EscOpensJumpMode(s1, env);
    var s2 := s1.(modes := NO_MODE.(jumpMode := true));
    UpFocusesTheBar(s2, env);
    var s3 := s1.(focus := Jump.Topbar);
    SecondTabOpens(id, env);
    var s4 := s3.(tree := TwoTabs(id, env).tree, log := [Spawned(id), Spawned(env.freshId)]);
    TwoTabsAreDrawn(id, env);
    var to := ToTwoTabs(env);
    assert s4 == TwoTabs(id, env).(prevFocus := Jump.Sidebar, hits := Hits(0, 0, []));
    hide HandleKey, Core, MainPass, StaleHit, TwoTabs, Safe, Run;
    OneMore(s4, to[4], es);
    OneMore(s3, to[3], [to[4]] + es);
    OneMore(s2, to[2], [to[3]] + ([to[4]] + es));
    OneMore(s1, to[1], [to[2]] + ([to[3]] + ([to[4]] + es)));
    OneMore(s0, to[0], [to[1]] + ([to[2]] + ([to[3]] + ([to[4]] + es))));
    assert [to[0]] + ([to[1]] + ([to[2]] + ([to[3]] + ([to[4]] + es)))) == to + es;
  }

  /** So a fresh client gets there: with two tabs drawn, the keys x, Esc and b in one batch. */
  lemma FreshClientMeetsStaleHit(id: string, env: Env)
    ensures var es := ToTwoTabs(env) + [Press(Bare(Char('x')), env), Press(Bare(Esc), env)];
            && Valid(Started(None, id, 0)) && Safe(Started(None, id, 0), es)
            && StaleHit(Run(Started(None, id, 0), es), Bare(Char('b')))
  {
    TwoTabsAreDrawn(id, env);
    FirstLabels();
    assert Consecutive(0, 2) == seq(2, i => i);
    hide Valid, Core, Safe, Run, StaleHit, Jump.Labels;
    StaleHitIsReachable(TwoTabs(id, env), env);
    TwoTabsReached(id, env, [Press(Bare(Char('x')), env), Press(Bare(Esc), env)]);
  }

  /** What the tab bar settles on and records is what `Draw` takes a draw to leave behind. */
  lemma BarDraws(s: State, d: Drawn, area: Bar.Rect, labels: seq<nat>, drawn: seq<nat>, areas: seq<Bar.Rect>,
                 indices: seq<nat>, plus: Bar.Rect)
    requires Core(s.tree) && !s.modes.copyMode && |labels| == |drawn| == |CurDesk(s.tree).tabs|
    requires var at := CurDesk(s.tree).activeTab;
             Bar.Settled(labels, if at < s.tabScroll then at else s.tabScroll, at, Bar.InnerWidth(area), d.tabScroll)
    requires Bar.LaidOut(area, drawn, d.tabScroll, areas, indices, plus) && d.tabsShown == |areas|
    ensures Draw(s, d).tabScroll == d.tabScroll && Draw(s, d).hits.tabIndices == indices
  {
    hide Core, GoodDesk, Bar.Fits, Bar.Span, Bar.AreaOf;
    assert forall j :: 0 <= j < |areas| ==> indices[j] == d.tabScroll + j;
  }

  // ---- deleting an office, renaming ----

  /** Where the j-th office was before office `idx` was removed. */
  function Before(j: nat, idx: nat): nat { if j < idx then j else j + 1 }

  /** The other offices survive in order.  The current one stays current only when it is before the deleted one,
      or is the last: deleting an earlier office moves the user on to the next one. */
  lemma RemovingAnOffice(t: Tree, idx: nat)
    requires Core(t) && idx < |t.offices| && |t.offices| > 1
    ensures var r := RemoveOffice(t, idx);
            && |r.offices| == |t.offices| - 1
            && (forall j :: 0 <= j < |r.offices| ==> r.offices[j].desks == t.offices[Before(j, idx)].desks)
            && (forall j :: 0 <= j < |r.offices| ==> r.offices[j].name == t.offices[Before(j, idx)].name)
    ensures Before(RemoveOffice(t, idx).currentOffice, idx) == t.currentOffice
            <==> t.currentOffice < idx || (idx < t.currentOffice && t.currentOffice == |t.offices| - 1)
  {
    hide GoodOffices;
  }

  ghost predicate AllWhitespace(cs: string) { forall c :: c in cs ==> IsWhitespace(c) }

  lemma {:induction false} TrimStartTrims(cs: string) returns (before: string)
    ensures cs == before + TrimStart(cs) && AllWhitespace(before)
    ensures var r := TrimStart(cs); r != "" ==> !IsWhitespace(r[0])
  {
    hide IsWhitespace;
    before := "";
    if cs != "" && IsWhitespace(cs[0]) {
      before := TrimStartTrims(cs[1..]);
      before := [cs[0]] + before;
      assert cs == [cs[0]] + cs[1..];
    }
  }

  lemma {:induction false} TrimEndTrims(cs: string) returns (after: string)
    ensures cs == TrimEnd(cs) + after && AllWhitespace(after)
    ensures var r := TrimEnd(cs); r != "" ==> !IsWhitespace(r[|r| - 1])
  {
    hide IsWhitespace;
    after := "";
    if cs != "" && IsWhitespace(cs[|cs| - 1]) {
      after := TrimEndTrims(cs[..|cs| - 1]);
      after := after + [cs[|cs| - 1]];
      assert cs == cs[..|cs| - 1] + [cs[|cs| - 1]];
    }
  }

  /** The white space that is trimmed: the tab and the four line breaks after it, the space and the no-break space, and
      the other spaces and breaks that Unicode has. */
  lemma WhitespaceIs(c: char)
    ensures IsWhitespace(c)
            <==> c in "\t\n\U{b}\U{c}\r \U{85}\U{a0}\U{1680}\U{2000}\U{2001}\U{2002}\U{2003}\U{2004}\U{2005}\U{2006}"
                      + "\U{2007}\U{2008}\U{2009}\U{200a}\U{2028}\U{2029}\U{202f}\U{205f}\U{3000}"
  {
  }

  /** Trimming takes the whitespace off both ends and nothing else. */
  lemma TrimTrims(cs: string) returns (before: string, after: string)
    ensures cs == before + Trim(cs) + after && AllWhitespace(before) && AllWhitespace(after)
    ensures var r := Trim(cs); r != "" ==> !IsWhitespace(r[0]) && !IsWhitespace(r[|r| - 1])
    ensures Trim(cs) == "" <==> AllWhitespace(cs)
  {
    hide IsWhitespace, TrimStart, TrimEnd;
    before := TrimStartTrims(cs);
    after := TrimEndTrims(TrimStart(cs));
    if Trim(cs) != "" {
      assert Trim(cs)[0] == TrimStart(cs)[0] == cs[|before|];
    }
  }

  // ---- every tab that becomes active has been spawned ----

  /** What the log last did with the PTY of a tab: spawn it or close it. */
  function LastLife(log: seq<PtyOp>, id: string): Option<bool> {
    if log == [] then None
    else
      var op := log[|log| - 1];
      if op == Spawned(id) then Some(true)
      else if op == Closed(id) then Some(false)
      else LastLife(log[..|log| - 1], id)
  }

  predicate Live(s: State)
    requires Core(s.tree)
  {
    LastLife(s.log, ActiveTab(s.tree).id) == Some(true)
  }

  lemma LifeAfter(log: seq<PtyOp>, op: PtyOp, id: string)
    ensures LastLife(log + [op], id) == if op == Spawned(id) then Some(true) else if op == Closed(id) then Some(false)
                                        else LastLife(log, id)
  {
    assert (log + [op])[..|log|] == log;
  }

  lemma ShowIsLive(s: State, t: Tree)
    requires Core(t)
    ensures Live(Show(s, t))
  {
    LifeAfter(s.log, Spawned(ActiveTab(t).id), ActiveTab(t).id);
  }

  lemma ReportKeepsLive(s: State, gained: bool, env: Env)
    requires Core(s.tree) && Live(s)
    ensures Live(ReportFocus(s, gained, env))
  {
    hide Core;
    LifeAfter(s.log, Report(ActiveTab(s.tree).id, gained), ActiveTab(s.tree).id);
  }

  lemma WriteKeepsLive(s: State, bytes: seq<byte>)
    requires Core(s.tree) && Live(s)
    ensures Live(Write(s, bytes))
  {
    hide Core;
    LifeAfter(s.log, Sent(ActiveTab(s.tree).id, bytes), ActiveTab(s.tree).id);
  }

  lemma ScrollKeepsLive(s: State, delta: int)
    requires Core(s.tree) && Live(s)
    ensures Live(Scroll(s, delta))
  {
    hide Core;
    LifeAfter(s.log, Scrolled(ActiveTab(s.tree).id, delta), ActiveTab(s.tree).id);
  }

  lemma NavKeepsLive(s: State, delta: int)
    requires Core(s.tree) && Live(s)
    ensures Core(Nav(s, delta).tree) && Live(Nav(s, delta))
  {
    var i := Clamp(Selected(s.tree) + delta, |CurOffice(s.tree).desks| - 1);
    var t := SelectDesk(s.tree, i);
    ShowIsLive(s, t);
    if Selected(s.tree) == i { assert t == s.tree; }
  }

  lemma RenamingKeepsIds(t: Tree, rename: Renaming)
    requires Core(t) && RenameInRange(t, rename.target)
    ensures ActiveTab(CommitRename(t, rename)).id == ActiveTab(t).id
  {
    hide Trim, GoodOffices;
  }

  lemma JumpedIsLive(s: State, c: char, env: Env)
    requires Core(s.tree) && Live(s) && !Stale(s, c)
    ensures Core(Jumped(s, c, env).tree) && Live(Jumped(s, c, env))
  {
    hide Core, Chosen;
    if Chosen(s, c).Some? {
      var target := Chosen(s, c).value;
      var left := ReportFocus(s, false, env).(focus := FocusOn(s.focus, target));
      ShowIsLive(left, Reached(s.tree, target));
      ReportKeepsLive(Show(left, Reached(s.tree, target)), true, env);
    }
  }

  lemma AltDigitIsLive(s: State, c: char, env: Env)
    requires Core(s.tree) && Live(s) && '0' <= c <= '9'
    ensures Core(AltDigit(s, c, env).tree) && Live(AltDigit(s, c, env))
  {
    hide Core;
    var tab := if c == '0' then 0 else c as int - '0' as int - 1;
    if tab < |CurDesk(s.tree).tabs| {
      var t := ActivateTab(s.tree, tab);
      ShowIsLive(ReportFocus(s, false, env), t);
      ReportKeepsLive(Show(ReportFocus(s, false, env), t), true, env);
    }
  }

  lemma CloseDeskAtIsLive(s: State, idx: nat)
    requires Core(s.tree) && Live(s)
    ensures Core(CloseDeskAt(s, idx).tree) && Live(CloseDeskAt(s, idx))
  {
    hide GoodOffices, RemoveDesk, LastLife;
    var desks := CurOffice(s.tree).desks;
    if |desks| > 1 && idx < |desks| {
      ShowIsLive(s.(log := CloseAll(s.log, desks[idx].tabs)), RemoveDesk(s.tree, idx));
    }
  }

  lemma SwitchOfficeIsLive(s: State, idx: nat)
    requires Core(s.tree) && Live(s)
    ensures Core(SwitchOffice(s, idx).tree) && Live(SwitchOffice(s, idx))
  {
    if idx < |s.tree.offices| { ShowIsLive(s, EnterOffice(s.tree, idx)); }
  }

  lemma SidebarKeyKeepsLive(s: State, k: Key, env: Env)
    requires Core(s.tree) && Live(s)
    ensures Core(SidebarKey(s, k, env).tree) && Live(SidebarKey(s, k, env))
  {
    hide Core, Nav, AddDesk, LastLife;
    NavKeepsLive(s, -1);
    NavKeepsLive(s, 1);
    ShowIsLive(s, AddDesk(s.tree, env.freshId));
    ShowIsLive(s.(focus := Jump.Content), s.tree);
  }

  lemma TopbarKeyKeepsLive(s: State, k: Key, env: Env)
    requires Core(s.tree) && Live(s)
    ensures Core(TopbarKey(s, k, env).tree) && Live(TopbarKey(s, k, env))
  {
    hide Core, Live, NewTab, CloseTab, WithDesk, ActivateTab, BeginRenameTab, CurDesk, ActiveTab;
    var r := TopbarKey(s, k, env);
    if r.log != s.log {
      var told := if k.code == Char('x') && |CurDesk(s.tree).tabs| > 1 then Log(s, Closed(ActiveTab(s.tree).id)) else s;
      ShowIsLive(told.(focus := r.focus), r.tree);
    } else {
      LogUnchangedKeepsLive(s, r);
    }
  }

  lemma LogUnchangedKeepsLive(s: State, r: State)
    requires Core(s.tree) && Live(s) && r.tree == s.tree && r.log == s.log
    ensures Live(r)
  {
  }

  lemma PlainKeyKeepsLive(s: State, k: Key, env: Env)
    requires Core(s.tree) && Live(s)
    ensures Core(PlainKey(s, k, env).state.tree) && Live(PlainKey(s, k, env).state)
  {
    hide Core, SidebarKey, TopbarKey, AltDigit, LastLife, EncodeContentKey, ActiveTab;
    WriteKeepsLive(s.(pendingEsc := None), ESC);
    var f := if s.focus.Content? then FlushEsc(s) else s;
    assert Live(f);
    if k.alt && IsDigit(k) {
      AltDigitIsLive(f, k.code.c, env);
    } else {
      SidebarKeyKeepsLive(f, k, env);
      TopbarKeyKeepsLive(f, k, env);
      WriteKeepsLive(f, EncodeContentKey(k));
      ScrollKeepsLive(f, 5);
      ScrollKeepsLive(f, -5);
    }
  }

  lemma CopyKeyKeepsLive(s: State, k: Key)
    requires Core(s.tree) && Live(s)
    ensures Core(CopyKey(s, k).tree) && Live(CopyKey(s, k))
  {
    hide Core, LastLife, ActiveTab, CurDesk;
    var r := CopyKey(s, k);
    if r.log != s.log {
      var d := r.log[|s.log|].delta;
      assert r == Scroll(s, d);
      ScrollKeepsLive(s, d);
    }
  }

  lemma JumpKeyKeepsLive(s: State, k: Key, env: Env)
    requires Core(s.tree) && Live(s) && s.modes.jumpMode && !StaleHit(s, k)
    ensures Core(JumpKey(s, k, env).tree) && Live(JumpKey(s, k, env))
  {
    hide Core, Jumped, Stale, LastLife, BeginRenameDesk, BeginRenameTab;
    ShowIsLive(Log(s, Closed(ActiveTab(s.tree).id)), s.tree);
    if k.code.Char? && !JumpCommand(s.focus, k.code.c) && Jump.IsAlphanumeric(k.code.c) {
      JumpedIsLive(s, k.code.c, env);
    }
  }

  lemma DeskDeleteKeyKeepsLive(s: State, k: Key)
    requires Core(s.tree) && Live(s) && s.modes.deskDelete.Some?
    ensures Core(DeskDeleteKey(s, k).tree) && Live(DeskDeleteKey(s, k))
  {
    hide Core, CloseDeskAt, LastLife, ActiveTab;
    CloseDeskAtIsLive(s.(modes := s.modes.(deskDelete := None)), s.modes.deskDelete.value);
  }

  lemma OfficeDeleteKeyKeepsLive(s: State, k: Key)
    requires Core(s.tree) && Live(s) && DialogsUsable(s.tree, s.modes) && s.modes.officeDelete.Some?
    ensures Core(OfficeDeleteKey(s, k).tree) && Live(OfficeDeleteKey(s, k))
  {
    hide Core, LastLife, ActiveTab, RemoveOffice;
    var idx := s.modes.officeDelete.value.office;
    if |s.tree.offices| > 1 { ShowIsLive(s.(modes := s.modes.(officeDelete := None)), RemoveOffice(s.tree, idx)); }
  }

  lemma SelectorCharIsQuiet(s: State, c: char)
    requires Core(s.tree)
    ensures SelectorChar(s, c).tree == s.tree && SelectorChar(s, c).log == s.log
  {
    hide Core;
  }

  lemma SelectorKeyKeepsLive(s: State, k: Key)
    requires Core(s.tree) && Live(s)
    ensures Core(SelectorKey(s, k).tree) && Live(SelectorKey(s, k))
  {
    SwitchOfficeIsLive(s, SelectorIndex(s));
    hide Core, Live, SwitchOffice, SelectorIndex, SelectorChar;
    if k.code.Char? {
      SelectorCharIsQuiet(s, k.code.c);
      LogUnchangedKeepsLive(s, SelectorKey(s, k));
    } else if k.code.Enter? && SelectorIndex(s) < |s.tree.offices| {
      var shown := SwitchOffice(s, SelectorIndex(s));
      LogUnchangedKeepsLive(shown, SelectorKey(s, k));
    } else {
      LogUnchangedKeepsLive(s, SelectorKey(s, k));
    }
  }

  lemma RenameKeyKeepsLive(s: State, k: Key)
    requires Core(s.tree) && Live(s) && DialogsUsable(s.tree, s.modes) && DialogsInRange(s.tree, s.modes) && s.modes.rename.Some?
    ensures Core(RenameKey(s, k).tree) && Live(RenameKey(s, k))
  {
    hide Core, LastLife, ActiveTab, CommitRename, EditOf;
    RenamingKeepsIds(s.tree, s.modes.rename.value);
  }

  lemma SettingsKeyKeepsLive(s: State, k: Key)
    requires Core(s.tree) && Live(s)
    ensures SettingsKey(s, k).tree == s.tree && Live(SettingsKey(s, k))
  {
    hide Core, LastLife, ActiveTab;
  }

  lemma HandleKeyKeepsLive(s: State, k: Key, env: Env)
    requires Valid(s) && !s.onboarding && Live(s) && !StaleHit(s, k)
    ensures Core(HandleKey(s, k, env).state.tree) && Live(HandleKey(s, k, env).state)
  {
    hide CopyKey, DeskDeleteKey, OfficeDeleteKey, SelectorKey, SettingsKey, JumpKey, RenameKey, PlainKey, Live, Core;
    hide DialogsInRange, OpenModes, StaleHit;
    if Ignored(s, k) {
    } else if s.modes.copyMode {
      CopyKeyKeepsLive(s, k);
    } else if s.modes.deskDelete.Some? {
      DeskDeleteKeyKeepsLive(s, k);
    } else if s.modes.officeDelete.Some? {
      OfficeDeleteKeyKeepsLive(s, k);
    } else if s.modes.selectorActive {
      SelectorKeyKeepsLive(s, k);
    } else if s.modes.showSettings {
      SettingsKeyKeepsLive(s, k);
    } else if s.modes.jumpMode {
      JumpKeyKeepsLive(s, k, env);
    } else if s.modes.rename.Some? {
      RenameKeyKeepsLive(s, k);
    } else {
      PlainKeyKeepsLive(s, k, env);
    }
  }

  lemma SyncFocusKeepsLive(s: State, env: Env)
    requires Core(s.tree) && Live(s)
    ensures Live(SyncFocus(s, env))
  {
    hide Core;
    LifeAfter(s.log, Report(ActiveTab(s.tree).id, s.focus.Content?), ActiveTab(s.tree).id);
  }

  lemma MainPassKeepsLive(s: State, env: Env, connected: bool, drawn: Option<Drawn>)
    requires Core(s.tree) && Live(s)
    ensures MainPass(s, env, connected, drawn).tree == s.tree && Live(MainPass(s, env, connected, drawn))
  {
    hide Core, LastLife, ActiveTab, SyncFocus, CurDesk;
    var s1 := s.(connected := connected);
    SyncFocusTouches(s1, env);
    SyncFocusKeepsLive(s1, env);
    var s2 := SyncFocus(s1, env);
    WriteKeepsLive(s2.(pendingEsc := None), ESC);
  }

  lemma StepKeepsLive(s: State, e: Event)
    requires Valid(s) && Allowed(s, e) && Live(s)
    ensures Core(Step(s, e).tree) && Live(Step(s, e))
  {
    hide HandleKey, MainPass, OpenModes, DialogsInRange, StaleHit, ActiveTab, LastLife;
    match e
    case Press(k, env) => if !s.onboarding { HandleKeyKeepsLive(s, k, env); }
    case Pass(env, connected, drawn) => if !s.onboarding { MainPassKeepsLive(s, env, connected, drawn); }
    case Paste(text) => LifeAfter(s.log, Pasted(ActiveTab(s.tree).id, text), ActiveTab(s.tree).id);
    case Onboarded(office) =>
      if s.onboarding && office.Some? {
        var offices := s.tree.offices + [office.value];
        SwitchOfficeShows(s.(tree := s.tree.(offices := offices)), |offices| - 1);
      }
  }

  lemma SwitchOfficeShows(s: State, idx: nat)
    requires GoodOffices(s.tree.offices) && idx < |s.tree.offices|
    ensures Core(SwitchOffice(s, idx).tree) && Live(SwitchOffice(s, idx))
  {
    ShowIsLive(s, EnterOffice(s.tree, idx));
  }

  lemma {:induction false} RunKeepsLive(s: State, es: seq<Event>)
    requires Valid(s) && Safe(s, es) && Live(s)
    ensures Live(Run(s, es))
    decreases |es|
  {
    if es != [] {
      StepKeepsLive(s, es[0]);
      StepKeepsValid(s, es[0]);
      hide Step, Valid, Live;
      RunKeepsLive(Step(s, es[0]), es[1..]);
    }
  }

  /** In every safe run from the start, whichever tab is active has been spawned since it was last closed. */
  lemma ActiveTabIsSpawned(saved: Option<Tree>, freshId: string, themeIndex: nat, es: seq<Event>)
    requires themeIndex < THEMES && (saved.Some? ==> GoodOffices(saved.value.offices))
    requires Safe(Started(saved, freshId, themeIndex), es)
    ensures Live(Started(saved, freshId, themeIndex)) && Live(Run(Started(saved, freshId, themeIndex), es))
  {
    StartsValidIff(saved, freshId, themeIndex);
    ShowIsLive(Initial(saved, freshId, themeIndex), Initial(saved, freshId, themeIndex).tree);
    hide Initial, Loaded, Live, Valid, Safe, Run;
    RunKeepsLive(Started(saved, freshId, themeIndex), es);
  }
}
