/** Typing into the terminal, src/client/input.rs:295-329 and 414-430, src/client/app.rs:373-381: a single Esc is
    held back for a while, a double one opens Jump Mode, and everything else is forwarded at once. */
module ContentEsc {
  import opened Basics
  import opened Keys
  import opened Workspace
  import opened WorkspaceRuns
  import Jump

  // ---- what was typed, and what of it the program should get ----

  /** A key pressed with the terminal focused and no mode open: the tab it was meant for, and when. */
  datatype Typed = Typed(tab: string, key: Key, at: nat)

  /** The keys that scroll or switch tabs instead of being forwarded; the rest are encoded. */
  function Bytes(k: Key): seq<byte> {
    if k.code.Esc? then ESC
    else if k.alt && IsDigit(k) then []
    else if k.shift && (k.code.PageUp? || k.code.PageDown?) then []
    else EncodeContentKey(k)
  }

  datatype Delivery = Delivery(tab: string, bytes: seq<byte>)

  function Entry(p: Typed): seq<Delivery> { if Bytes(p.key) == [] then [] else [Delivery(p.tab, Bytes(p.key))] }

  function Last<T>(xs: seq<T>): T
    requires xs != []
  {
    xs[|xs| - 1]
  }

  function Init<T>(xs: seq<T>): seq<T>
    requires xs != []
  {
    xs[..|xs| - 1]
  }

  /** The last press completes a double Esc: it follows, in time, an Esc that did not itself complete one. */
  predicate Opens(ps: seq<Typed>) {
    && |ps| >= 2 && Last(ps).key.code.Esc? && ps[|ps| - 2].key.code.Esc?
    && Elapsed(ps[|ps| - 2].at, Last(ps).at) < 300_000_000
    && !Opens(Init(ps))
  }

  /** Everything typed, in order, without the double Escs. */
  function Kept(ps: seq<Typed>): seq<Delivery> {
    if ps == [] then []
    else if Opens(ps) then Kept(ps[..|ps| - 2])
    else Kept(Init(ps)) + Entry(Last(ps))
  }

  // ---- what a run of the workspace types and sends ----

  predicate ContentPress(s: State, e: Event) {
    e.Press? && !s.onboarding && s.focus.Content? && s.modes == NO_MODE && !Ignored(s, e.key)
  }

  function TypedBy(s: State, e: Event): seq<Typed>
    requires Core(s.tree)
  {
    if ContentPress(s, e) then [Typed(ActiveTab(s.tree).id, e.key, e.env.now)] else []
  }

  ghost function Presses(s: State, es: seq<Event>): seq<Typed>
    requires Valid(s) && Safe(s, es)
    decreases |es|
  {
    if es == [] then []
    else StepKeepsValid(s, es[0]); TypedBy(s, es[0]) + Presses(Step(s, es[0]), es[1..])
  }

  /** The key bytes in the log, with the tab that got them. */
  function Deliveries(log: seq<PtyOp>): seq<Delivery> {
    if log == [] then []
    else if Last(log).Sent? then Deliveries(Init(log)) + [Delivery(Last(log).tab, Last(log).bytes)]
    else Deliveries(Init(log))
  }

  function HeldBack(s: State): seq<Delivery>
    requires Core(s.tree)
  {
    if s.pendingEsc.Some? then [Delivery(ActiveTab(s.tree).id, ESC)] else []
  }

  function Clock(e: Event, now: nat): nat { if e.Press? || e.Pass? then e.env.now else now }

  /** The clock does not run backwards. */
  ghost predicate Clocked(es: seq<Event>, now: nat) {
    es == [] || (now <= Clock(es[0], now) && Clocked(es[1..], Clock(es[0], now)))
  }

  ghost function ClockAfter(es: seq<Event>, now: nat): nat {
    if es == [] then now else ClockAfter(es[1..], Clock(es[0], now))
  }

  /** After typing `ps`: what was sent, and what is held back, is what should be kept; the Esc held back is the
      last key typed, and a last Esc that is not held back any more is too old to be half of a double one. */
  ghost predicate Ledger(s: State, ps: seq<Typed>, now: nat)
    requires Core(s.tree)
  {
    && Deliveries(s.log) + HeldBack(s) == Kept(ps)
    && (s.pendingEsc.Some? ==>
          ps != [] && Last(ps).key.code.Esc? && Last(ps).at == s.pendingEsc.value && !Opens(ps))
    && (s.pendingEsc.None? && ps != [] && Last(ps).key.code.Esc? && !Opens(ps) ==> now >= Last(ps).at + ESC_WINDOW)
    && (ps != [] ==> Last(ps).at <= now)
  }

  // ---- which steps send nothing ----

  lemma DeliveredAfter(log: seq<PtyOp>, op: PtyOp)
    ensures Deliveries(log + [op]) == Deliveries(log) + if op.Sent? then [Delivery(op.tab, op.bytes)] else []
  {
    assert Init(log + [op]) == log;
  }

  lemma {:induction false} ClosingSendsNothing(log: seq<PtyOp>, tabs: seq<Tab>)
    ensures Deliveries(CloseAll(log, tabs)) == Deliveries(log)
  {
    var all := CloseAll(log, tabs);
    if tabs == [] {
      assert all == log;
    } else {
      assert Init(all) == CloseAll(log, Init(tabs));
      ClosingSendsNothing(log, Init(tabs));
    }
  }

  ghost predicate Quiet(r: State, s: State) { Deliveries(r.log) == Deliveries(s.log) && r.pendingEsc == s.pendingEsc }

  lemma LoggingIsQuiet(s: State, op: PtyOp)
    requires !op.Sent?
    ensures Quiet(Log(s, op), s)
  {
    DeliveredAfter(s.log, op);
  }

  lemma ShowIsQuiet(s: State, t: Tree)
    requires Core(t)
    ensures Quiet(Show(s, t), s)
  {
    DeliveredAfter(s.log, Spawned(ActiveTab(t).id));
  }

  lemma ReportIsQuiet(s: State, gained: bool, env: Env)
    requires Core(s.tree)
    ensures Quiet(ReportFocus(s, gained, env), s)
  {
    hide Core;
    LoggingIsQuiet(s, Report(ActiveTab(s.tree).id, gained));
  }

  lemma CloseDeskIsQuiet(s: State, idx: nat)
    requires Core(s.tree)
    ensures Quiet(CloseDeskAt(s, idx), s)
  {
    hide GoodOffices, RemoveDesk, Deliveries;
    var desks := CurOffice(s.tree).desks;
    if |desks| > 1 && idx < |desks| {
      ClosingSendsNothing(s.log, desks[idx].tabs);
      ShowIsQuiet(s.(log := CloseAll(s.log, desks[idx].tabs)), RemoveDesk(s.tree, idx));
    }
  }

  lemma SwitchIsQuiet(s: State, idx: nat)
    requires GoodOffices(s.tree.offices)
    ensures Quiet(SwitchOffice(s, idx), s)
  {
    if idx < |s.tree.offices| { ShowIsQuiet(s, EnterOffice(s.tree, idx)); }
  }

  lemma JumpedIsQuiet(s: State, c: char, env: Env)
    requires Core(s.tree) && !Stale(s, c)
    ensures Quiet(Jumped(s, c, env), s)
  {
    hide Core, Chosen, Deliveries, ReportFocus;
    if Chosen(s, c).Some? {
      var target := Chosen(s, c).value;
      ReportIsQuiet(s, false, env);
      var left := ReportFocus(s, false, env).(focus := FocusOn(s.focus, target));
      ShowIsQuiet(left, Reached(s.tree, target));
      ReportIsQuiet(Show(left, Reached(s.tree, target)), true, env);
    }
  }

  lemma AltDigitIsQuiet(s: State, c: char, env: Env)
    requires Core(s.tree) && '0' <= c <= '9'
    ensures Quiet(AltDigit(s, c, env), s)
  {
    hide Core, Deliveries, ReportFocus;
    var tab := if c == '0' then 0 else c as int - '0' as int - 1;
    if tab < |CurDesk(s.tree).tabs| {
      var t := ActivateTab(s.tree, tab);
      ReportIsQuiet(s, false, env);
      ShowIsQuiet(ReportFocus(s, false, env), t);
      ReportIsQuiet(Show(ReportFocus(s, false, env), t), true, env);
    }
  }

  lemma SameLogIsQuiet(s: State, r: State)
    requires r.log == s.log && r.pendingEsc == s.pendingEsc
    ensures Quiet(r, s)
  {
  }

  lemma SidebarKeyIsQuiet(s: State, k: Key, env: Env)
    requires Core(s.tree)
    ensures Quiet(SidebarKey(s, k, env), s)
  {
    hide GoodOffices, AddDesk, Deliveries, Clamp, SelectDesk;
    if Core(SidebarKey(s, k, env).tree) {
      ShowIsQuiet(s, SidebarKey(s, k, env).tree);
    }
  }

  lemma TopbarKeyIsQuiet(s: State, k: Key, env: Env)
    requires Core(s.tree)
    ensures Quiet(TopbarKey(s, k, env), s)
  {
    hide Core, Deliveries, NewTab, CloseTab, WithDesk, ActivateTab, BeginRenameTab, CurDesk, ActiveTab;
    var r := TopbarKey(s, k, env);
    if r.log != s.log {
      var told := if k.code == Char('x') && |CurDesk(s.tree).tabs| > 1 then Log(s, Closed(ActiveTab(s.tree).id)) else s;
      LoggingIsQuiet(s, Closed(ActiveTab(s.tree).id));
      ShowIsQuiet(told.(focus := r.focus), r.tree);
    }
  }

  lemma PanelKeyIsQuiet(s: State, k: Key, env: Env)
    requires Core(s.tree) && !s.focus.Content?
    ensures Quiet(PlainKey(s, k, env).state, s)
  {
    hide Core, Deliveries, SidebarKey, TopbarKey, AltDigit;
    if k.code.Esc? {
    } else if k.alt && IsDigit(k) {
      AltDigitIsQuiet(s, k.code.c, env);
    } else {
      SidebarKeyIsQuiet(s, k, env);
      TopbarKeyIsQuiet(s, k, env);
    }
  }

  lemma CopyKeyIsQuiet(s: State, k: Key)
    requires Core(s.tree)
    ensures Quiet(CopyKey(s, k), s)
  {
    hide Core, Deliveries, ActiveTab, CurDesk;
    var r := CopyKey(s, k);
    if r.log != s.log { LoggingIsQuiet(s, r.log[|s.log|]); }
  }

  lemma DeskDeleteKeyIsQuiet(s: State, k: Key)
    requires Core(s.tree) && s.modes.deskDelete.Some?
    ensures Quiet(DeskDeleteKey(s, k), s)
  {
    hide Core, Deliveries, CloseDeskAt;
    CloseDeskIsQuiet(s.(modes := s.modes.(deskDelete := None)), s.modes.deskDelete.value);
  }

  lemma SettingsKeyIsQuiet(s: State, k: Key)
    requires Core(s.tree)
    ensures Quiet(SettingsKey(s, k), s)
  {
    hide Core, Deliveries;
  }

  lemma RenameKeyIsQuiet(s: State, k: Key)
    requires Core(s.tree) && DialogsUsable(s.tree, s.modes) && s.modes.rename.Some?
    requires !Misplaced(s.tree, s.modes.rename.value, k)
    ensures Quiet(RenameKey(s, k), s)
  {
    hide Core, Deliveries, CommitRename, EditOf;
  }

  lemma OfficeDeleteKeyIsQuiet(s: State, k: Key)
    requires Core(s.tree) && DialogsUsable(s.tree, s.modes) && s.modes.officeDelete.Some?
    ensures Quiet(OfficeDeleteKey(s, k), s)
  {
    hide Core, Deliveries, RemoveOffice, ActiveTab;
    var idx := s.modes.officeDelete.value.office;
    if |s.tree.offices| > 1 { ShowIsQuiet(s.(modes := s.modes.(officeDelete := None)), RemoveOffice(s.tree, idx)); }
  }

  lemma SelectorKeyIsQuiet(s: State, k: Key)
    requires Core(s.tree)
    ensures Quiet(SelectorKey(s, k), s)
  {
    SwitchIsQuiet(s, SelectorIndex(s));
    hide Core, Quiet, SwitchOffice, SelectorIndex;
    var r := SelectorKey(s, k);
    if k.code.Enter? && SelectorIndex(s) < |s.tree.offices| {
      var shown := SwitchOffice(s, SelectorIndex(s));
      assert r.log == shown.log && r.pendingEsc == shown.pendingEsc;
      QuietTwice(s, shown, r);
    } else {
      SameLogIsQuiet(s, r);
    }
  }

  lemma QuietTwice(s: State, m: State, r: State)
    requires Quiet(m, s) && r.log == m.log && r.pendingEsc == m.pendingEsc
    ensures Quiet(r, s)
  {
  }

  lemma JumpKeyIsQuiet(s: State, k: Key, env: Env)
    requires Core(s.tree) && s.modes.jumpMode && !StaleHit(s, k)
    ensures Quiet(JumpKey(s, k, env), s)
  {
    hide Core, Deliveries, Jumped, Stale, BeginRenameDesk, BeginRenameTab, ActiveTab, Show;
    LoggingIsQuiet(s, Closed(ActiveTab(s.tree).id));
    ShowIsQuiet(Log(s, Closed(ActiveTab(s.tree).id)), s.tree);
    if k.code.Char? && !JumpCommand(s.focus, k.code.c) && Jump.IsAlphanumeric(k.code.c) {
      JumpedIsQuiet(s, k.code.c, env);
    }
  }

  /** Keys that are not typed into the terminal send no key bytes to it, whatever modes are open. */
  lemma OtherKeysSendNothing(s: State, k: Key, env: Env)
    requires Sound(s) && !StaleHit(s, k) && !StaleCommit(s, k)
    requires !s.focus.Content? || s.modes != NO_MODE || Ignored(s, k)
    ensures Quiet(HandleKey(s, k, env).state, s)
  {
    hide CopyKey, DeskDeleteKey, OfficeDeleteKey, SelectorKey, SettingsKey, JumpKey, RenameKey, PlainKey, Quiet, Core;
    hide StaleHit, Misplaced;
    if Ignored(s, k) {
      SameLogIsQuiet(s, s);
    } else if s.modes.copyMode {
      CopyKeyIsQuiet(s, k);
    } else if s.modes.deskDelete.Some? {
      DeskDeleteKeyIsQuiet(s, k);
    } else if s.modes.officeDelete.Some? {
      OfficeDeleteKeyIsQuiet(s, k);
    } else if s.modes.selectorActive {
      SelectorKeyIsQuiet(s, k);
    } else if s.modes.showSettings {
      SettingsKeyIsQuiet(s, k);
    } else if s.modes.jumpMode {
      JumpKeyIsQuiet(s, k, env);
    } else if s.modes.rename.Some? {
      RenameKeyIsQuiet(s, k);
    } else {
      PanelKeyIsQuiet(s, k, env);
    }
  }

  // ---- the steps that send ----

  lemma FlushDelivers(s: State)
    requires Core(s.tree)
    ensures Deliveries(FlushEsc(s).log) == Deliveries(s.log) + HeldBack(s)
  {
    hide Core;
    DeliveredAfter(s.log, Sent(ActiveTab(s.tree).id, ESC));
  }

  lemma ContentKeyDelivers(f: State, k: Key, env: Env)
    requires Core(f.tree) && f.focus.Content? && !k.code.Esc?
    ensures var r := if k.alt && IsDigit(k) then AltDigit(f, k.code.c, env) else ContentKey(f, k);
            && r.pendingEsc == f.pendingEsc
            && Deliveries(r.log) == Deliveries(f.log) + Entry(Typed(ActiveTab(f.tree).id, k, env.now))
  {
    hide Core, Deliveries, AltDigit, EncodeContentKey, ActiveTab;
    if k.alt && IsDigit(k) {
      AltDigitIsQuiet(f, k.code.c, env);
    } else {
      LoggingIsQuiet(f, Scrolled(ActiveTab(f.tree).id, 5));
      LoggingIsQuiet(f, Scrolled(ActiveTab(f.tree).id, -5));
      DeliveredAfter(f.log, Sent(ActiveTab(f.tree).id, EncodeContentKey(k)));
    }
  }

  lemma ContentPressIsPlain(s: State, k: Key, env: Env)
    requires Sound(s) && ContentPress(s, Press(k, env))
    ensures HandleKey(s, k, env) == PlainKey(s, k, env)
  {
    hide Core, PlainKey;
  }

  lemma KeyDelivers(s: State, k: Key, env: Env)
    requires Sound(s) && ContentPress(s, Press(k, env)) && !k.code.Esc?
    ensures var r := HandleKey(s, k, env).state;
            && r.pendingEsc.None?
            && Deliveries(r.log) == Deliveries(s.log) + HeldBack(s) + Entry(Typed(ActiveTab(s.tree).id, k, env.now))
  {
    ContentPressIsPlain(s, k, env);
    FlushDelivers(s);
    ContentKeyDelivers(FlushEsc(s), k, env);
    hide Core, HandleKey, Deliveries, AltDigit, ContentKey, ActiveTab, HeldBack, Entry;
  }

  /** What the program in the terminal is sent for a key is what it reads as that key; a key that it cannot be told of
      sends nothing.  The Alt digits switch tabs instead, and Shift with a page key scrolls. */
  lemma ProgramGetsKey(s: State, k: Key, env: Env)
    requires Sound(s) && ContentPress(s, Press(k, env)) && !k.code.Esc?
    requires !(k.alt && IsDigit(k)) && !(k.shift && (k.code.PageUp? || k.code.PageDown?))
    ensures var r, tab := HandleKey(s, k, env).state, ActiveTab(s.tree).id;
            if Silent(k) then Deliveries(r.log) == Deliveries(s.log) + HeldBack(s)
            else exists bytes ::
                   Means(bytes, k) && Deliveries(r.log) == Deliveries(s.log) + HeldBack(s) + [Delivery(tab, bytes)]
  {
    KeyDelivers(s, k, env);
    ProgramReadsKey(k);
    hide Core, HandleKey, Deliveries, HeldBack, ActiveTab, EncodeContentKey, Means, Silent;
    if Silent(k) {
      assert Deliveries(s.log) + HeldBack(s) + [] == Deliveries(s.log) + HeldBack(s);
    } else {
      assert Means(EncodeContentKey(k), k);
    }
  }

  /** An Esc in the terminal opens Jump Mode exactly when it completes a double one. */
  lemma EscOpensIff(s: State, k: Key, env: Env, ps: seq<Typed>, now: nat)
    requires Sound(s) && Ledger(s, ps, now) && now <= env.now
    requires ContentPress(s, Press(k, env)) && k.code.Esc?
    ensures HandleKey(s, k, env).state.modes.jumpMode <==> Opens(ps + [Typed(ActiveTab(s.tree).id, k, env.now)])
  {
    hide Core, Deliveries, Kept, DialogsInRange;
    var p := Typed(ActiveTab(s.tree).id, k, env.now);
    assert Init(ps + [p]) == ps;
  }

  lemma EscIsHeldBack(s: State, k: Key, env: Env)
    requires Sound(s) && ContentPress(s, Press(k, env)) && k.code.Esc?
    ensures var r := HandleKey(s, k, env).state;
            && r.tree == s.tree
            && if s.pendingEsc.Some? && Elapsed(s.pendingEsc.value, env.now) < ESC_WINDOW
               then r.pendingEsc.None? && r.log == s.log
               else r.pendingEsc == Some(env.now) && Deliveries(r.log) == Deliveries(s.log) + HeldBack(s)
  {
    FlushDelivers(s);
    hide Core, Deliveries, HeldBack, ActiveTab;
  }

  lemma EscKeepsLedger(s: State, k: Key, env: Env, ps: seq<Typed>, now: nat)
    requires Sound(s) && Ledger(s, ps, now) && now <= env.now
    requires ContentPress(s, Press(k, env)) && k.code.Esc?
    ensures var r := HandleKey(s, k, env).state;
            Core(r.tree) && Ledger(r, ps + [Typed(ActiveTab(s.tree).id, k, env.now)], env.now)
  {
    var p := Typed(ActiveTab(s.tree).id, k, env.now);
    EscIsHeldBack(s, k, env);
    KeptAfter(ps, p);
    OpensAfter(ps, p);
    hide Core, HandleKey, DialogsInRange, Deliveries, ActiveTab, Kept, Opens;
    if Opens(ps + [p]) {
      SameButLast(Deliveries(s.log), HeldBack(s), Kept(ps + [p]), Entry(Last(ps)));
    }
  }

  lemma SameButLast<T>(a: seq<T>, x: seq<T>, b: seq<T>, y: seq<T>)
    requires a + x == b + y && |x| == |y|
    ensures a == b
  {
    assert a == (a + x)[..|a|] && b == (b + y)[..|b|];
  }

  lemma OpensAfter(ps: seq<Typed>, p: Typed)
    ensures Opens(ps + [p]) <==> ps != [] && p.key.code.Esc? && Last(ps).key.code.Esc?
                                 && Elapsed(Last(ps).at, p.at) < ESC_WINDOW && !Opens(ps)
  {
    assert Init(ps + [p]) == ps;
  }

  /** A double Esc takes its first half back; anything else is added. */
  lemma KeptAfter(ps: seq<Typed>, p: Typed)
    ensures if Opens(ps + [p]) then ps != [] && Kept(ps + [p]) + Entry(Last(ps)) == Kept(ps)
            else Kept(ps + [p]) == Kept(ps) + Entry(p)
  {
    assert Init(ps + [p]) == ps;
    if Opens(ps + [p]) {
      assert (ps + [p])[..|ps| - 1] == Init(ps);
    }
  }

  lemma KeyKeepsLedger(s: State, k: Key, env: Env, ps: seq<Typed>, now: nat)
    requires Sound(s) && Ledger(s, ps, now) && now <= env.now
    requires ContentPress(s, Press(k, env)) && !k.code.Esc?
    ensures var r := HandleKey(s, k, env).state;
            Core(r.tree) && Ledger(r, ps + [Typed(ActiveTab(s.tree).id, k, env.now)], env.now)
  {
    KeyDelivers(s, k, env);
    HandleKeyKeepsValid(s, k, env);
    hide Core, HandleKey, DialogsInRange, Deliveries, ActiveTab, Entry;
    assert Init(ps + [Typed(ActiveTab(s.tree).id, k, env.now)]) == ps;
  }

  lemma PassKeepsLedger(s: State, env: Env, connected: bool, drawn: Option<Drawn>, ps: seq<Typed>, now: nat)
    requires Sound(s) && Ledger(s, ps, now) && now <= env.now
    ensures var r := MainPass(s, env, connected, drawn); r.tree == s.tree && Ledger(r, ps, env.now)
  {
    hide Core, DialogsInRange, Deliveries, ActiveTab, SyncFocus, CurDesk, Kept, Opens;
    var s1 := s.(connected := connected);
    SyncFocusTouches(s1, env);
    SyncFocusIsQuiet(s1, env);
    FlushDelivers(SyncFocus(s1, env));
  }

  lemma SyncFocusIsQuiet(s: State, env: Env)
    requires Core(s.tree)
    ensures Quiet(SyncFocus(s, env), s)
  {
    hide Core, Deliveries;
    LoggingIsQuiet(s, Report(ActiveTab(s.tree).id, s.focus.Content?));
  }

  lemma QuietKeepsLedger(s: State, r: State, ps: seq<Typed>, now: nat, later: nat)
    requires Sound(s) && Ledger(s, ps, now) && Core(r.tree) && Quiet(r, s) && now <= later
    requires s.pendingEsc.None? || r.tree == s.tree
    ensures Ledger(r, ps, later)
  {
    hide Core, Deliveries, Kept, Opens, DialogsInRange;
  }

  /** One step keeps the ledger. */
  lemma StepKeepsLedger(s: State, e: Event, ps: seq<Typed>, now: nat)
    requires Valid(s) && Allowed(s, e) && Ledger(s, ps, now) && now <= Clock(e, now)
    ensures Core(Step(s, e).tree) && Ledger(Step(s, e), ps + TypedBy(s, e), Clock(e, now))
  {
    StepKeepsValid(s, e);
    hide HandleKey, MainPass, Ledger, StaleHit, Core, DialogsInRange, OpenModes, ActiveTab, SwitchOffice;
    assert ps + [] == ps;
    if ContentPress(s, e) {
      if e.key.code.Esc? { EscKeepsLedger(s, e.key, e.env, ps, now); } else { KeyKeepsLedger(s, e.key, e.env, ps, now); }
    } else if e.Press? && !s.onboarding {
      OtherKeysSendNothing(s, e.key, e.env);
      if Ignored(s, e.key) { IgnoredKeysChangeNothing(s, e.key, e.env); }
      QuietKeepsLedger(s, Step(s, e), ps, now, e.env.now);
    } else if e.Pass? && !s.onboarding {
      PassKeepsLedger(s, e.env, e.connected, e.drawn, ps, now);
    } else {
      QuietStep(s, e);
      QuietKeepsLedger(s, Step(s, e), ps, now, Clock(e, now));
    }
  }

  lemma IgnoredKeysChangeNothing(s: State, k: Key, env: Env)
    requires Sound(s) && Ignored(s, k) && !StaleHit(s, k) && !StaleCommit(s, k)
    ensures HandleKey(s, k, env).state == s
  {
    hide Sound, StaleHit, StaleCommit;
  }

  lemma QuietStep(s: State, e: Event)
    requires Valid(s) && Allowed(s, e) && ((!e.Press? && !e.Pass?) || s.onboarding)
    ensures Quiet(Step(s, e), s) && (s.pendingEsc.None? || Step(s, e).tree == s.tree)
  {
    hide HandleKey, MainPass, OpenModes, DialogsInRange, StaleHit, ActiveTab, Deliveries, GoodOffice;
    match e
    case Press(_, _) =>
    case Pass(_, _, _) =>
    case Paste(text) => LoggingIsQuiet(s, Pasted(ActiveTab(s.tree).id, text));
    case Onboarded(office) =>
      if s.onboarding && office.Some? {
        var offices := s.tree.offices + [office.value];
        SwitchIsQuiet(s.(tree := s.tree.(offices := offices)), |offices| - 1);
      }
  }

  lemma {:induction false} RunKeepsLedger(s: State, es: seq<Event>, ps: seq<Typed>, now: nat)
    requires Valid(s) && Safe(s, es) && Clocked(es, now) && Ledger(s, ps, now)
    ensures Ledger(Run(s, es), ps + Presses(s, es), ClockAfter(es, now))
    decreases |es|
  {
    assert Core(s.tree);
    hide *;
    RunUnfolds(s, es);
    ClockUnfolds(es, now);
    if es == [] {
      assert ps + [] == ps;
    } else {
      var s1, typed := Step(s, es[0]), TypedBy(s, es[0]);
      Associative(ps, typed, Presses(s1, es[1..]));
      StepKeepsLedger(s, es[0], ps, now);
      RunKeepsLedger(s1, es[1..], ps + typed, Clock(es[0], now));
    }
  }

  lemma Associative<T>(a: seq<T>, b: seq<T>, c: seq<T>)
    ensures (a + b) + c == a + (b + c)
  {
  }

  lemma ClockUnfolds(es: seq<Event>, now: nat)
    requires Clocked(es, now)
    ensures es == [] ==> ClockAfter(es, now) == now
    ensures es != [] ==> now <= Clock(es[0], now) && Clocked(es[1..], Clock(es[0], now))
                         && ClockAfter(es, now) == ClockAfter(es[1..], Clock(es[0], now))
  {
  }

  lemma RunUnfolds(s: State, es: seq<Event>)
    requires Valid(s) && Safe(s, es)
    ensures es == [] ==> Run(s, es) == s && Presses(s, es) == []
    ensures es != [] ==>
              && Allowed(s, es[0]) && Valid(Step(s, es[0])) && Safe(Step(s, es[0]), es[1..])
              && Run(s, es) == Run(Step(s, es[0]), es[1..])
              && Presses(s, es) == TypedBy(s, es[0]) + Presses(Step(s, es[0]), es[1..])
  {
    if es != [] { StepKeepsValid(s, es[0]); }
    hide Step, Valid, Core, TypedBy, Allowed;
  }

  /** Over all timed interleavings of keys, loop passes and pastes: the key bytes sent, then the Esc held back if
      any, are exactly what was typed into the terminal, each for the tab it was typed in and in order, without
      the double Escs that opened Jump Mode. */
  lemma NothingLostOrReordered(s: State, es: seq<Event>, now: nat)
    requires Valid(s) && Deliveries(s.log) == [] && s.pendingEsc.None? && Safe(s, es) && Clocked(es, now)
    ensures var r := Run(s, es);
            Deliveries(r.log) + HeldBack(r) == Kept(Presses(s, es)) && |HeldBack(r)| <= 1
  {
    assert Ledger(s, [], now);
    hide Core, Valid, Safe, Run, Presses, Kept, Deliveries;
    RunKeepsLedger(s, es, [], now);
    assert [] + Presses(s, es) == Presses(s, es);
  }

  /** An Esc typed after any such run opens Jump Mode exactly when it completes a double one, whatever loop passes
      came between. */
  lemma JumpModeOpensIff(s: State, es: seq<Event>, now: nat, k: Key, env: Env)
    requires Valid(s) && Deliveries(s.log) == [] && s.pendingEsc.None? && Safe(s, es) && Clocked(es, now)
    requires ContentPress(Run(s, es), Press(k, env)) && k.code.Esc? && ClockAfter(es, now) <= env.now
    ensures var typed := Typed(ActiveTab(Run(s, es).tree).id, k, env.now);
            HandleKey(Run(s, es), k, env).state.modes.jumpMode <==> Opens(Presses(s, es) + [typed])
  {
    assert Ledger(s, [], now);
    hide Core, Valid, Safe, Run, Presses, Kept, Deliveries, HandleKey, Ledger, Opens;
    RunKeepsLedger(s, es, [], now);
    assert [] + Presses(s, es) == Presses(s, es);
    EscOpensIff(Run(s, es), k, env, Presses(s, es), ClockAfter(es, now));
  }

  /** Esc and then a key sends what Alt with that key sends, except where Alt means something else or the key has
      no encoding. */
  lemma EscPrefixIsAlt(k: Key)
    requires !k.alt && !k.code.Esc?
    ensures ESC + Bytes(k) == Bytes(k.(alt := true))
            <==> !IsDigit(k) && !(k.shift && (k.code.PageUp? || k.code.PageDown?)) && EncodePlain(k) != []
  {
    var a := k.(alt := true);
    assert EncodePlain(a) == EncodePlain(k);
  }

  /** A paste is not held up by a pending Esc: it keeps its place among the keys only when none is pending. */
  lemma PasteInOrderIff(s: State, text: string)
    requires Valid(s) && !s.onboarding && s.focus.Content?
    ensures var pasted := Pasted(ActiveTab(s.tree).id, text);
            FlushEsc(Step(s, Paste(text))).log == FlushEsc(s).log + [pasted] <==> s.pendingEsc.None?
  {
    hide Core, DialogsInRange;
    var pasted := Pasted(ActiveTab(s.tree).id, text);
    if s.pendingEsc.Some? {
      assert FlushEsc(Step(s, Paste(text))).log[|s.log|] == pasted;
      assert (FlushEsc(s).log + [pasted])[|s.log|] == Sent(ActiveTab(s.tree).id, ESC);
    }
  }
}
