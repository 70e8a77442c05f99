/** The account of typed keys over runs that mix keys and mouse events.  The mouse can leave the terminal while an Esc
    is held back; the Esc then goes with the user, and everything else reaches the tab it was typed in. */
module MixedEsc {
  import opened Basics
  import opened Keys
  import opened Workspace
  import opened ContentEsc
  import opened MixedRuns
  import Mouse

  // ---- what was typed, and where it is to go ----

  /** The keys typed into the terminal, each with the tab it was typed in. */
  ghost function AsTyped(m: Screen, ins: seq<Input>): seq<Typed>
    requires Sound(m.app) && FineRun(m, ins)
    decreases |ins|
  {
    if ins == [] then []
    else
      MixedStepKeepsSound(m, ins[0]);
      TypedIn(m, ins[0]) + AsTyped(MixedStep(m, ins[0]), ins[1..])
  }

  function TypedIn(m: Screen, i: Input): seq<Typed>
    requires Core(m.app.tree)
  {
    if i.Loop? then TypedBy(m.app, i.event) else []
  }

  /** An Esc that is held back is addressed to the tab that is now active. */
  function Followed(ps: seq<Typed>, held: bool, tab: string): seq<Typed> {
    if held && ps != [] then Init(ps) + [Last(ps).(tab := tab)] else ps
  }

  function AddressedAfter(m: Screen, i: Input, ps: seq<Typed>): seq<Typed>
    requires Sound(m.app) && Fine(m, i)
  {
    MixedStepKeepsSound(m, i);
    if TypedIn(m, i) != [] then ps + TypedIn(m, i)
    else Followed(ps, m.app.pendingEsc.Some?, ActiveTab(MixedStep(m, i).app.tree).id)
  }

  /** The same keys after a run, each with the tab it goes to. */
  ghost function Addressed(m: Screen, ins: seq<Input>, ps: seq<Typed>): seq<Typed>
    requires Sound(m.app) && FineRun(m, ins)
    decreases |ins|
  {
    if ins == [] then ps
    else
      MixedStepKeepsSound(m, ins[0]);
      Addressed(MixedStep(m, ins[0]), ins[1..], AddressedAfter(m, ins[0], ps))
  }

  function InputClock(i: Input, now: nat): nat { if i.Loop? then Clock(i.event, now) else i.env.now }

  ghost predicate InTime(ins: seq<Input>, now: nat) {
    ins == [] || (now <= InputClock(ins[0], now) && InTime(ins[1..], InputClock(ins[0], now)))
  }

  ghost function TimeAfter(ins: seq<Input>, now: nat): nat {
    if ins == [] then now else TimeAfter(ins[1..], InputClock(ins[0], now))
  }

  // ---- one input ----

  /** The Esc held back is the last key typed, on its way to the active tab. */
  lemma HeldIsLast(s: State, ps: seq<Typed>, now: nat)
    requires Core(s.tree) && Ledger(s, ps, now) && s.pendingEsc.Some?
    ensures Last(ps).tab == ActiveTab(s.tree).id && Deliveries(s.log) == Kept(Init(ps))
    ensures Followed(ps, true, ActiveTab(s.tree).id) == ps
  {
    hide Core, Deliveries, Opens, ActiveTab;
    var p := Last(ps);
    assert Entry(p) == [Delivery(p.tab, ESC)];
    SameEnd(Deliveries(s.log), Delivery(ActiveTab(s.tree).id, ESC), Kept(Init(ps)), Delivery(p.tab, ESC));
  }

  lemma SameEnd<T>(a: seq<T>, x: T, b: seq<T>, y: T)
    requires a + [x] == b + [y]
    ensures a == b && x == y
  {
    assert (a + [x])[..|a|] == a && (b + [y])[..|b|] == b && (a + [x])[|a|] == x;
  }

  lemma OpensWherever(ps: seq<Typed>, tab: string)
    requires ps != []
    ensures Opens(Init(ps) + [Last(ps).(tab := tab)]) == Opens(ps)
  {
    OpensAfter(Init(ps), Last(ps));
    OpensAfter(Init(ps), Last(ps).(tab := tab));
    assert Init(ps) + [Last(ps)] == ps;
  }

  /** A step that sends no key bytes takes the Esc held back along. */
  lemma QuietStepKeepsLedger(s: State, r: State, ps: seq<Typed>, now: nat, later: nat)
    requires Core(s.tree) && Core(r.tree) && Ledger(s, ps, now) && Quiet(r, s) && now <= later
    ensures Ledger(r, Followed(ps, s.pendingEsc.Some?, ActiveTab(r.tree).id), later)
  {
    if s.pendingEsc.Some? {
      HeldIsLast(s, ps, now);
      var q := Last(ps).(tab := ActiveTab(r.tree).id);
      OpensWherever(ps, q.tab);
      KeptAfter(Init(ps), q);
    }
    hide Core, Deliveries, Kept, Opens, ActiveTab;
  }

  lemma TypedKeepsLedger(s: State, k: Key, env: Env, ps: seq<Typed>, now: nat)
    requires Sound(s) && Ledger(s, ps, now) && now <= env.now && ContentPress(s, Press(k, env))
    ensures var r := HandleKey(s, k, env).state;
            Core(r.tree) && Ledger(r, ps + TypedBy(s, Press(k, env)), env.now)
  {
    if k.code.Esc? { EscKeepsLedger(s, k, env, ps, now); } else { KeyKeepsLedger(s, k, env, ps, now); }
    hide Core, HandleKey, Ledger;
  }

  lemma OtherEventIsQuiet(s: State, e: Event)
    requires Sound(s) && Allowed(s, e) && !ContentPress(s, e) && (!e.Pass? || s.onboarding)
    ensures Quiet(Step(s, e), s)
  {
    hide HandleKey, MainPass, StaleHit, StaleCommit, ActiveTab, Deliveries, GoodOffices;
    match e
    case Press(k, env) => if !s.onboarding { OtherKeysSendNothing(s, k, env); }
    case Pass(_, _, _) =>
    case Paste(text) => LoggingIsQuiet(s, Pasted(ActiveTab(s.tree).id, text));
    case Onboarded(office) => OnboardedIsQuiet(s, office);
  }

  lemma OnboardedIsQuiet(s: State, office: Option<UsableOffice>)
    requires Core(s.tree)
    ensures Quiet(FinishOnboarding(s, office), s)
  {
    hide ActiveTab, Deliveries;
    if s.onboarding && office.Some? {
      var offices := s.tree.offices + [office.value];
      SwitchIsQuiet(s.(tree := s.tree.(offices := offices)), |offices| - 1);
    }
  }

  lemma EventKeepsAccount(m: Screen, i: Input, ps: seq<Typed>, now: nat)
    requires Sound(m.app) && Fine(m, i) && i.Loop? && Ledger(m.app, ps, now) && now <= InputClock(i, now)
    ensures var r := MixedStep(m, i).app; Core(r.tree) && Ledger(r, AddressedAfter(m, i, ps), InputClock(i, now))
  {
    var s, e := m.app, i.event;
    MixedStepKeepsSound(m, i);
    hide Sound, HandleKey, MainPass, Ledger, StaleHit, StaleCommit, Core, ActiveTab, SwitchOffice, Quiet;
    if ContentPress(s, e) {
      TypedKeepsLedger(s, e.key, e.env, ps, now);
    } else if e.Pass? && !s.onboarding {
      PassKeepsLedger(s, e.env, e.connected, e.drawn, ps, now);
      assert Followed(ps, s.pendingEsc.Some?, ActiveTab(s.tree).id) == ps by {
        if s.pendingEsc.Some? { HeldIsLast(s, ps, now); }
      }
    } else {
      OtherEventIsQuiet(s, e);
      QuietStepKeepsLedger(s, Step(s, e), ps, now, InputClock(i, now));
    }
  }

  lemma PointerKeepsAccount(m: Screen, i: Input, ps: seq<Typed>, now: nat)
    requires Sound(m.app) && Fine(m, i) && i.Pointer? && Ledger(m.app, ps, now) && now <= i.env.now
    ensures var r := MixedStep(m, i).app; Core(r.tree) && Ledger(r, AddressedAfter(m, i, ps), i.env.now)
  {
    MixedStepKeepsSound(m, i);
    hide Sound, Mouse.OnMouse, Mouse.StaleClick, Ledger, Core, ActiveTab, Followed, Quiet;
    if m.app.onboarding {
      SameLogIsQuiet(m.app, m.app);
    } else {
      Mouse.MouseIsQuiet(m.app, Seen(m), m.last, i.mouse, i.tracking, i.env);
    }
    QuietStepKeepsLedger(m.app, MixedStep(m, i).app, ps, now, i.env.now);
  }

  /** Every input of a mixed run keeps the account. */
  lemma InputKeepsAccount(m: Screen, i: Input, ps: seq<Typed>, now: nat)
    requires Sound(m.app) && Fine(m, i) && Ledger(m.app, ps, now) && now <= InputClock(i, now)
    ensures var r := MixedStep(m, i).app; Core(r.tree) && Ledger(r, AddressedAfter(m, i, ps), InputClock(i, now))
  {
    hide Sound, Fine, Ledger, AddressedAfter, MixedStep;
    if i.Loop? { EventKeepsAccount(m, i, ps, now); } else { PointerKeepsAccount(m, i, ps, now); }
  }

  // ---- whole runs ----

  lemma RunUnfolds(m: Screen, ins: seq<Input>, ps: seq<Typed>)
    requires Sound(m.app) && FineRun(m, ins)
    ensures ins == [] ==> MixedRun(m, ins) == m && AsTyped(m, ins) == [] && Addressed(m, ins, ps) == ps
    ensures ins != [] ==>
              && Fine(m, ins[0]) && Sound(MixedStep(m, ins[0]).app) && FineRun(MixedStep(m, ins[0]), ins[1..])
              && MixedRun(m, ins) == MixedRun(MixedStep(m, ins[0]), ins[1..])
              && AsTyped(m, ins) == TypedIn(m, ins[0]) + AsTyped(MixedStep(m, ins[0]), ins[1..])
              && Addressed(m, ins, ps) == Addressed(MixedStep(m, ins[0]), ins[1..], AddressedAfter(m, ins[0], ps))
  {
    if ins != [] { MixedStepKeepsSound(m, ins[0]); }
    hide Sound, Fine, MixedStep, TypedIn, AddressedAfter;
  }

  lemma TimeUnfolds(ins: seq<Input>, now: nat)
    requires InTime(ins, now)
    ensures ins == [] ==> TimeAfter(ins, now) == now
    ensures ins != [] ==>
              && now <= InputClock(ins[0], now) && InTime(ins[1..], InputClock(ins[0], now))
              && TimeAfter(ins, now) == TimeAfter(ins[1..], InputClock(ins[0], now))
  {
  }

  lemma {:induction false} MixedRunKeepsAccount(m: Screen, ins: seq<Input>, ps: seq<Typed>, now: nat)
    requires Sound(m.app) && FineRun(m, ins) && InTime(ins, now) && Ledger(m.app, ps, now)
    ensures Ledger(MixedRun(m, ins).app, Addressed(m, ins, ps), TimeAfter(ins, now))
    decreases |ins|
  {
    assert Core(m.app.tree);
    RunUnfolds(m, ins, ps);
    TimeUnfolds(ins, now);
    hide Sound, FineRun, MixedRun, Addressed, AsTyped, Ledger, InTime, TimeAfter, MixedStep, Fine, AddressedAfter, Core;
    if ins != [] {
      InputKeepsAccount(m, ins[0], ps, now);
      MixedRunKeepsAccount(MixedStep(m, ins[0]), ins[1..], AddressedAfter(m, ins[0], ps), InputClock(ins[0], now));
    }
  }

  // ---- the addresses ----

  /** The same keys at the same times, to the same tabs but for an Esc. */
  ghost predicate SameKeys(qs: seq<Typed>, ps: seq<Typed>) {
    |qs| == |ps| && forall n :: 0 <= n < |ps| ==>
                      qs[n].key == ps[n].key && qs[n].at == ps[n].at && (ps[n].key.code.Esc? || qs[n] == ps[n])
  }

  lemma InputKeepsKeys(m: Screen, i: Input, qs: seq<Typed>, ps: seq<Typed>, now: nat)
    requires Sound(m.app) && Fine(m, i) && Ledger(m.app, qs, now) && SameKeys(qs, ps)
    ensures SameKeys(AddressedAfter(m, i, qs), ps + TypedIn(m, i))
  {
    hide Sound, Fine, MixedStep, TypedBy, Core, ActiveTab, Kept, Deliveries, HeldBack, Opens;
  }

  lemma {:induction false} RunKeepsKeys(m: Screen, ins: seq<Input>, qs: seq<Typed>, ps: seq<Typed>, now: nat)
    requires Sound(m.app) && FineRun(m, ins) && InTime(ins, now) && Ledger(m.app, qs, now) && SameKeys(qs, ps)
    ensures SameKeys(Addressed(m, ins, qs), ps + AsTyped(m, ins))
    decreases |ins|
  {
    assert Core(m.app.tree);
    hide *;
    RunUnfolds(m, ins, qs);
    TimeUnfolds(ins, now);
    if ins == [] {
      assert ps + [] == ps;
    } else {
      var n, typed, qs1 := MixedStep(m, ins[0]), TypedIn(m, ins[0]), AddressedAfter(m, ins[0], qs);
      InputKeepsAccount(m, ins[0], qs, now);
      InputKeepsKeys(m, ins[0], qs, ps, now);
      RunKeepsKeys(n, ins[1..], qs1, ps + typed, InputClock(ins[0], now));
      assert SameKeys(Addressed(m, ins, qs), (ps + typed) + AsTyped(n, ins[1..]));
      Associative(ps, typed, AsTyped(n, ins[1..]));
    }
  }

  /** Which keys make a double Esc does not depend on the tabs. */
  lemma {:induction false} OpensAlike(qs: seq<Typed>, ps: seq<Typed>)
    requires SameKeys(qs, ps)
    ensures Opens(qs) == Opens(ps)
    decreases |ps|
  {
    if |ps| >= 2 { OpensAlike(Init(qs), Init(ps)); }
  }

  lemma OneMoreOpensAlike(qs: seq<Typed>, ps: seq<Typed>, p: Typed)
    requires SameKeys(qs, ps)
    ensures Opens(qs + [p]) == Opens(ps + [p])
  {
    OpensAlike(qs + [p], ps + [p]);
  }

  /** The same bytes in the same order, to the same tabs but for an Esc. */
  ghost predicate SameBytes(a: seq<Delivery>, b: seq<Delivery>) {
    |a| == |b| && forall n :: 0 <= n < |b| ==> a[n].bytes == b[n].bytes && (b[n].bytes == ESC || a[n] == b[n])
  }

  lemma {:induction false} KeptAlike(qs: seq<Typed>, ps: seq<Typed>)
    requires SameKeys(qs, ps)
    ensures SameBytes(Kept(qs), Kept(ps))
    decreases |ps|
  {
    if ps != [] {
      OpensAlike(qs, ps);
      if Opens(ps) {
        KeptAlike(qs[..|qs| - 2], ps[..|ps| - 2]);
      } else {
        KeptAlike(Init(qs), Init(ps));
      }
    }
  }

  /** Over all timed runs that mix keys and mouse events: the key bytes sent, then the Esc held back if any, are
      exactly what was typed into the terminal, in order, without the double Escs, each for the tab it was typed in
      except that an Esc goes to the tab that is active when it is sent. */
  lemma MixedNothingLost(m: Screen, ins: seq<Input>, now: nat)
    requires Sound(m.app) && FineRun(m, ins) && InTime(ins, now)
    requires Deliveries(m.app.log) == [] && m.app.pendingEsc.None?
    ensures var r := MixedRun(m, ins).app;
            && Deliveries(r.log) + HeldBack(r) == Kept(Addressed(m, ins, []))
            && SameBytes(Deliveries(r.log) + HeldBack(r), Kept(AsTyped(m, ins)))
            && SameKeys(Addressed(m, ins, []), AsTyped(m, ins))
  {
    assert Ledger(m.app, [], now);
    assert SameKeys([], []);
    assert [] + AsTyped(m, ins) == AsTyped(m, ins);
    MixedRunKeepsAccount(m, ins, [], now);
    RunKeepsKeys(m, ins, [], [], now);
    KeptAlike(Addressed(m, ins, []), AsTyped(m, ins));
    hide Sound, FineRun, MixedRun, Addressed, AsTyped, Kept, Deliveries, InTime, SameKeys, SameBytes, Opens;
  }

  /** An Esc typed after any such run opens Jump Mode exactly when it completes a double one, wherever the mouse has
      been in between. */
  lemma MixedJumpModeOpensIff(m: Screen, ins: seq<Input>, now: nat, k: Key, env: Env)
    requires Sound(m.app) && FineRun(m, ins) && InTime(ins, now)
    requires Deliveries(m.app.log) == [] && m.app.pendingEsc.None?
    requires ContentPress(MixedRun(m, ins).app, Press(k, env)) && k.code.Esc? && TimeAfter(ins, now) <= env.now
    ensures var r := MixedRun(m, ins).app;
            HandleKey(r, k, env).state.modes.jumpMode
            <==> Opens(AsTyped(m, ins) + [Typed(ActiveTab(r.tree).id, k, env.now)])
  {
    assert Ledger(m.app, [], now);
    hide Core, FineRun, MixedRun, Addressed, AsTyped, Kept, Deliveries, InTime, TimeAfter, SameKeys, SameBytes, Opens;
    hide HandleKey, Ledger, ContentPress;
    MixedRunKeepsAccount(m, ins, [], now);
    MixedNothingLost(m, ins, now);
    var r, qs := MixedRun(m, ins).app, Addressed(m, ins, []);
    EscOpensIff(r, k, env, qs, TimeAfter(ins, now));
    OneMoreOpensAlike(qs, AsTyped(m, ins), Typed(ActiveTab(r.tree).id, k, env.now));
  }

  /** The input does not lead away from an Esc that is held back. */
  predicate StaysWithEsc(m: Screen, i: Input)
    requires Sound(m.app) && Fine(m, i)
  {
    MixedStepKeepsSound(m, i);
    m.app.pendingEsc.Some? && TypedIn(m, i) == [] ==>
      ActiveTab(MixedStep(m, i).app.tree).id == ActiveTab(m.app.tree).id
  }

  /** One input readdresses a key exactly when it leads away from an Esc that is held back. */
  lemma ReaddressesIff(m: Screen, i: Input, ps: seq<Typed>, now: nat)
    requires Sound(m.app) && Fine(m, i) && Ledger(m.app, ps, now)
    ensures AddressedAfter(m, i, ps) == ps + TypedIn(m, i) <==> StaysWithEsc(m, i)
  {
    hide Fine, MixedStep, TypedIn, Core, ActiveTab, Ledger;
    MixedStepKeepsSound(m, i);
    if m.app.pendingEsc.Some? {
      HeldIsLast(m.app, ps, now);
      HeldIsTyped(m.app, ps, now);
      assert Followed(ps, true, ActiveTab(MixedStep(m, i).app.tree).id)[|ps| - 1].tab
          == ActiveTab(MixedStep(m, i).app.tree).id;
    }
  }

  lemma HeldIsTyped(s: State, ps: seq<Typed>, now: nat)
    requires Core(s.tree) && Ledger(s, ps, now) && s.pendingEsc.Some?
    ensures ps != []
  {
    hide Core, Kept, Deliveries, Opens;
  }

  ghost predicate StayWithEsc(m: Screen, ins: seq<Input>)
    requires Sound(m.app) && FineRun(m, ins)
    decreases |ins|
  {
    ins == []
    || (MixedStepKeepsSound(m, ins[0]); StaysWithEsc(m, ins[0]) && StayWithEsc(MixedStep(m, ins[0]), ins[1..]))
  }

  lemma StayUnfolds(m: Screen, ins: seq<Input>)
    requires Sound(m.app) && FineRun(m, ins) && StayWithEsc(m, ins) && ins != []
    ensures Fine(m, ins[0]) && Sound(MixedStep(m, ins[0]).app) && FineRun(MixedStep(m, ins[0]), ins[1..])
    ensures StaysWithEsc(m, ins[0]) && StayWithEsc(MixedStep(m, ins[0]), ins[1..])
  {
    MixedStepKeepsSound(m, ins[0]);
    hide Sound, Fine, MixedStep, StaysWithEsc;
  }

  lemma {:induction false} StayingKeepsAddresses(m: Screen, ins: seq<Input>, ps: seq<Typed>, now: nat)
    requires Sound(m.app) && FineRun(m, ins) && InTime(ins, now) && Ledger(m.app, ps, now) && StayWithEsc(m, ins)
    ensures Addressed(m, ins, ps) == ps + AsTyped(m, ins)
    decreases |ins|
  {
    assert Core(m.app.tree);
    hide *;
    RunUnfolds(m, ins, ps);
    TimeUnfolds(ins, now);
    if ins == [] {
      assert ps + [] == ps;
    } else {
      var n, typed := MixedStep(m, ins[0]), TypedIn(m, ins[0]);
      StayUnfolds(m, ins);
      InputKeepsAccount(m, ins[0], ps, now);
      ReaddressesIff(m, ins[0], ps, now);
      StayingKeepsAddresses(n, ins[1..], ps + typed, InputClock(ins[0], now));
      Associative(ps, typed, AsTyped(n, ins[1..]));
    }
  }

  /** A run that never leads away from an Esc that is held back sends every key to the tab it was typed in. */
  lemma StayingSendsHome(m: Screen, ins: seq<Input>, now: nat)
    requires Sound(m.app) && FineRun(m, ins) && InTime(ins, now) && StayWithEsc(m, ins)
    requires Deliveries(m.app.log) == [] && m.app.pendingEsc.None?
    ensures var r := MixedRun(m, ins).app; Deliveries(r.log) + HeldBack(r) == Kept(AsTyped(m, ins))
  {
    assert Ledger(m.app, [], now);
    hide Sound, FineRun, MixedRun, Addressed, AsTyped, Kept, Deliveries, InTime, Opens, StayWithEsc, Ledger;
    MixedNothingLost(m, ins, now);
    StayingKeepsAddresses(m, ins, [], now);
    assert [] + AsTyped(m, ins) == AsTyped(m, ins);
  }
}
