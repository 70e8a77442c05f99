/** Who is subscribed to which PTY, and who may resize it: the shared state of src/daemon/service.rs over all
    interleavings of its connections, and the two sizes that `PtyProvider` keeps. */
module Subscribers {
  import opened Basics

  type TabId = string
  type ConnId = nat
  type Size = (nat, nat)

  /** One provider instance: the size last asked for, the size of its running PTY, and its counter. */
  datatype Pty = Pty(requested: Size, live: Option<Size>, subscribers: int)

  const NEW_PTY := Pty((24, 80), None, 0)

  /** What the operating system answers: whether the child has exited and whether a new one starts. */
  datatype Child = Child(exited: bool, starts: bool)

  function AtLeastOne(s: Size): Size { (if s.0 == 0 then 1 else s.0, if s.1 == 0 then 1 else s.1) }

  function Revived(p: Pty, child: Child): Pty {
    if p.live.Some? && !child.exited then p
    else p.(live := if child.starts then Some(AtLeastOne(p.requested)) else None)
  }

  function SpawnPty(p: Pty, s: Size, child: Child): Pty {
    Revived(p.(requested := AtLeastOne(s)), child)
  }

  function ResizePty(p: Pty, s: Size): Pty {
    if p.requested == s then p
    else p.(requested := s, live := if p.live.Some? then Some(s) else None)
  }

  class PtyProvider {
    var currentSize: Size
    var pty: Option<Size>
    var subscriberCount: int

    function View(): Pty
      reads this
    {
      Pty(currentSize, pty, subscriberCount)
    }

    constructor ()
      ensures View() == NEW_PTY
    {
      currentSize, pty, subscriberCount := (24, 80), None, 0;
    }

    method EnsureRunning(child: Child)
      modifies this`pty
      ensures View() == Revived(old(View()), child)
    {
      var rows := if currentSize.0 < 1 then 1 else currentSize.0;
      var cols := if currentSize.1 < 1 then 1 else currentSize.1;
      var needsRespawn := pty.None? || child.exited;
      if !needsRespawn {
        return;
      }
      pty := None;
      if child.starts {
        pty := Some((rows, cols));
      }
    }

    method Spawn(rows: nat, cols: nat, child: Child)
      modifies this
      ensures View() == SpawnPty(old(View()), (rows, cols), child)
    {
      currentSize := (if rows < 1 then 1 else rows, if cols < 1 then 1 else cols);
      EnsureRunning(child);
    }

    method Resize(rows: nat, cols: nat)
      modifies this
      ensures View() == ResizePty(old(View()), (rows, cols))
    {
      if currentSize == (rows, cols) {
        return;
      }
      currentSize := (rows, cols);
      if pty.Some? {
        pty := Some((rows, cols));
      }
    }
  }

  /** A resize request leaves a running PTY at the size asked for, except when that size was already recorded
      without being applied, which is what `spawn` does to a PTY that is running. */
  lemma ResizeTakesEffectIff(p: Pty, s: Size)
    requires p.live.Some?
    ensures ResizePty(p, s).live == Some(s) <==> p.requested != s || p.live == Some(s)
  {
  }

  lemma SpawnThenResizeIsLost(p: Pty, s: Size, child: Child)
    requires p.live.Some? && !child.exited && AtLeastOne(s) == s && p.live != Some(s)
    ensures ResizePty(SpawnPty(p, s, child), s).live == p.live != Some(s)
  {
  }

  /** A child that is started gets the size asked for, each side at least one; one that runs keeps the size it has. */
  lemma SpawnStartsAt(p: Pty, s: Size, child: Child)
    ensures var r, asked := SpawnPty(p, s, child), (Max(s.0, 1), Max(s.1, 1));
            && r.requested == asked && r.subscribers == p.subscribers
            && r.live == if p.live.Some? && !child.exited then p.live else if child.starts then Some(asked) else None
  {
  }

  // ---- the daemon's shared state ----

  /** A connection in push mode holds the tab's name and the counter of the instance it subscribed to. */
  datatype Subscription = Subscription(tab: TabId, pty: nat)

  /** A connection between the steps of a spawn request: it has found no such tab, or has put a new instance in
      and not yet started it. */
  datatype Spawning = Checked(tab: TabId) | Inserted(pty: nat)

  datatype Daemon = Daemon(tabs: map<TabId, nat>, ptys: map<nat, Pty>, pushing: map<ConnId, Subscription>,
                           spawning: map<ConnId, Spawning>)

  const EMPTY := Daemon(map[], map[], map[], map[])

  datatype Event =
    | CheckSpawn(conn: ConnId, tab: TabId)
    | InsertSpawn(conn: ConnId, id: nat)
    | StartSpawn(conn: ConnId, size: Size, child: Child)
    | Touch(tab: TabId, child: Child)   // input, paste, scroll: the child is started again if it has gone
    | ClosePty(tab: TabId)
    | GetScreen(tab: TabId, size: Size, child: Child)
    | RequestResize(tab: TabId, size: Size, sync: bool)
    | Subscribe(conn: ConnId, tab: TabId, size: Size, child: Child)
    | PushResize(conn: ConnId, size: Size, sync: bool)
    | EndPush(conn: ConnId)

  /** A connection handles its requests one by one, none in push mode, and instances are new objects. */
  predicate Enabled(d: Daemon, e: Event) {
    match e
    case CheckSpawn(conn, _) => conn !in d.pushing && conn !in d.spawning
    case InsertSpawn(conn, id) => conn in d.spawning && d.spawning[conn].Checked? && id !in d.ptys
    case StartSpawn(conn, _, _) => conn in d.spawning && d.spawning[conn].Inserted?
    case Subscribe(conn, _, _, _) => conn !in d.pushing && conn !in d.spawning
    case PushResize(conn, _, _) => conn in d.pushing
    case EndPush(conn) => conn in d.pushing
    case _ => true
  }

  predicate Wired(d: Daemon) {
    (forall t :: t in d.tabs ==> d.tabs[t] in d.ptys)
    && (forall c :: c in d.pushing ==> d.pushing[c].pty in d.ptys)
    && (forall c :: c in d.spawning && d.spawning[c].Inserted? ==> d.spawning[c].pty in d.ptys)
  }

  /** The push-mode guard: the tab's present instance, if it may be resized. */
  function ResizeTarget(d: Daemon, conn: ConnId, sync: bool): Option<nat>
    requires Wired(d) && conn in d.pushing
  {
    var tab := d.pushing[conn].tab;
    if tab in d.tabs && sync && d.ptys[d.tabs[tab]].subscribers <= 1 then Some(d.tabs[tab]) else None
  }

  function Step(d: Daemon, e: Event): Daemon
    requires Wired(d) && Enabled(d, e)
  {
    match e
    case CheckSpawn(conn, tab) =>
      if tab in d.tabs then d else d.(spawning := d.spawning[conn := Checked(tab)])
    case InsertSpawn(conn, id) =>
      d.(tabs := d.tabs[d.spawning[conn].tab := id], ptys := d.ptys[id := NEW_PTY],
         spawning := d.spawning[conn := Inserted(id)])
    case StartSpawn(conn, size, child) =>
      var i := d.spawning[conn].pty;
      d.(ptys := d.ptys[i := SpawnPty(d.ptys[i], size, child)], spawning := d.spawning - {conn})
    case Touch(tab, child) =>
      if tab !in d.tabs then d
      else d.(ptys := d.ptys[d.tabs[tab] := Revived(d.ptys[d.tabs[tab]], child)])
    case ClosePty(tab) => d.(tabs := d.tabs - {tab})
    case GetScreen(tab, size, child) =>
      if tab !in d.tabs then d
      else d.(ptys := d.ptys[d.tabs[tab] := SpawnPty(d.ptys[d.tabs[tab]], AtLeastOne(size), child)])
    case RequestResize(tab, size, sync) =>
      if tab !in d.tabs || !sync then d
      else d.(ptys := d.ptys[d.tabs[tab] := ResizePty(d.ptys[d.tabs[tab]], AtLeastOne(size))])
    case Subscribe(conn, tab, size, child) =>
      if tab !in d.tabs then d
      else
        var i := d.tabs[tab];
        var p := SpawnPty(d.ptys[i], AtLeastOne(size), child);
        d.(ptys := d.ptys[i := p.(subscribers := p.subscribers + 1)],
           pushing := d.pushing[conn := Subscription(tab, i)])
    case PushResize(conn, size, sync) =>
      var target := ResizeTarget(d, conn, sync);
      if target.None? then d
      else d.(ptys := d.ptys[target.value := ResizePty(d.ptys[target.value], size)])
    case EndPush(conn) =>
      var i := d.pushing[conn].pty;
      d.(ptys := d.ptys[i := d.ptys[i].(subscribers := d.ptys[i].subscribers - 1)],
         pushing := d.pushing - {conn})
  }

  /** The connections in push mode on an instance. */
  function Watchers(d: Daemon, i: nat): set<ConnId> {
    set c | c in d.pushing && d.pushing[c].pty == i
  }

  ghost predicate Inv(d: Daemon) {
    Wired(d) && forall i :: i in d.ptys ==> d.ptys[i].subscribers == |Watchers(d, i)|
  }

  lemma SpawnKeepsCount(p: Pty, s: Size, child: Child)
    ensures SpawnPty(p, s, child).subscribers == p.subscribers
  {
  }

  lemma SubscribeCounts(d: Daemon, e: Event, i: nat)
    requires Inv(d) && Enabled(d, e) && e.Subscribe? && e.tab in d.tabs && i in d.ptys
    ensures Step(d, e).ptys[i].subscribers == |Watchers(Step(d, e), i)|
  {
    hide SpawnPty, ResizePty, Revived, ResizeTarget;
    SpawnKeepsCount(d.ptys[d.tabs[e.tab]], AtLeastOne(e.size), e.child);
    if i == d.tabs[e.tab] {
      assert Watchers(Step(d, e), i) == Watchers(d, i) + {e.conn};
    } else {
      assert Watchers(Step(d, e), i) == Watchers(d, i);
    }
  }

  lemma OneWatcherLess(d: Daemon, f: Daemon, conn: ConnId, i: nat)
    requires conn in d.pushing && f.pushing == d.pushing - {conn}
    ensures |Watchers(f, i)| == |Watchers(d, i)| - if d.pushing[conn].pty == i then 1 else 0
  {
    if d.pushing[conn].pty == i {
      assert Watchers(d, i) == Watchers(f, i) + {conn};
    } else {
      assert Watchers(f, i) == Watchers(d, i);
    }
  }

  lemma EndPushCounts(d: Daemon, e: Event, i: nat)
    requires Inv(d) && Enabled(d, e) && e.EndPush? && i in d.ptys
    ensures Step(d, e).ptys[i].subscribers == |Watchers(Step(d, e), i)|
  {
    hide SpawnPty, ResizePty, Revived, ResizeTarget, Watchers;
    OneWatcherLess(d, Step(d, e), e.conn, i);
  }

  lemma StepKeepsInv(d: Daemon, e: Event)
    requires Inv(d) && Enabled(d, e)
    ensures Inv(Step(d, e))
  {
    var f := Step(d, e);
    forall i | i in f.ptys ensures f.ptys[i].subscribers == |Watchers(f, i)| {
      if e.Subscribe? && e.tab in d.tabs {
        SubscribeCounts(d, e, i);
      } else if e.EndPush? {
        EndPushCounts(d, e, i);
      } else {
        assert Watchers(f, i) == Watchers(d, i);
        if i !in d.ptys { assert Watchers(d, i) == {}; }
      }
    }
  }

  /** Runs: every interleaving of events that the connections can produce. */
  ghost predicate Reaches(d: Daemon, es: seq<Event>, f: Daemon)
    decreases |es|
  {
    if es == [] then d == f
    else Wired(d) && Enabled(d, es[0]) && Reaches(Step(d, es[0]), es[1..], f)
  }

  /** In every reachable state each counter is the number of connections in push mode on its instance. */
  lemma {:induction false} CountsAreExact(d: Daemon, es: seq<Event>, f: Daemon)
    requires Inv(d) && Reaches(d, es, f)
    ensures Inv(f)
    decreases |es|
  {
    if es != [] {
      StepKeepsInv(d, es[0]);
      CountsAreExact(Step(d, es[0]), es[1..], f);
    }
  }

  // ---- the sizes asked for ----

  /** The size that an event asks of an instance. */
  function Asked(d: Daemon, e: Event, i: nat): Option<Size>
    requires Wired(d) && Enabled(d, e)
  {
    match e
    case StartSpawn(conn, size, _) => if d.spawning[conn].pty == i then Some((Max(size.0, 1), Max(size.1, 1))) else None
    case GetScreen(tab, size, _) => AskedOf(d, tab, i, (Max(size.0, 1), Max(size.1, 1)))
    case Subscribe(_, tab, size, _) => AskedOf(d, tab, i, (Max(size.0, 1), Max(size.1, 1)))
    case RequestResize(tab, size, sync) => if sync then AskedOf(d, tab, i, (Max(size.0, 1), Max(size.1, 1))) else None
    case PushResize(conn, size, sync) =>
      if sync && d.pushing[conn].tab in d.tabs && d.ptys[d.tabs[d.pushing[conn].tab]].subscribers <= 1 then
        AskedOf(d, d.pushing[conn].tab, i, size)
      else None
    case _ => None
  }

  function AskedOf(d: Daemon, tab: TabId, i: nat, s: Size): Option<Size> {
    if tab in d.tabs && d.tabs[tab] == i then Some(s) else None
  }

  /** The size last asked of an instance in a run, if any was. */
  ghost function LastAsked(d: Daemon, es: seq<Event>, i: nat): Option<Size>
    decreases |es|
  {
    if es == [] || !Wired(d) || !Enabled(d, es[0]) then None
    else
      var later := LastAsked(Step(d, es[0]), es[1..], i);
      if later.Some? then later else Asked(d, es[0], i)
  }

  /** The size on record; 24 by 80 is where an instance begins. */
  function OnRecord(d: Daemon, i: nat): Size { if i in d.ptys then d.ptys[i].requested else (24, 80) }

  lemma StepRecords(d: Daemon, e: Event, i: nat)
    requires Wired(d) && Enabled(d, e)
    ensures OnRecord(Step(d, e), i) == if Asked(d, e, i).Some? then Asked(d, e, i).value else OnRecord(d, i)
  {
  }

  lemma {:induction false} RecordsLastAsked(d: Daemon, es: seq<Event>, f: Daemon, i: nat)
    requires Reaches(d, es, f)
    ensures OnRecord(f, i) == if LastAsked(d, es, i).Some? then LastAsked(d, es, i).value else OnRecord(d, i)
    decreases |es|
  {
    hide Step, Wired, Enabled, Asked, OnRecord;
    if es != [] {
      StepRecords(d, es[0], i);
      RecordsLastAsked(Step(d, es[0]), es[1..], f, i);
    }
  }

  /** The events that look whether a child runs, the instance that they look at, and what they find. */
  function LooksAt(d: Daemon, e: Event): Option<(nat, Child)>
    requires Wired(d) && Enabled(d, e)
  {
    match e
    case StartSpawn(conn, _, child) => Some((d.spawning[conn].pty, child))
    case Touch(tab, child) => if tab in d.tabs then Some((d.tabs[tab], child)) else None
    case GetScreen(tab, _, child) => if tab in d.tabs then Some((d.tabs[tab], child)) else None
    case Subscribe(_, tab, _, child) => if tab in d.tabs then Some((d.tabs[tab], child)) else None
    case _ => None
  }

  lemma StartsAtRecord(d: Daemon, e: Event)
    requires Wired(d) && Enabled(d, e) && LooksAt(d, e).Some?
    ensures var (i, child) := LooksAt(d, e).value; var f := Step(d, e);
            && i in d.ptys && i in f.ptys
            && var size := f.ptys[i].requested;
               f.ptys[i].live == if d.ptys[i].live.Some? && !child.exited then d.ptys[i].live
                                 else if child.starts then Some((Max(size.0, 1), Max(size.1, 1))) else None
  {
  }

  /** In every run, a child that an event starts gets the size last asked of its instance, that event included, each
      side at least one, and 24 by 80 if none was. */
  lemma ChildStartsAtLastAsked(es: seq<Event>, d: Daemon, e: Event)
    requires Reaches(EMPTY, es, d) && Wired(d) && Enabled(d, e) && LooksAt(d, e).Some?
    requires var (i, child) := LooksAt(d, e).value; i in d.ptys && (d.ptys[i].live.None? || child.exited)
    ensures var (i, child) := LooksAt(d, e).value; var f := Step(d, e);
            var last := LastAsked(EMPTY, es + [e], i);
            var size := if last.Some? then last.value else (24, 80);
            i in f.ptys && f.ptys[i].live == if child.starts then Some((Max(size.0, 1), Max(size.1, 1))) else None
  {
    var (i, child) := LooksAt(d, e).value;
    AppendEvent(EMPTY, es, d, e);
    RecordsLastAsked(EMPTY, es + [e], Step(d, e), i);
    StartsAtRecord(d, e);
    hide Step, Reaches, LastAsked, Wired, Enabled, LooksAt;
  }

  /** So a push-mode resize of the instance a connection subscribed to goes through only when that connection is
      its sole subscriber, and never touches another instance than the tab's present one. */
  lemma OnlySoleSubscriberResizes(es: seq<Event>, d: Daemon, conn: ConnId, size: Size, sync: bool)
    requires Reaches(EMPTY, es, d) && conn in d.pushing
    ensures Inv(d)
    ensures var sub := d.pushing[conn]; var target := ResizeTarget(d, conn, sync);
            target == Some(sub.pty)
            <==> sync && sub.tab in d.tabs && d.tabs[sub.tab] == sub.pty && Watchers(d, sub.pty) == {conn}
    ensures var f := Step(d, PushResize(conn, size, sync));
            forall i :: i in d.ptys && f.ptys[i] != d.ptys[i] ==> ResizeTarget(d, conn, sync) == Some(i)
  {
    assert Inv(EMPTY);
    CountsAreExact(EMPTY, es, d);
    var i := d.pushing[conn].pty;
    assert conn in Watchers(d, i);
    if |Watchers(d, i)| <= 1 {
      OnlyMember(Watchers(d, i), conn);
    }
  }

  lemma OnlyMember(s: set<ConnId>, c: ConnId)
    requires c in s && |s| <= 1
    ensures s == {c}
  {
    assert |s - {c}| == 0;
  }

  // ---- two instances of one tab ----

  /** What connection `conn` does to spawn a tab, when nothing comes between. */
  function SpawnEvents(conn: ConnId, tab: TabId, id: nat, size: Size, child: Child): seq<Event> {
    [CheckSpawn(conn, tab), InsertSpawn(conn, id), StartSpawn(conn, size, child)]
  }

  /** A tab closed and spawned again while connection 1 draws it, then also drawn by connection 2. */
  function RespawnEvents(tab: TabId, size: Size, child: Child): seq<Event> {
    SpawnEvents(1, tab, 0, size, child) + [Subscribe(1, tab, size, child), ClosePty(tab)]
    + SpawnEvents(2, tab, 1, size, child) + [Subscribe(2, tab, size, child)]
  }

  /** Two connections that spawn a tab at the same time, the first drawing it before the second puts its own
      instance in. */
  function RaceEvents(tab: TabId, size: Size, child: Child): seq<Event> {
    [CheckSpawn(2, tab)] + SpawnEvents(1, tab, 0, size, child) + [Subscribe(1, tab, size, child)]
    + [InsertSpawn(2, 1), StartSpawn(2, size, child), Subscribe(2, tab, size, child)]
  }

  function First(size: Size, child: Child): Pty { SpawnPty(NEW_PTY, size, child) }

  function Again(size: Size, child: Child): Pty {
    SpawnPty(First(size, child), AtLeastOne(size), child).(subscribers := 1)
  }

  /** Just before the second connection subscribes. */
  function BothSpawned(tab: TabId, size: Size, child: Child): Daemon {
    Daemon(map[tab := 1], map[0 := Again(size, child), 1 := First(size, child)], map[1 := Subscription(tab, 0)], map[])
  }

  function TwoInstances(tab: TabId, size: Size, child: Child): Daemon {
    Daemon(map[tab := 1], map[0 := Again(size, child), 1 := Again(size, child)],
           map[1 := Subscription(tab, 0), 2 := Subscription(tab, 1)], map[])
  }

  lemma {:induction false} AppendEvent(d: Daemon, es: seq<Event>, f: Daemon, e: Event)
    requires Reaches(d, es, f) && Wired(f) && Enabled(f, e)
    ensures Reaches(d, es + [e], Step(f, e))
    decreases |es|
  {
    var all := es + [e];
    if es == [] {
      assert all[1..] == [];
    } else {
      assert all[1..] == es[1..] + [e];
      AppendEvent(Step(d, es[0]), es[1..], f, e);
    }
  }

  lemma Then(es: seq<Event>, d: Daemon, e: Event)
    requires Reaches(EMPTY, es, d) && Enabled(d, e)
    ensures Inv(d) && Reaches(EMPTY, es + [e], Step(d, e))
  {
    assert Inv(EMPTY);
    CountsAreExact(EMPTY, es, d);
    AppendEvent(EMPTY, es, d, e);
  }

  lemma ThenSpawn(es: seq<Event>, d: Daemon, conn: ConnId, tab: TabId, id: nat, size: Size, child: Child)
    requires Reaches(EMPTY, es, d) && tab !in d.tabs && id !in d.ptys && conn !in d.pushing && conn !in d.spawning
    ensures Reaches(EMPTY, es + SpawnEvents(conn, tab, id, size, child),
                    d.(tabs := d.tabs[tab := id], ptys := d.ptys[id := First(size, child)]))
  {
    hide Reaches, SpawnPty, Inv;
    var check, insert, start := CheckSpawn(conn, tab), InsertSpawn(conn, id), StartSpawn(conn, size, child);
    Then(es, d, check);
    var a := Step(d, check);
    Then(es + [check], a, insert);
    var b := Step(a, insert);
    Then(es + [check] + [insert], b, start);
    assert b.spawning - {conn} == d.spawning;
    assert Step(b, start).ptys == d.ptys[id := First(size, child)];
    assert es + [check] + [insert] + [start] == es + SpawnEvents(conn, tab, id, size, child);
  }

  lemma FirstCounts(size: Size, child: Child)
    ensures First(size, child).subscribers == SpawnPty(First(size, child), AtLeastOne(size), child).subscribers == 0
  {
  }

  lemma SecondSubscribes(es: seq<Event>, tab: TabId, size: Size, child: Child)
    requires Reaches(EMPTY, es, BothSpawned(tab, size, child))
    ensures Reaches(EMPTY, es + [Subscribe(2, tab, size, child)], TwoInstances(tab, size, child))
  {
    hide Reaches, SpawnPty, First, Inv;
    FirstCounts(size, child);
    var d, e := BothSpawned(tab, size, child), Subscribe(2, tab, size, child);
    Then(es, d, e);
    assert Step(d, e).ptys == TwoInstances(tab, size, child).ptys;
    assert Step(d, e).pushing == TwoInstances(tab, size, child).pushing;
  }

  /** Connection 1 spawns the tab and draws it, whatever connection 2 is at. */
  lemma FirstSubscribes(es: seq<Event>, d: Daemon, tab: TabId, size: Size, child: Child)
    requires Reaches(EMPTY, es, d) && d == Daemon(map[], map[], map[], d.spawning) && 1 !in d.spawning
    ensures Reaches(EMPTY, es + SpawnEvents(1, tab, 0, size, child) + [Subscribe(1, tab, size, child)],
                    Daemon(map[tab := 0], map[0 := Again(size, child)], map[1 := Subscription(tab, 0)], d.spawning))
  {
    hide Reaches, SpawnPty, First, Inv;
    FirstCounts(size, child);
    ThenSpawn(es, d, 1, tab, 0, size, child);
    var a, e := Daemon(map[tab := 0], map[0 := First(size, child)], map[], d.spawning), Subscribe(1, tab, size, child);
    assert d.ptys[0 := First(size, child)] == a.ptys && d.tabs[tab := 0] == a.tabs;
    Then(es + SpawnEvents(1, tab, 0, size, child), a, e);
    assert Step(a, e).ptys == map[0 := Again(size, child)];
    assert Step(a, e).pushing == map[1 := Subscription(tab, 0)];
  }

  lemma RespawnReached(tab: TabId, size: Size, child: Child)
    ensures Reaches(EMPTY, RespawnEvents(tab, size, child), TwoInstances(tab, size, child))
  {
    FirstCounts(size, child);
    assert Reaches(EMPTY, [], EMPTY);
    hide Reaches, SpawnPty, First, Again, SpawnEvents, Inv;
    FirstSubscribes([], EMPTY, tab, size, child);
    var one := [] + SpawnEvents(1, tab, 0, size, child) + [Subscribe(1, tab, size, child)];
    var a := Daemon(map[tab := 0], map[0 := Again(size, child)], map[1 := Subscription(tab, 0)], map[]);
    Then(one, a, ClosePty(tab));
    var closed := a.(tabs := map[]);
    assert Step(a, ClosePty(tab)) == closed by { assert a.tabs - {tab} == map[]; }
    var two := one + [ClosePty(tab)];
    ThenSpawn(two, closed, 2, tab, 1, size, child);
    assert closed.ptys[1 := First(size, child)] == BothSpawned(tab, size, child).ptys;
    assert closed.tabs[tab := 1] == BothSpawned(tab, size, child).tabs;
    var all := two + SpawnEvents(2, tab, 1, size, child);
    SecondSubscribes(all, tab, size, child);
    assert all + [Subscribe(2, tab, size, child)] == RespawnEvents(tab, size, child);
  }

  lemma RaceReached(tab: TabId, size: Size, child: Child)
    ensures Reaches(EMPTY, RaceEvents(tab, size, child), TwoInstances(tab, size, child))
  {
    assert Reaches(EMPTY, [], EMPTY);
    hide Reaches, SpawnPty, First, Again, SpawnEvents, Inv;
    var insert, start := InsertSpawn(2, 1), StartSpawn(2, size, child);
    Then([], EMPTY, CheckSpawn(2, tab));
    var checked := EMPTY.(spawning := map[2 := Checked(tab)]);
    assert [] + [CheckSpawn(2, tab)] == [CheckSpawn(2, tab)];
    FirstSubscribes([CheckSpawn(2, tab)], checked, tab, size, child);
    var one := [CheckSpawn(2, tab)] + SpawnEvents(1, tab, 0, size, child) + [Subscribe(1, tab, size, child)];
    var a := Daemon(map[tab := 0], map[0 := Again(size, child)], map[1 := Subscription(tab, 0)], checked.spawning);
    Then(one, a, insert);
    var b := Daemon(map[tab := 1], map[0 := Again(size, child), 1 := NEW_PTY], a.pushing, map[2 := Inserted(1)]);
    assert Step(a, insert) == b;
    Then(one + [insert], b, start);
    RaceStarts(tab, size, child, b);
    var all := one + [insert] + [start];
    SecondSubscribes(all, tab, size, child);
    assert all + [Subscribe(2, tab, size, child)] == RaceEvents(tab, size, child);
  }

  lemma RaceStarts(tab: TabId, size: Size, child: Child, b: Daemon)
    requires b == Daemon(map[tab := 1], map[0 := Again(size, child), 1 := NEW_PTY], map[1 := Subscription(tab, 0)],
                         map[2 := Inserted(1)])
    ensures Wired(b) && Enabled(b, StartSpawn(2, size, child))
    ensures Step(b, StartSpawn(2, size, child)) == BothSpawned(tab, size, child)
  {
    hide SpawnPty, Again;
    assert b.spawning - {2} == map[];
    assert Step(b, StartSpawn(2, size, child)).ptys == BothSpawned(tab, size, child).ptys;
  }

  /** The first connection is counted on an instance that the tab no longer names, so both connections may now resize
      the PTY of the tab: the guard protects the sole subscriber of an instance, not the sole viewer of a tab. */
  predicate BothMayResize(d: Daemon, tab: TabId)
    requires Wired(d)
  {
    && 1 in d.pushing && 2 in d.pushing && d.pushing[1].tab == d.pushing[2].tab == tab && tab in d.tabs
    && ResizeTarget(d, 1, true) == ResizeTarget(d, 2, true) == Some(d.tabs[tab])
    && Watchers(d, d.tabs[tab]) == {2}
  }

  lemma TwoInstancesEscape(tab: TabId, size: Size, child: Child)
    ensures Wired(TwoInstances(tab, size, child)) && BothMayResize(TwoInstances(tab, size, child), tab)
  {
    hide SpawnPty, First;
    var d := TwoInstances(tab, size, child);
    assert Watchers(d, 1) == {2};
  }

  /** A respawn leads there. */
  lemma RespawnEscapesTheCount(tab: TabId, size: Size, child: Child)
    ensures var d := TwoInstances(tab, size, child);
            Wired(d) && Reaches(EMPTY, RespawnEvents(tab, size, child), d) && BothMayResize(d, tab)
  {
    hide Reaches, TwoInstances, RespawnEvents, BothMayResize, Wired;
    RespawnReached(tab, size, child);
    TwoInstancesEscape(tab, size, child);
  }

  /** So do two connections that spawn the tab at the same time, since a spawn request looks for the tab and puts it
      in as two steps: the second instance takes the first one's place. */
  lemma SpawnRaceEscapesTheCount(tab: TabId, size: Size, child: Child)
    ensures var d := TwoInstances(tab, size, child);
            Wired(d) && Reaches(EMPTY, RaceEvents(tab, size, child), d) && BothMayResize(d, tab)
  {
    hide Reaches, TwoInstances, RaceEvents, BothMayResize, Wired;
    RaceReached(tab, size, child);
    TwoInstancesEscape(tab, size, child);
  }

  /** The connections that draw a tab, whichever of its instances they subscribed to. */
  function Viewers(d: Daemon, tab: TabId): set<ConnId> {
    set c | c in d.pushing && d.pushing[c].tab == tab
  }

  /** Only a tab's sole viewer may resize it exactly when it has no other viewers, or when at least two connections
      subscribed to its present instance, so that nobody may. */
  lemma SoleViewerResizesIff(es: seq<Event>, d: Daemon, tab: TabId)
    requires Reaches(EMPTY, es, d) && tab in d.tabs
    ensures Wired(d)
    ensures (forall c :: c in Viewers(d, tab) && ResizeTarget(d, c, true).Some? ==> Viewers(d, tab) == {c})
            <==> |Viewers(d, tab)| <= 1 || |Watchers(d, d.tabs[tab])| >= 2
  {
    assert Inv(EMPTY);
    CountsAreExact(EMPTY, es, d);
    var viewers := Viewers(d, tab);
    if |viewers| <= 1 {
      forall c | c in viewers ensures viewers == {c} {
        OnlyMember(viewers, c);
      }
    } else {
      var c :| c in viewers;
      assert |{c}| == 1;
    }
  }

  lemma Reached(d: Daemon)
    ensures Reaches(d, [], d)
  {
  }

  lemma Prepend(d: Daemon, e: Event, es: seq<Event>, f: Daemon)
    requires Wired(d) && Enabled(d, e) && Reaches(Step(d, e), es, f)
    ensures Reaches(d, [e] + es, f)
  {
    assert ([e] + es)[1..] == es;
  }
}
