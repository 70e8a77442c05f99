/** The client's workspace as a state machine over keys, main-loop passes and pastes: src/client/input.rs,
    src/client/app.rs, src/client/desk.rs and the loop of src/main.rs:381-569.  Every index that the source uses
    unchecked is a proof obligation here. */
module Workspace {
  import opened Basics
  import opened Keys
  import Jump
  import RenameEditor

  // ---- offices, desks and tabs ----

  datatype Tab = Tab(id: string, name: string)
  datatype Desk = Desk(name: string, tabs: seq<Tab>, activeTab: nat)
  datatype Office = Office(name: string, desks: seq<Desk>, activeDesk: nat)

  /** The offices, the current one, and the desk selected in the sidebar's list. */
  datatype Tree = Tree(offices: seq<Office>, currentOffice: nat, selected: Option<nat>)

  predicate GoodDesk(d: Desk) { d.activeTab < |d.tabs| }

  predicate GoodOffice(o: Office) {
    0 < |o.desks| && forall i :: 0 <= i < |o.desks| ==> GoodDesk(o.desks[i])
  }

  predicate GoodOffices(os: seq<Office>) { forall i :: 0 <= i < |os| ==> GoodOffice(os[i]) }

  /** Offices, desks and tabs are never empty and the current ones are in range; the list's selection is the
      current office's active desk. */
  predicate Core(t: Tree) {
    && t.currentOffice < |t.offices| && GoodOffices(t.offices)
    && t.selected == Some(t.offices[t.currentOffice].activeDesk)
    && t.offices[t.currentOffice].activeDesk < |t.offices[t.currentOffice].desks|
  }

  function CurOffice(t: Tree): Office
    requires t.currentOffice < |t.offices|
  {
    t.offices[t.currentOffice]
  }

  function Selected(t: Tree): nat { if t.selected.Some? then t.selected.value else 0 }

  function CurDesk(t: Tree): (d: Desk)
    requires Core(t)
    ensures GoodDesk(d)
  {
    CurOffice(t).desks[Selected(t)]
  }

  function ActiveTab(t: Tree): Tab
    requires Core(t)
  {
    CurDesk(t).tabs[CurDesk(t).activeTab]
  }

  function WithDesk(t: Tree, d: Desk): (r: Tree)
    requires Core(t) && GoodDesk(d)
    ensures Core(r) && CurDesk(r) == d
  {
    var o := CurOffice(t);
    t.(offices := t.offices[t.currentOffice := o.(desks := o.desks[Selected(t) := d])])
  }

  function RemoveAt<T>(xs: seq<T>, i: nat): seq<T>
    requires i < |xs|
  {
    xs[..i] + xs[i + 1..]
  }

  function Decimal(n: nat): string {
    (if n < 10 then "" else Decimal(n / 10)) + [('0' as int + n % 10) as char]
  }

  function NewDesk(name: string, id: string): Desk { Desk(name, [Tab(id, "Terminal 1")], 0) }

  function NewTab(d: Desk, id: string): (r: Desk)
    ensures GoodDesk(r)
  {
    d.(tabs := d.tabs + [Tab(id, "Terminal " + Decimal(|d.tabs| + 1))], activeTab := |d.tabs|)
  }

  function CloseTab(d: Desk): (r: Desk)
    requires GoodDesk(d)
    ensures GoodDesk(r)
  {
    if |d.tabs| <= 1 then d
    else
      var tabs := RemoveAt(d.tabs, d.activeTab);
      d.(tabs := tabs, activeTab := Min(d.activeTab, |tabs| - 1))
  }

  function ActivateTab(t: Tree, tab: nat): (r: Tree)
    requires Core(t) && tab < |CurDesk(t).tabs|
    ensures Core(r)
  {
    WithDesk(t, CurDesk(t).(activeTab := tab))
  }

  function SelectDesk(t: Tree, idx: nat): (r: Tree)
    requires GoodOffices(t.offices) && (t.offices != [] ==> t.currentOffice < |t.offices|)
    ensures t.offices != [] ==> Core(r)
  {
    if t.offices == [] then t.(selected := None)
    else
      var o := CurOffice(t);
      var i := Min(idx, |o.desks| - 1);
      t.(selected := Some(i), offices := t.offices[t.currentOffice := o.(activeDesk := i)])
  }

  function EnterOffice(t: Tree, idx: nat): (r: Tree)
    requires GoodOffices(t.offices) && idx < |t.offices|
    ensures Core(r)
  {
    SelectDesk(t.(currentOffice := idx), t.offices[idx].activeDesk)
  }

  function AddDesk(t: Tree, id: string): (r: Tree)
    requires Core(t)
    ensures Core(r)
  {
    var o := CurOffice(t);
    var n := |o.desks| + 1;
    var d := NewDesk("Desk " + Decimal(n), id);
    SelectDesk(t.(offices := t.offices[t.currentOffice := o.(desks := o.desks + [d])]), n - 1)
  }

  function RemoveDesk(t: Tree, idx: nat): (r: Tree)
    requires Core(t) && idx < |CurOffice(t).desks| && |CurOffice(t).desks| > 1
    ensures Core(r)
  {
    var o := CurOffice(t);
    var rest := RemoveAt(o.desks, idx);
    SelectDesk(t.(offices := t.offices[t.currentOffice := o.(desks := rest)]), Min(idx, |rest| - 1))
  }

  function RemoveOffice(t: Tree, idx: nat): (r: Tree)
    requires Core(t) && idx < |t.offices| && |t.offices| > 1
    ensures Core(r)
  {
    var rest := RemoveAt(t.offices, idx);
    EnterOffice(t.(offices := rest), if t.currentOffice >= |rest| then |rest| - 1 else t.currentOffice)
  }

  // ---- renaming ----

  predicate RenameInRange(t: Tree, target: RenameEditor.RenameTarget)
    requires Core(t)
  {
    match target
    case Desk(i) => i < |CurOffice(t).desks|
    case Tab(i, j) => i < |CurOffice(t).desks| && j < |CurOffice(t).desks[i].tabs|
    case Office(i) => i < |t.offices|
  }

  /** The characters with Unicode's White_Space property. */
  predicate IsWhitespace(c: char) {
    var n := c as int;
    || 0x09 <= n <= 0x0d || n == 0x20 || n == 0x85 || n == 0xa0 || n == 0x1680 || 0x2000 <= n <= 0x200a
    || n == 0x2028 || n == 0x2029 || n == 0x202f || n == 0x205f || n == 0x3000
  }

  function TrimStart(cs: string): string {
    if cs != "" && IsWhitespace(cs[0]) then TrimStart(cs[1..]) else cs
  }

  function TrimEnd(cs: string): string {
    if cs != "" && IsWhitespace(cs[|cs| - 1]) then TrimEnd(cs[..|cs| - 1]) else cs
  }

  function Trim(cs: string): string { TrimEnd(TrimStart(cs)) }

  function Renamed(t: Tree, target: RenameEditor.RenameTarget, name: string): (r: Tree)
    requires Core(t) && RenameInRange(t, target)
    ensures Core(r)
  {
    var o := CurOffice(t);
    match target
    case Desk(i) =>
      t.(offices := t.offices[t.currentOffice := o.(desks := o.desks[i := o.desks[i].(name := name)])])
    case Tab(i, j) =>
      var d := o.desks[i];
      var tabs := d.tabs[j := d.tabs[j].(name := name)];
      t.(offices := t.offices[t.currentOffice := o.(desks := o.desks[i := d.(tabs := tabs)])])
    case Office(i) => t.(offices := t.offices[i := t.offices[i].(name := name)])
  }

  // ---- the whole state ----

  datatype Renaming = Renaming(target: RenameEditor.RenameTarget, text: RenameEditor.Edit)
  datatype OfficeDelete = OfficeDelete(office: nat, input: string)

  /** The modes that intercept keys. */
  datatype Modes = Modes(copyMode: bool, deskDelete: Option<nat>, officeDelete: Option<OfficeDelete>,
                         selectorActive: bool, showSettings: bool, jumpMode: bool, rename: Option<Renaming>)

  /** What reaches the PTY of a tab; the bytes of keys and those of mouse reports are kept apart. */
  datatype PtyOp =
    | Sent(tab: string, bytes: seq<byte>)
    | Tracked(tab: string, report: seq<byte>)
    | Report(tab: string, gained: bool)
    | Scrolled(tab: string, delta: int)
    | Pasted(tab: string, text: string)
    | Spawned(tab: string)
    | Closed(tab: string)

  /** What the last draw left behind: the desk list's height and offset, and the tabs that have a hit area. */
  datatype Hits = Hits(listHeight: nat, listOffset: nat, tabIndices: seq<nat>)

  datatype State = State(
    tree: Tree, modes: Modes, focus: Jump.Focus, prevFocus: Jump.Focus, pendingEsc: Option<nat>,
    selectorIndex: Option<nat>, settingsSelected: nat, theme: nat, onboarding: bool, connected: bool,
    tabScroll: nat, hits: Hits, log: seq<PtyOp>)

  /** What a key handler reads from outside: the clock (nanoseconds), the tabs whose program asked for focus
      reports, and the identifier that the next new tab gets. */
  datatype Env = Env(now: nat, reporting: set<string>, freshId: string)

  datatype Outcome = Outcome(state: State, quit: bool)

  const THEMES := 13
  const ESC_WINDOW := 300_000_000

  /** The places in the tree that open dialogs hold. */
  predicate DialogsInRange(t: Tree, m: Modes)
    requires Core(t)
  {
    && (m.rename.Some? ==> RenameInRange(t, m.rename.value.target))
    && (m.deskDelete.Some? ==> m.deskDelete.value < |CurOffice(t).desks|)
  }

  /** What the keys of open dialogs need, except that committing a rename needs its target too. */
  predicate DialogsUsable(t: Tree, m: Modes) {
    && (m.rename.Some? ==> RenameEditor.InRange(m.rename.value.text))
    && (m.officeDelete.Some? ==> m.officeDelete.value.office < |t.offices|)
  }

  const NO_MODE := Modes(false, None, None, false, false, false, None)

  function One(b: bool): nat { if b then 1 else 0 }

  function OpenModes(m: Modes): nat {
    One(m.copyMode) + One(m.deskDelete.Some?) + One(m.officeDelete.Some?) + One(m.selectorActive)
    + One(m.showSettings) + One(m.jumpMode) + One(m.rename.Some?)
  }

  /** What every handler needs. */
  predicate Sound(s: State) {
    Core(s.tree) && DialogsUsable(s.tree, s.modes) && s.settingsSelected < THEMES
  }

  /** What keyboard runs keep. */
  predicate Valid(s: State) {
    && Sound(s) && DialogsInRange(s.tree, s.modes)
    && OpenModes(s.modes) <= 1
    && (s.pendingEsc.Some? ==> s.focus.Content? && s.modes == NO_MODE)
    && (s.onboarding ==> s.pendingEsc.None? && s.modes == NO_MODE)
  }

  function Log(s: State, op: PtyOp): State { s.(log := s.log + [op]) }

  /** Moves to another tab, whose PTY is spawned. */
  function Show(s: State, t: Tree): State
    requires Core(t)
  {
    s.(tree := t, log := s.log + [Spawned(ActiveTab(t).id)])
  }

  function Write(s: State, bytes: seq<byte>): State
    requires Core(s.tree)
  {
    Log(s, Sent(ActiveTab(s.tree).id, bytes))
  }

  function Scroll(s: State, delta: int): State
    requires Core(s.tree)
  {
    Log(s, Scrolled(ActiveTab(s.tree).id, delta))
  }

  /** Tells the program in a tab that it gained or lost focus, if it asked to be told. */
  function Told(log: seq<PtyOp>, focus: Jump.Focus, tab: string, gained: bool, env: Env): seq<PtyOp> {
    if focus.Content? && tab in env.reporting then log + [Report(tab, gained)] else log
  }

  function ReportFocus(s: State, gained: bool, env: Env): State
    requires Core(s.tree)
  {
    s.(log := Told(s.log, s.focus, ActiveTab(s.tree).id, gained, env))
  }

  function SwitchOffice(s: State, idx: nat): State
    requires GoodOffices(s.tree.offices)
  {
    if idx < |s.tree.offices| then Show(s, EnterOffice(s.tree, idx)).(tabScroll := 0) else s
  }

  function CloseAll(log: seq<PtyOp>, tabs: seq<Tab>): seq<PtyOp> {
    log + seq(|tabs|, i requires 0 <= i < |tabs| => Closed(tabs[i].id))
  }

  function CloseDeskAt(s: State, idx: nat): State
    requires Core(s.tree)
  {
    var desks := CurOffice(s.tree).desks;
    if |desks| <= 1 || idx >= |desks| then s
    else Show(s.(log := CloseAll(s.log, desks[idx].tabs)), RemoveDesk(s.tree, idx)).(tabScroll := 0)
  }

  function Clamp(i: int, max: nat): nat { if i < 0 then 0 else if i > max then max else i }

  function Nav(s: State, delta: int): State
    requires Core(s.tree)
  {
    var i := Clamp(Selected(s.tree) + delta, |CurOffice(s.tree).desks| - 1);
    var t := SelectDesk(s.tree, i);
    (if Selected(s.tree) != i then Show(s, t) else s.(tree := t)).(tabScroll := 0)
  }

  function RestartPty(s: State): State
    requires Core(s.tree)
  {
    Show(Log(s, Closed(ActiveTab(s.tree).id)), s.tree)
  }

  function Begin(target: RenameEditor.RenameTarget, name: string): Option<Renaming> {
    Some(Renaming(target, RenameEditor.Edit(name, |name|)))
  }

  function BeginRenameDesk(t: Tree, i: nat): Option<Renaming>
    requires Core(t) && i < |CurOffice(t).desks|
  {
    Begin(RenameEditor.Desk(i), CurOffice(t).desks[i].name)
  }

  function BeginRenameTab(t: Tree): Option<Renaming>
    requires Core(t)
  {
    Begin(RenameEditor.Tab(Selected(t), CurDesk(t).activeTab), ActiveTab(t).name)
  }

  function CommitRename(t: Tree, rename: Renaming): (r: Tree)
    requires Core(t) && (Trim(rename.text.chars) != "" ==> RenameInRange(t, rename.target))
    ensures Core(r)
  {
    var name := Trim(rename.text.chars);
    if name == "" then t else Renamed(t, rename.target, name)
  }

  // ---- jumping ----

  function JumpTargets(s: State): seq<Jump.Target>
    requires Core(s.tree)
  {
    Jump.Targets(s.focus, |Jump.Labels(s.focus)|, s.hits.tabIndices,
                 Jump.VisibleDesks(|CurOffice(s.tree).desks|, s.hits.listHeight, s.hits.listOffset), Selected(s.tree))
  }

  /** The target that a label stands for. */
  function Chosen(s: State, c: char): Option<Jump.Target>
    requires Core(s.tree)
  {
    var i := Jump.Position(Jump.Labels(s.focus), c);
    if i.Some? && i.value < |JumpTargets(s)| then Some(JumpTargets(s)[i.value]) else None
  }

  /** The label names a tab that the last draw showed but that the current desk does not have. */
  predicate Stale(s: State, c: char)
    requires Core(s.tree)
  {
    var t := Chosen(s, c);
    t.Some? && t.value.TabTarget? && t.value.tab >= |CurDesk(s.tree).tabs|
  }

  /** The tree after reaching a target; tab targets are always of the selected desk. */
  function Reached(t: Tree, target: Jump.Target): (r: Tree)
    requires Core(t) && (target.TabTarget? ==> target.tab < |CurDesk(t).tabs|)
    ensures Core(r)
  {
    match target
    case DeskTarget(d) => SelectDesk(t, d)
    case TabTarget(_, tab) => ActivateTab(t, tab)
  }

  /** From Content the focus stays there; from the side panels it goes to the panel of the target's kind. */
  function FocusOn(origin: Jump.Focus, target: Jump.Target): Jump.Focus {
    if origin.Content? then Jump.Content else if target.DeskTarget? then Jump.Sidebar else Jump.Topbar
  }

  function JumpTo(s: State, target: Jump.Target, env: Env): State
    requires Core(s.tree) && (target.TabTarget? ==> target.tab < |CurDesk(s.tree).tabs|)
  {
    var left := ReportFocus(s, false, env).(focus := FocusOn(s.focus, target));
    ReportFocus(Show(left, Reached(s.tree, target)), true, env)
  }

  function Jumped(s: State, c: char, env: Env): State
    requires Core(s.tree) && !Stale(s, c)
  {
    var target := Chosen(s, c);
    (if target.None? then s else JumpTo(s, target.value, env)).(modes := s.modes.(jumpMode := false))
  }

  // ---- keys, one function per mode, in the order in which the modes intercept them ----

  function CopyKey(s: State, k: Key): State
    requires Core(s.tree)
  {
    match k.code
    case Esc => s.(modes := s.modes.(copyMode := false))
    case Up => Scroll(s, 3)
    case Down => Scroll(s, -3)
    case PageUp => Scroll(s, 20)
    case PageDown => Scroll(s, -20)
    case Char(c) =>
      if c == 'q' then s.(modes := s.modes.(copyMode := false))
      else if c == 'k' then Scroll(s, 3)
      else if c == 'j' then Scroll(s, -3)
      else if c == 'g' then Scroll(s, 1_000_000)
      else if c == 'G' then Scroll(s, -1_000_000)
      else s
    case _ => s
  }

  function DeskDeleteKey(s: State, k: Key): State
    requires Core(s.tree) && s.modes.deskDelete.Some?
  {
    var closed := s.(modes := s.modes.(deskDelete := None));
    if k.code.Enter? || IsChar(k, 'y') || IsChar(k, 'Y') then CloseDeskAt(closed, s.modes.deskDelete.value)
    else if k.code.Esc? || IsChar(k, 'n') || IsChar(k, 'N') then closed
    else s
  }

  /** The confirmation text after a key. */
  function Retyped(input: string, k: Key): string {
    if k.code.Char? then input + [k.code.c]
    else if k.code.Backspace? && input != "" then input[..|input| - 1]
    else input
  }

  function OfficeDeleteKey(s: State, k: Key): State
    requires Core(s.tree) && s.modes.officeDelete.Some? && s.modes.officeDelete.value.office < |s.tree.offices|
  {
    var d := s.modes.officeDelete.value;
    if k.code.Esc? then s.(modes := s.modes.(officeDelete := None))
    else if k.code.Enter? then DeleteConfirmed(s, d).(modes := s.modes.(officeDelete := None))
    else s.(modes := s.modes.(officeDelete := Some(d.(input := Retyped(d.input, k)))))
  }

  function DeleteConfirmed(s: State, d: OfficeDelete): State
    requires Core(s.tree) && d.office < |s.tree.offices|
  {
    if d.input == s.tree.offices[d.office].name && |s.tree.offices| > 1 then
      Show(s, RemoveOffice(s.tree, d.office)).(tabScroll := 0)
    else s
  }

  function SelectorChar(s: State, c: char): State
    requires Core(s.tree)
  {
    var i := SelectorIndex(s);
    var n := |s.tree.offices|;
    var closed := s.modes.(selectorActive := false);
    if c == 'q' then s.(modes := closed)
    else if c == 'r' && i < n then
      s.(modes := closed.(rename := Begin(RenameEditor.Office(i), s.tree.offices[i].name)))
    else if c == 'd' && i < n && n > 1 then s.(modes := closed.(officeDelete := Some(OfficeDelete(i, ""))))
    else s
  }

  function SelectorIndex(s: State): nat { if s.selectorIndex.Some? then s.selectorIndex.value else 0 }

  function SelectorKey(s: State, k: Key): State
    requires Core(s.tree)
  {
    var i := SelectorIndex(s);
    var n := |s.tree.offices|;
    var closed := s.modes.(selectorActive := false);
    match k.code
    case Esc => s.(modes := closed)
    case Up => if i > 0 then s.(selectorIndex := Some(i - 1)) else s
    case Down => if i < n then s.(selectorIndex := Some(i + 1)) else s
    case Enter => if i < n then SwitchOffice(s, i).(modes := closed) else s.(modes := closed, onboarding := true)
    case Char(c) => SelectorChar(s, c)
    case _ => s
  }

  function SettingsKey(s: State, k: Key): State {
    var closed := s.(modes := s.modes.(showSettings := false));
    match k.code
    case Up => if s.settingsSelected > 0 then s.(settingsSelected := s.settingsSelected - 1) else s
    case Down => if s.settingsSelected + 1 < THEMES then s.(settingsSelected := s.settingsSelected + 1) else s
    case Enter => closed.(theme := s.settingsSelected)
    case Esc => closed
    case Char(c) => if c == 's' || c == 'q' then closed else s
    case _ => s
  }

  /** The keys of Jump Mode that are taken before the labels. */
  predicate JumpCommand(focus: Jump.Focus, c: char) {
    c == 'q' || c == 'Q' || c == 'r' || c == 'R' || (c == 'c' && focus.Content?)
  }

  function JumpCommandKey(s: State, c: char): State
    requires Core(s.tree)
  {
    var closed := s.modes.(jumpMode := false);
    if c == 'q' || c == 'Q' then s
    else if c == 'c' then s.(modes := closed.(copyMode := true))
    else match s.focus
      case Sidebar => s.(modes := closed.(rename := BeginRenameDesk(s.tree, Selected(s.tree))))
      case Topbar => s.(modes := closed.(rename := BeginRenameTab(s.tree)))
      case Content => RestartPty(s).(modes := closed)
  }

  function JumpKey(s: State, k: Key, env: Env): State
    requires Core(s.tree) && s.modes.jumpMode && !StaleHit(s, k)
  {
    var closed := s.(modes := s.modes.(jumpMode := false));
    match k.code
    case Char(c) =>
      if JumpCommand(s.focus, c) then JumpCommandKey(s, c) else if Jump.IsAlphanumeric(c) then Jumped(s, c, env) else s
    case Esc => closed
    case Left => if s.focus.Sidebar? then s else closed.(focus := Jump.Sidebar)
    case Down => if s.focus.Topbar? then closed.(focus := Jump.Content) else s
    case Right => if s.focus.Sidebar? then closed.(focus := Jump.Content) else s
    case Up => if s.focus.Topbar? then s else closed.(focus := Jump.Topbar)
    case _ => s
  }

  function EditOf(k: Key): Option<RenameEditor.EditOp> {
    match k.code
    case Backspace => Some(RenameEditor.Backspace)
    case Delete => Some(RenameEditor.Delete)
    case Left => Some(RenameEditor.MoveLeft)
    case Right => Some(RenameEditor.MoveRight)
    case Home => Some(RenameEditor.MoveHome)
    case End => Some(RenameEditor.MoveEnd)
    case Char(c) => if k.ctrl then None else Some(RenameEditor.Insert(c))
    case _ => None
  }

  /** The key commits a name to a place that does not exist. */
  predicate Misplaced(t: Tree, rename: Renaming, k: Key)
    requires Core(t)
  {
    k.code.Enter? && Trim(rename.text.chars) != "" && !RenameInRange(t, rename.target)
  }

  function RenameKey(s: State, k: Key): State
    requires Core(s.tree) && s.modes.rename.Some? && RenameEditor.InRange(s.modes.rename.value.text)
    requires !Misplaced(s.tree, s.modes.rename.value, k)
  {
    var r := s.modes.rename.value;
    var closed := s.(modes := s.modes.(rename := None));
    if k.code.Enter? then closed.(tree := CommitRename(s.tree, r))
    else if k.code.Esc? then closed
    else if EditOf(k).None? then s
    else s.(modes := s.modes.(rename := Some(r.(text := RenameEditor.Apply(r.text, EditOf(k).value)))))
  }

  function Elapsed(since: nat, now: nat): nat { if now < since then 0 else now - since }

  function FlushEsc(s: State): State
    requires Core(s.tree)
  {
    if s.pendingEsc.Some? then Write(s.(pendingEsc := None), ESC) else s
  }

  function EscKey(s: State, env: Env): State
    requires Core(s.tree)
  {
    if s.focus.Content? then
      if s.pendingEsc.Some? && Elapsed(s.pendingEsc.value, env.now) < ESC_WINDOW then
        s.(pendingEsc := None, modes := s.modes.(jumpMode := true))
      else FlushEsc(s).(pendingEsc := Some(env.now))
    else s.(modes := s.modes.(jumpMode := true))
  }

  function AltDigit(s: State, c: char, env: Env): State
    requires Core(s.tree) && '0' <= c <= '9'
  {
    var digit := c as int - '0' as int;
    var tab := if digit == 0 then 0 else digit - 1;
    if tab < |CurDesk(s.tree).tabs| then
      ReportFocus(Show(ReportFocus(s, false, env), ActivateTab(s.tree, tab)), true, env)
    else s
  }

  function SidebarChar(s: State, c: char, env: Env): State
    requires Core(s.tree)
  {
    if c == 'o' then s.(modes := s.modes.(selectorActive := true), selectorIndex := Some(s.tree.currentOffice))
    else if c == 'n' then Show(s, AddDesk(s.tree, env.freshId))
    else if c == 'x' then
      if |CurOffice(s.tree).desks| <= 1 then s else s.(modes := s.modes.(deskDelete := Some(Selected(s.tree))))
    else if c == 'r' || c == 'R' then s.(modes := s.modes.(rename := BeginRenameDesk(s.tree, Selected(s.tree))))
    else if c == 's' then s.(modes := s.modes.(showSettings := true))
    else s
  }

  function SidebarKey(s: State, k: Key, env: Env): State
    requires Core(s.tree)
  {
    match k.code
    case Up => Nav(s, -1)
    case Down => Nav(s, 1)
    case Enter => Show(s.(focus := Jump.Content), s.tree)
    case Char(c) => SidebarChar(s, c, env)
    case _ => s
  }

  function TopbarChar(s: State, c: char, env: Env): State
    requires Core(s.tree)
  {
    var d := CurDesk(s.tree);
    if c == 'n' then Show(s, WithDesk(s.tree, NewTab(d, env.freshId)))
    else if c == 'x' then
      var told := if |d.tabs| <= 1 then s else Log(s, Closed(ActiveTab(s.tree).id));
      Show(told, WithDesk(s.tree, CloseTab(d)))
    else if c == 'r' || c == 'R' then s.(modes := s.modes.(rename := BeginRenameTab(s.tree)))
    else s
  }

  function TopbarKey(s: State, k: Key, env: Env): State
    requires Core(s.tree)
  {
    var d := CurDesk(s.tree);
    match k.code
    case Left => if d.activeTab > 0 then Show(s, ActivateTab(s.tree, d.activeTab - 1)) else s
    case Right => if d.activeTab + 1 < |d.tabs| then Show(s, ActivateTab(s.tree, d.activeTab + 1)) else s
    case Enter => Show(s.(focus := Jump.Content), s.tree)
    case Char(c) => TopbarChar(s, c, env)
    case _ => s
  }

  function ContentKey(s: State, k: Key): State
    requires Core(s.tree)
  {
    if k.shift && k.code.PageUp? then Scroll(s, 5)
    else if k.shift && k.code.PageDown? then Scroll(s, -5)
    else if EncodeContentKey(k) != [] then Write(s, EncodeContentKey(k))
    else s
  }

  /** Keys that no mode intercepts. */
  function PlainKey(s: State, k: Key, env: Env): Outcome
    requires Core(s.tree)
  {
    if k.ctrl && IsChar(k, 'z') && !s.focus.Content? then Outcome(s, false)
    else if k.code.Esc? then Outcome(EscKey(s, env), false)
    else
      var f := if s.focus.Content? then FlushEsc(s) else s;
      if k.alt && IsDigit(k) then Outcome(AltDigit(f, k.code.c, env), false)
      else match s.focus
        case Sidebar => if IsChar(k, 'q') then Outcome(f, true) else Outcome(SidebarKey(f, k, env), false)
        case Topbar => if IsChar(k, 'q') then Outcome(f, true) else Outcome(TopbarKey(f, k, env), false)
        case Content => Outcome(ContentKey(f, k), false)
  }

  predicate EmergencyQuit(s: State, k: Key) {
    !s.connected && (IsChar(k, 'q') || IsChar(k, 'Q') || (k.ctrl && IsChar(k, 'c')))
  }

  predicate Ignored(s: State, k: Key) { (k.code.Esc? && k.repeated) || EmergencyQuit(s, k) }

  /** The key is a label of Jump Mode whose tab is gone. */
  predicate StaleHit(s: State, k: Key)
    requires Core(s.tree)
  {
    s.modes.jumpMode && k.code.Char? && !JumpCommand(s.focus, k.code.c) && Jump.IsAlphanumeric(k.code.c)
    && Stale(s, k.code.c)
  }

  /** The rename dialog, if it is the mode that gets the key, commits to a place that does not exist. */
  predicate StaleCommit(s: State, k: Key)
    requires Core(s.tree)
  {
    && s.modes.rename.Some? && s.modes == NO_MODE.(rename := s.modes.rename)
    && Misplaced(s.tree, s.modes.rename.value, k)
  }

  /** The two stale cases are the ones in which the source indexes out of range. */
  function HandleKey(s: State, k: Key, env: Env): Outcome
    requires Core(s.tree) && DialogsUsable(s.tree, s.modes) && !StaleHit(s, k) && !StaleCommit(s, k)
  {
    if k.code.Esc? && k.repeated then Outcome(s, false)
    else if EmergencyQuit(s, k) then Outcome(s, true)
    else if s.modes.copyMode then Outcome(CopyKey(s, k), false)
    else if s.modes.deskDelete.Some? then Outcome(DeskDeleteKey(s, k), false)
    else if s.modes.officeDelete.Some? then Outcome(OfficeDeleteKey(s, k), false)
    else if s.modes.selectorActive then Outcome(SelectorKey(s, k), false)
    else if s.modes.showSettings then Outcome(SettingsKey(s, k), false)
    else if s.modes.jumpMode then Outcome(JumpKey(s, k, env), IsChar(k, 'q') || IsChar(k, 'Q'))
    else if s.modes.rename.Some? then Outcome(RenameKey(s, k), false)
    else PlainKey(s, k, env)
  }

  // ---- the main loop around the keys ----

  type UsableOffice = o: Office | GoodOffice(o) witness Office("", [Desk("", [Tab("", "")], 0)], 0)

  /** What a draw decides: the list's height and offset, the first tab shown and how many are. */
  datatype Drawn = Drawn(listHeight: nat, listOffset: nat, tabScroll: nat, tabsShown: nat)

  datatype Event =
    | Press(key: Key, env: Env)
    | Pass(env: Env, connected: bool, drawn: Option<Drawn>)
    | Paste(text: string)
    | Onboarded(office: Option<UsableOffice>)

  function SyncFocus(s: State, env: Env): State
    requires Core(s.tree)
  {
    if s.prevFocus == s.focus then s
    else
      var crossed := s.prevFocus.Content? || s.focus.Content?;
      var id := ActiveTab(s.tree).id;
      (if crossed && id in env.reporting then Log(s, Report(id, s.focus.Content?)) else s).(prevFocus := s.focus)
  }

  function FlushTick(s: State, now: nat): State
    requires Core(s.tree)
  {
    if s.pendingEsc.Some? && Elapsed(s.pendingEsc.value, now) >= ESC_WINDOW then FlushEsc(s) else s
  }

  function Consecutive(from: nat, n: nat): (r: seq<nat>)
    ensures |r| == n && forall i :: 0 <= i < n ==> r[i] == from + i
  {
    seq(n, i => from + i)
  }

  /** The bar shows consecutive tabs from a scroll position at most the active tab. */
  function Draw(s: State, d: Drawn): State
    requires Core(s.tree)
  {
    if s.modes.copyMode then s.(hits := s.hits.(listHeight := 0, tabIndices := []))
    else
      var scroll := Min(d.tabScroll, CurDesk(s.tree).activeTab);
      var shown := Min(d.tabsShown, |CurDesk(s.tree).tabs| - scroll);
      s.(hits := Hits(d.listHeight, d.listOffset, Consecutive(scroll, shown)), tabScroll := scroll)
  }

  function MainPass(s: State, env: Env, connected: bool, drawn: Option<Drawn>): State
    requires Core(s.tree)
  {
    var ready := FlushTick(SyncFocus(s.(connected := connected), env), env.now);
    if drawn.Some? then Draw(ready, drawn.value) else ready
  }

  predicate Allowed(s: State, e: Event)
    requires Core(s.tree)
  {
    e.Press? && !s.onboarding ==> !StaleHit(s, e.key) && !StaleCommit(s, e.key)
  }

  function FinishOnboarding(s: State, office: Option<UsableOffice>): State
    requires Core(s.tree)
  {
    if !s.onboarding then s
    else if office.None? then s.(onboarding := false)
    else
      var offices := s.tree.offices + [office.value];
      SwitchOffice(s.(tree := s.tree.(offices := offices)), |offices| - 1).(onboarding := false)
  }

  /** While the onboarding screen is up, nothing reaches the workspace until it closes. */
  function Step(s: State, e: Event): State
    requires Sound(s) && Allowed(s, e)
  {
    match e
    case Press(k, env) => if s.onboarding then s else HandleKey(s, k, env).state
    case Pass(env, connected, drawn) => if s.onboarding then s else MainPass(s, env, connected, drawn)
    case Paste(text) => if !s.onboarding && s.focus.Content? then Log(s, Pasted(ActiveTab(s.tree).id, text)) else s
    case Onboarded(office) => FinishOnboarding(s, office)
  }

  // ---- starting up ----

  /** The saved workspace, with its current office and that office's active desk clamped; or a default one. */
  function Loaded(saved: Option<Tree>, freshId: string): Tree {
    var none := saved.None? || saved.value.offices == [];
    var offices := if none then [Office("Default", [NewDesk("Desk 1", freshId)], 0)] else saved.value.offices;
    var c := if none then 0 else Min(saved.value.currentOffice, |offices| - 1);
    var desks := |offices[c].desks|;
    var d := Min(offices[c].activeDesk, if desks == 0 then 0 else desks - 1);
    Tree(offices[c := offices[c].(activeDesk := d)], c, Some(d))
  }

  function Initial(saved: Option<Tree>, freshId: string, themeIndex: nat): State {
    State(Loaded(saved, freshId), NO_MODE, Jump.Sidebar, Jump.Sidebar, None, Some(0), themeIndex, themeIndex, false,
          false, 0, Hits(0, 0, []), [])
  }

  /** Nothing in the saved file is checked but the two clamped indices: the client starts in a valid state exactly
      when every saved office has a desk, and every desk's active tab is one of its tabs. */
  lemma StartsValidIff(saved: Option<Tree>, freshId: string, themeIndex: nat)
    requires themeIndex < THEMES
    ensures Valid(Initial(saved, freshId, themeIndex)) <==> saved.None? || GoodOffices(saved.value.offices)
  {
    var t := Loaded(saved, freshId);
    if saved.Some? && saved.value.offices != [] {
      var os := saved.value.offices;
      assert t.offices == os[t.currentOffice := os[t.currentOffice].(activeDesk := t.selected.value)];
      if GoodOffices(t.offices) {
        forall i | 0 <= i < |os| ensures GoodOffice(os[i]) {
          assert GoodOffice(t.offices[i]);
        }
      }
    }
  }

  /** The client as it enters its loop: the active tab of what was loaded has been spawned. */
  function Started(saved: Option<Tree>, freshId: string, themeIndex: nat): (r: State)
    requires themeIndex < THEMES && (saved.Some? ==> GoodOffices(saved.value.offices))
    ensures Valid(r)
  {
    StartsValidIff(saved, freshId, themeIndex);
    var s := Initial(saved, freshId, themeIndex);
    Show(s, s.tree)
  }
}
