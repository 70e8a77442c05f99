/** Jump labels and targets of src/client/jump.rs. */
module Jump {
  import opened Basics

  datatype Focus = Sidebar | Topbar | Content

  datatype Target = TabTarget(desk: nat, tab: nat) | DeskTarget(desk: nat)

  function LabelAt(i: nat): char
    requires i < 62
  {
    if i < 26 then ('a' as int + i) as char
    else if i < 52 then ('A' as int + (i - 26)) as char
    else ('0' as int + (i - 52)) as char
  }

  /** The source spells it out: the letters a to z, then A to Z, then the digits 0 to 9. */
  function JumpLabels(): (r: string)
    ensures |r| == 62 && forall i :: 0 <= i < 62 ==> r[i] == LabelAt(i)
  {
    seq(62, i requires 0 <= i < 62 => LabelAt(i))
  }

  function ToLower(c: char): char {
    if 'A' <= c <= 'Z' then ((c as int) + 32) as char else c
  }

  predicate Reserved(focus: Focus, c: char) {
    var key := ToLower(c);
    key == 'r' || key == 'q' || (focus.Content? && key == 'c')
  }

  function Unreserved(focus: Focus, cs: string): string {
    if cs == "" then "" else (if Reserved(focus, cs[0]) then "" else [cs[0]]) + Unreserved(focus, cs[1..])
  }

  function Labels(focus: Focus): string { Unreserved(focus, JumpLabels()) }

  predicate IsAlphanumeric(c: char) { 'a' <= c <= 'z' || 'A' <= c <= 'Z' || '0' <= c <= '9' }

  ghost predicate DistinctChars(cs: string) { forall i, j :: 0 <= i < j < |cs| ==> cs[i] != cs[j] }

  lemma {:induction false} UnreservedKeeps(focus: Focus, cs: string)
    requires DistinctChars(cs) && forall i :: 0 <= i < |cs| ==> IsAlphanumeric(cs[i])
    ensures DistinctChars(Unreserved(focus, cs))
    ensures forall c :: c in Unreserved(focus, cs) <==> c in cs && !Reserved(focus, c)
    ensures forall c :: c in Unreserved(focus, cs) ==> IsAlphanumeric(c)
  {
    if cs != "" {
      UnreservedKeeps(focus, cs[1..]);
      assert forall i :: 0 < i < |cs| ==> cs[i] == cs[1..][i - 1];
      assert cs == [cs[0]] + cs[1..];
    }
  }

  /** The labels are distinct alphanumeric keys, none of them reserved for the focus. */
  lemma LabelsAreUsable(focus: Focus)
    ensures DistinctChars(Labels(focus))
    ensures forall c :: c in Labels(focus) <==> c in JumpLabels() && !Reserved(focus, c)
    ensures forall c :: c in Labels(focus) ==> IsAlphanumeric(c)
  {
    UnreservedKeeps(focus, JumpLabels());
  }

  function Position(cs: string, c: char): (r: Option<nat>)
    ensures r.Some? ==> r.value < |cs| && cs[r.value] == c && c !in cs[..r.value]
    ensures r.None? ==> c !in cs
  {
    if cs == "" then None
    else if cs[0] == c then Some(0)
    else
      var tail := Position(cs[1..], c);
      assert cs == [cs[0]] + cs[1..];
      match tail
      case None => None
      case Some(i) => assert cs[..i + 1] == [cs[0]] + cs[1..][..i]; Some(i + 1)
  }

  lemma PositionOfLabel(focus: Focus, i: nat)
    requires i < |Labels(focus)|
    ensures Position(Labels(focus), Labels(focus)[i]) == Some(i)
  {
    LabelsAreUsable(focus);
  }

  // ---- visible desks ----

  /** `height` is that of the list with its border; an area not drawn yet shows every desk. */
  function VisibleDesks(desks: nat, height: nat, offset: nat): (r: seq<nat>)
    ensures forall i :: 0 <= i < |r| ==> r[i] == r[0] + i && r[i] < desks
    ensures desks > 0 ==> |r| > 0
  {
    var rows := if height < 2 then 0 else height - 2;
    if desks == 0 then []
    else if rows == 0 then seq(desks, i => i)
    else
      var start := if offset < desks - 1 then offset else desks - 1;
      var end := if start + rows < desks then start + rows else desks;
      seq(end - start, i => start + i)
  }

  /** The desks in the rows between the borders, from the list's offset on; all of them when there are no rows. */
  lemma VisibleIff(desks: nat, height: nat, offset: nat, d: nat)
    ensures var first := if offset < desks then offset else desks - 1;
            d in VisibleDesks(desks, height, offset) <==> d < desks && (height <= 2 || first <= d < first + height - 2)
  {
    var r := VisibleDesks(desks, height, offset);
    if desks > 0 && d < desks {
      var first := if height <= 2 then 0 else if offset < desks then offset else desks - 1;
      assert r[0] == first;
      if first <= d < first + |r| { assert r[d - first] == d; }
    }
  }

  // ---- targets ----

  /** Which slot the j-th tab and the j-th desk get: tabs first, desks first, or alternating from a tab until one
      kind runs out. */
  function TabSlot(focus: Focus, tabs: nat, desks: nat, j: nat): nat {
    match focus
    case Topbar => j
    case Sidebar => desks + j
    case Content => if j < Min(tabs, desks) then 2 * j else Min(tabs, desks) + j
  }

  function DeskSlot(focus: Focus, tabs: nat, desks: nat, j: nat): nat {
    match focus
    case Topbar => tabs + j
    case Sidebar => j
    case Content => if j < Min(tabs, desks) then 2 * j + 1 else Min(tabs, desks) + j
  }

  /** Whether slot `i` of the unbounded allocation holds a tab, and which one of its kind it holds. */
  function SlotKind(focus: Focus, tabs: nat, desks: nat, i: nat): (bool, nat) {
    var m := Min(tabs, desks);
    match focus
    case Topbar => if i < tabs then (true, i) else (false, i - tabs)
    case Sidebar => if i < desks then (false, i) else (true, i - desks)
    case Content => if i < 2 * m then (i % 2 == 0, i / 2) else (tabs > m, i - m)
  }

  lemma SlotsMatch(focus: Focus, tabs: nat, desks: nat, i: nat)
    requires i < tabs + desks
    ensures var (isTab, j) := SlotKind(focus, tabs, desks, i);
            if isTab then j < tabs && TabSlot(focus, tabs, desks, j) == i
            else j < desks && DeskSlot(focus, tabs, desks, j) == i
  {
  }

  lemma SlotOfTab(focus: Focus, tabs: nat, desks: nat, j: nat)
    requires j < tabs
    ensures TabSlot(focus, tabs, desks, j) < tabs + desks
    ensures SlotKind(focus, tabs, desks, TabSlot(focus, tabs, desks, j)) == (true, j)
    ensures forall k :: j < k ==> TabSlot(focus, tabs, desks, j) < TabSlot(focus, tabs, desks, k)
  {
  }

  lemma SlotOfDesk(focus: Focus, tabs: nat, desks: nat, j: nat)
    requires j < desks
    ensures DeskSlot(focus, tabs, desks, j) < tabs + desks
    ensures SlotKind(focus, tabs, desks, DeskSlot(focus, tabs, desks, j)) == (false, j)
    ensures forall k :: j < k ==> DeskSlot(focus, tabs, desks, j) < DeskSlot(focus, tabs, desks, k)
  {
  }

  function SlotTarget(focus: Focus, tabs: seq<nat>, desks: seq<nat>, task: nat, i: nat): Target
    requires i < |tabs| + |desks|
  {
    SlotsMatch(focus, |tabs|, |desks|, i);
    var (isTab, j) := SlotKind(focus, |tabs|, |desks|, i);
    if isTab then TabTarget(task, tabs[j]) else DeskTarget(desks[j])
  }

  function Targets(focus: Focus, maxLabels: nat, tabs: seq<nat>, desks: seq<nat>, task: nat): (r: seq<Target>)
    ensures |r| == Min(maxLabels, |tabs| + |desks|)
  {
    seq(Min(maxLabels, |tabs| + |desks|),
        i requires 0 <= i < |tabs| + |desks| => SlotTarget(focus, tabs, desks, task, i))
  }

  ghost predicate StartsTargets(some: seq<Target>, focus: Focus, maxLabels: nat, tabs: seq<nat>, desks: seq<nat>,
                                task: nat)
  {
    |some| <= Min(maxLabels, |tabs| + |desks|)
    && forall i :: 0 <= i < |some| ==> some[i] == SlotTarget(focus, tabs, desks, task, i)
  }

  method JumpTargets(focus: Focus, maxLabels: nat, tabs: seq<nat>, desks: seq<nat>, task: nat)
    returns (targets: seq<Target>)
    ensures targets == Targets(focus, maxLabels, tabs, desks, task)
  {
    targets := [];
    match focus
    case Topbar =>
      targets := PushTabs(targets, focus, maxLabels, tabs, desks, task);
      targets := PushDesks(targets, focus, maxLabels, tabs, desks, task);
    case Sidebar =>
      targets := PushDesks(targets, focus, maxLabels, tabs, desks, task);
      targets := PushTabs(targets, focus, maxLabels, tabs, desks, task);
    case Content =>
      targets := Interleave(maxLabels, tabs, desks, task);
  }

  method PushTabs(before: seq<Target>, focus: Focus, maxLabels: nat, tabs: seq<nat>, desks: seq<nat>, task: nat)
    returns (targets: seq<Target>)
    requires !focus.Content? && StartsTargets(before, focus, maxLabels, tabs, desks, task)
    requires |before| == if focus.Topbar? then 0 else Min(maxLabels, |desks|)
    ensures |targets| == if focus.Topbar? then Min(maxLabels, |tabs|) else Min(maxLabels, |tabs| + |desks|)
    ensures StartsTargets(targets, focus, maxLabels, tabs, desks, task)
  {
    targets := before;
    for k := 0 to |tabs|
      invariant |targets| == Min(maxLabels, k + if focus.Topbar? then 0 else |desks|)
      invariant StartsTargets(targets, focus, maxLabels, tabs, desks, task)
    {
      if |targets| >= maxLabels {
        break;
      }
      targets := targets + [TabTarget(task, tabs[k])];
    }
  }

  method PushDesks(before: seq<Target>, focus: Focus, maxLabels: nat, tabs: seq<nat>, desks: seq<nat>, task: nat)
    returns (targets: seq<Target>)
    requires !focus.Content? && StartsTargets(before, focus, maxLabels, tabs, desks, task)
    requires |before| == if focus.Sidebar? then 0 else Min(maxLabels, |tabs|)
    ensures |targets| == if focus.Sidebar? then Min(maxLabels, |desks|) else Min(maxLabels, |tabs| + |desks|)
    ensures StartsTargets(targets, focus, maxLabels, tabs, desks, task)
  {
    targets := before;
    for k := 0 to |desks|
      invariant |targets| == Min(maxLabels, k + if focus.Sidebar? then 0 else |tabs|)
      invariant StartsTargets(targets, focus, maxLabels, tabs, desks, task)
    {
      if |targets| >= maxLabels {
        break;
      }
      targets := targets + [DeskTarget(desks[k])];
    }
  }

  method Interleave(maxLabels: nat, tabs: seq<nat>, desks: seq<nat>, task: nat) returns (targets: seq<Target>)
    ensures targets == Targets(Content, maxLabels, tabs, desks, task)
  {
    targets := [];
    var ti, di := 0, 0;
    var takeTab := true;
    while |targets| < maxLabels && (ti < |tabs| || di < |desks|)
      invariant ti <= |tabs| && di <= |desks| && |targets| == ti + di <= maxLabels
      invariant takeTab == ((ti + di) % 2 == 0)
      invariant ti + di <= 2 * Min(|tabs|, |desks|) ==> di == (ti + di) / 2
      invariant ti + di > 2 * Min(|tabs|, |desks|) ==> di == |desks| || ti == |tabs|
      invariant (ti >= Min(|tabs|, |desks|) && di >= Min(|tabs|, |desks|)) || ti + di <= 2 * Min(|tabs|, |desks|)
      invariant StartsTargets(targets, Content, maxLabels, tabs, desks, task)
      decreases |tabs| - ti + |desks| - di
    {
      if takeTab {
        if ti < |tabs| {
          targets := targets + [TabTarget(task, tabs[ti])];
          ti := ti + 1;
        } else if di < |desks| {
          targets := targets + [DeskTarget(desks[di])];
          di := di + 1;
        }
      } else if di < |desks| {
        targets := targets + [DeskTarget(desks[di])];
        di := di + 1;
      } else if ti < |tabs| {
        targets := targets + [TabTarget(task, tabs[ti])];
        ti := ti + 1;
      }
      takeTab := !takeTab;
    }
  }

  /** The i-th target is the tab or desk whose slot is `i`; slots of a kind keep its order. */
  lemma TargetsKeepOrder(focus: Focus, maxLabels: nat, tabs: seq<nat>, desks: seq<nat>, task: nat, i: nat)
    ensures var ts, t, d := Targets(focus, maxLabels, tabs, desks, task), |tabs|, |desks|;
            && (i < t && TabSlot(focus, t, d, i) < |ts| ==> ts[TabSlot(focus, t, d, i)] == TabTarget(task, tabs[i]))
            && (i < d && DeskSlot(focus, t, d, i) < |ts| ==> ts[DeskSlot(focus, t, d, i)] == DeskTarget(desks[i]))
    ensures var t, d := |tabs|, |desks|;
            && (i < t ==> TabSlot(focus, t, d, i) < t + d && TabSlot(focus, t, d, i) < TabSlot(focus, t, d, i + 1))
            && (i < d ==> DeskSlot(focus, t, d, i) < t + d && DeskSlot(focus, t, d, i) < DeskSlot(focus, t, d, i + 1))
  {
    hide SlotKind, TabSlot, DeskSlot;
    if i < |tabs| { SlotOfTab(focus, |tabs|, |desks|, i); }
    if i < |desks| { SlotOfDesk(focus, |tabs|, |desks|, i); }
  }

  lemma TargetIsListed(focus: Focus, maxLabels: nat, tabs: seq<nat>, desks: seq<nat>, task: nat, i: nat)
    requires i < |Targets(focus, maxLabels, tabs, desks, task)|
    ensures var t := Targets(focus, maxLabels, tabs, desks, task)[i];
            if t.TabTarget? then t.desk == task && t.tab in tabs else t.desk in desks
  {
    SlotsMatch(focus, |tabs|, |desks|, i);
    assert Targets(focus, maxLabels, tabs, desks, task)[i] == SlotTarget(focus, tabs, desks, task, i);
  }

  /** Never more targets than labels, none twice, and all visible ones when they fit. */
  lemma TargetsAreSound(focus: Focus, maxLabels: nat, tabs: seq<nat>, desks: seq<nat>, task: nat)
    requires forall i, j :: 0 <= i < j < |tabs| ==> tabs[i] != tabs[j]
    requires forall i, j :: 0 <= i < j < |desks| ==> desks[i] != desks[j]
    ensures var ts := Targets(focus, maxLabels, tabs, desks, task);
            && |ts| <= maxLabels
            && (forall i, j :: 0 <= i < j < |ts| ==> ts[i] != ts[j])
            && (|tabs| + |desks| <= maxLabels ==>
                  (forall t :: t in tabs ==> TabTarget(task, t) in ts) && (forall d :: d in desks ==> DeskTarget(d) in ts))
  {
    hide SlotKind, TabSlot, DeskSlot;
    var ts := Targets(focus, maxLabels, tabs, desks, task);
    forall i, j | 0 <= i < j < |ts| ensures ts[i] != ts[j] {
      SlotsMatch(focus, |tabs|, |desks|, i);
      SlotsMatch(focus, |tabs|, |desks|, j);
      var (iTab, a) := SlotKind(focus, |tabs|, |desks|, i);
      var (jTab, b) := SlotKind(focus, |tabs|, |desks|, j);
      assert iTab != jTab || a != b;
    }
    if |tabs| + |desks| <= maxLabels {
      forall t | t in tabs ensures TabTarget(task, t) in ts {
        var j :| 0 <= j < |tabs| && tabs[j] == t;
        TargetsKeepOrder(focus, maxLabels, tabs, desks, task, j);
      }
      forall d | d in desks ensures DeskTarget(d) in ts {
        var j :| 0 <= j < |desks| && desks[j] == d;
        TargetsKeepOrder(focus, maxLabels, tabs, desks, task, j);
      }
    }
  }

  function CountTabs(ts: seq<Target>): nat {
    if ts == [] then 0 else CountTabs(ts[..|ts| - 1]) + if ts[|ts| - 1].TabTarget? then 1 else 0
  }

  /** In Content the first `n` targets hold as many tabs as desks, or one more, until a kind runs out. */
  lemma {:induction false} ContentIsBalanced(maxLabels: nat, tabs: seq<nat>, desks: seq<nat>, task: nat, n: nat)
    requires n <= |Targets(Content, maxLabels, tabs, desks, task)| && n <= 2 * Min(|tabs|, |desks|)
    ensures var c := CountTabs(Targets(Content, maxLabels, tabs, desks, task)[..n]); c == (n + 1) / 2
  {
    var ts := Targets(Content, maxLabels, tabs, desks, task);
    if n > 0 {
      ContentIsBalanced(maxLabels, tabs, desks, task, n - 1);
      assert ts[..n][..n - 1] == ts[..n - 1];
    }
  }
}
