/** `collect_descendants` of src/daemon/spawn.rs: a worklist search of the process tree without a visited set.
    It is a search of a tree only because a process has one parent and the root is not below itself. */
module ProcessTree {

  /** One readable /proc entry: a process and its parent. */
  datatype Entry = Entry(pid: nat, ppid: nat)

  ghost predicate OneParentEach(es: seq<Entry>) {
    forall i, j :: 0 <= i < j < |es| ==> es[i].pid != es[j].pid
  }

  ghost predicate IsChild(es: seq<Entry>, p: nat, c: nat) { Entry(c, p) in es }

  /** `p` lies `n` generations below `root`. */
  ghost predicate Below(es: seq<Entry>, root: nat, p: nat, n: nat)
    decreases n
  {
    if n == 0 then p == root
    else exists q :: IsChild(es, q, p) && Below(es, root, q, n - 1)
  }

  ghost predicate Descends(es: seq<Entry>, root: nat, p: nat) {
    exists n :: n > 0 && Below(es, root, p, n)
  }

  /** The children of `p`, in the order of the directory listing. */
  function ChildrenOf(es: seq<Entry>, p: nat): (kids: seq<nat>)
    ensures forall c :: c in kids <==> IsChild(es, p, c)
  {
    if es == [] then []
    else
      var init, e := es[..|es| - 1], es[|es| - 1];
      assert es == init + [e];
      ChildrenOf(init, p) + if e.ppid == p then [e.pid] else []
  }

  ghost predicate Distinct(s: seq<nat>) { forall i, j :: 0 <= i < j < |s| ==> s[i] != s[j] }

  lemma DistinctAppend(a: seq<nat>, b: seq<nat>)
    requires Distinct(a) && Distinct(b) && forall x :: x in b ==> x !in a
    ensures Distinct(a + b)
  {
    assert forall i :: 0 <= i < |b| ==> b[i] in b;
  }

  lemma {:induction false} ChildrenDistinct(es: seq<Entry>, p: nat)
    requires OneParentEach(es)
    ensures Distinct(ChildrenOf(es, p))
  {
    if es != [] {
      var init, e := es[..|es| - 1], es[|es| - 1];
      ChildrenDistinct(init, p);
      forall k | 0 <= k < |ChildrenOf(init, p)| ensures ChildrenOf(init, p)[k] != e.pid {
        assert IsChild(init, p, ChildrenOf(init, p)[k]);
      }
    }
  }

  method BuildChildren(es: seq<Entry>) returns (children: map<nat, seq<nat>>)
    ensures forall p :: (if p in children then children[p] else []) == ChildrenOf(es, p)
  {
    children := map[];
    for i := 0 to |es|
      invariant forall p :: (if p in children then children[p] else []) == ChildrenOf(es[..i], p)
    {
      assert es[..i + 1][..i] == es[..i];
      var e := es[i];
      children := children[e.ppid := (if e.ppid in children then children[e.ppid] else []) + [e.pid]];
    }
    assert es[..|es|] == es;
  }

  lemma BelowChild(es: seq<Entry>, root: nat, p: nat, c: nat, n: nat)
    requires Below(es, root, p, n) && IsChild(es, p, c)
    ensures Below(es, root, c, n + 1) && Descends(es, root, c)
  {
    assert IsChild(es, p, c) && Below(es, root, p, n + 1 - 1);
    assert Below(es, root, c, n + 1);
  }

  /** What has been visited: `done` is expanded, `stack` waits, `out` is everything found but the root. */
  ghost predicate Frontier(es: seq<Entry>, root: nat, done: set<nat>, stack: seq<nat>, out: seq<nat>) {
    && (forall x :: x in out || x == root <==> x in done || x in stack)
    && (forall x :: x in stack ==> x !in done)
    && Distinct(stack)
    && (forall x :: x in out ==> Descends(es, root, x))
    && (forall p, c :: IsChild(es, p, c) && c in out ==> p in done)
    && (forall p, c :: IsChild(es, p, c) && p in done ==> c in out)
  }

  lemma UniqueParent(es: seq<Entry>, p: nat, q: nat, c: nat)
    requires OneParentEach(es) && IsChild(es, p, c) && IsChild(es, q, c)
    ensures p == q
  {
  }

  lemma KidIsNew(es: seq<Entry>, root: nat, done: set<nat>, stack: seq<nat>, out: seq<nat>, c: nat)
    requires !Descends(es, root, root) && stack != [] && Frontier(es, root, done, stack, out)
    requires IsChild(es, stack[|stack| - 1], c)
    ensures Descends(es, root, c) && c !in out && c != root
  {
    var p := stack[|stack| - 1];
    if p == root {
      BelowChild(es, root, p, c, 0);
    } else {
      var d :| d > 0 && Below(es, root, p, d);
      BelowChild(es, root, p, c, d);
    }
  }

  lemma RestDistinct(s: seq<nat>)
    requires s != [] && Distinct(s)
    ensures Distinct(s[..|s| - 1])
  {
  }

  /** Expanding the top of the stack finds only new processes. */
  lemma ExpandKeepsFrontier(es: seq<Entry>, root: nat, done: set<nat>, stack: seq<nat>, out: seq<nat>)
    requires OneParentEach(es) && !Descends(es, root, root)
    requires stack != [] && Distinct(out) && Frontier(es, root, done, stack, out)
    ensures var n := |stack| - 1; var kids := ChildrenOf(es, stack[n]);
            Distinct(out + kids) && Frontier(es, root, done + {stack[n]}, stack[..n] + kids, out + kids)
  {
    var n := |stack| - 1;
    var p, rest := stack[n], stack[..n];
    var kids := ChildrenOf(es, p);
    assert p in stack && p !in rest;
    hide Descends, Below, Distinct;
    ChildrenDistinct(es, p);
    forall c | c in kids ensures Descends(es, root, c) && c !in out && c != root && c !in stack {
      KidIsNew(es, root, done, stack, out, c);
    }
    assert stack == rest + [p];
    assert Distinct(rest) by { RestDistinct(stack); }
    DistinctAppend(rest, kids);
    DistinctAppend(out, kids);
    forall q, c | IsChild(es, q, c) && c in out + kids ensures q in done + {p} {
      if c in kids { UniqueParent(es, p, q, c); }
    }
  }

  lemma {:induction false} ClosedUnderBelow(es: seq<Entry>, root: nat, out: seq<nat>, p: nat, n: nat)
    requires forall q, c :: IsChild(es, q, c) && (q == root || q in out) ==> c in out
    requires Below(es, root, p, n)
    ensures p == root || p in out
    ensures n > 0 ==> p in out
    decreases n
  {
    if n > 0 {
      var q :| IsChild(es, q, p) && Below(es, root, q, n - 1);
      ClosedUnderBelow(es, root, out, q, n - 1);
    }
  }

  lemma DrainedIsExact(es: seq<Entry>, root: nat, done: set<nat>, out: seq<nat>)
    requires Frontier(es, root, done, [], out)
    ensures forall p :: p in out <==> Descends(es, root, p)
  {
    forall p | Descends(es, root, p) ensures p in out {
      var n :| n > 0 && Below(es, root, p, n);
      ClosedUnderBelow(es, root, out, p, n);
    }
  }

  ghost function Listed(es: seq<Entry>, root: nat): set<nat> { {root} + set e | e in es :: e.pid }

  lemma TopIsNew(es: seq<Entry>, root: nat, done: set<nat>, stack: seq<nat>, out: seq<nat>)
    requires stack != [] && Frontier(es, root, done, stack, out)
    ensures stack[|stack| - 1] !in done && stack[|stack| - 1] in Listed(es, root)
  {
    var top := stack[|stack| - 1];
    assert top in stack;
    if top != root {
      var n :| n > 0 && Below(es, root, top, n);
    }
  }

  method PushAll(kids: seq<nat>, out0: seq<nat>, stack0: seq<nat>) returns (out: seq<nat>, stack: seq<nat>)
    ensures out == out0 + kids && stack == stack0 + kids
  {
    out, stack := out0, stack0;
    for j := 0 to |kids|
      invariant out == out0 + kids[..j] && stack == stack0 + kids[..j]
    {
      out := out + [kids[j]];
      stack := stack + [kids[j]];
    }
    assert kids[..|kids|] == kids;
  }

  method CollectDescendants(es: seq<Entry>, root: nat) returns (out: seq<nat>)
    requires OneParentEach(es) && !Descends(es, root, root)
    ensures Distinct(out)
    ensures forall p :: p in out <==> Descends(es, root, p)
  {
    var children := BuildChildren(es);
    out := [];
    var stack := [root];
    ghost var done: set<nat> := {};
    while stack != []
      invariant Distinct(out) && Frontier(es, root, done, stack, out) && done <= Listed(es, root)
      decreases |Listed(es, root) - done|
    {
      hide Frontier, Descends, OneParentEach, ChildrenOf, Listed, Distinct;
      ExpandKeepsFrontier(es, root, done, stack, out);
      TopIsNew(es, root, done, stack, out);
      var p := stack[|stack| - 1];
      ghost var found, rest := out, stack[..|stack| - 1];
      stack := stack[..|stack| - 1];
      if p in children {
        out, stack := PushAll(children[p], out, stack);
      }
      assert out == found + ChildrenOf(es, p) && stack == rest + ChildrenOf(es, p);
      assert Listed(es, root) - (done + {p}) < Listed(es, root) - done;
      done := done + {p};
    }
    DrainedIsExact(es, root, done, out);
  }

  // ---- why the root must not be below itself ----

  function Expand(es: seq<Entry>, stack: seq<nat>): seq<nat> {
    if stack == [] then [] else stack[..|stack| - 1] + ChildrenOf(es, stack[|stack| - 1])
  }

  /** The stack after `n` more iterations of the loop. */
  function StackAfter(es: seq<Entry>, stack: seq<nat>, n: nat): seq<nat>
    decreases n
  {
    if n == 0 then stack else StackAfter(es, Expand(es, stack), n - 1)
  }

  lemma {:induction false} BelowCompose(es: seq<Entry>, a: nat, b: nat, c: nat, m: nat, n: nat)
    requires Below(es, a, b, m) && Below(es, b, c, n)
    ensures Below(es, a, c, m + n)
    decreases n
  {
    if n > 0 {
      var q :| IsChild(es, q, c) && Below(es, b, q, n - 1);
      BelowCompose(es, a, b, q, m, n - 1);
    }
  }

  lemma {:induction false} FirstStep(es: seq<Entry>, p: nat, q: nat, n: nat) returns (c: nat)
    requires n > 0 && Below(es, p, q, n)
    ensures IsChild(es, p, c) && Below(es, c, q, n - 1)
    decreases n
  {
    var r :| IsChild(es, r, q) && Below(es, p, r, n - 1);
    if n == 1 {
      c := q;
    } else {
      c := FirstStep(es, p, r, n - 1);
    }
  }

  lemma CycleGoesOn(es: seq<Entry>, x: nat) returns (c: nat)
    requires Descends(es, x, x)
    ensures IsChild(es, x, c) && Descends(es, c, c)
  {
    var k :| k > 0 && Below(es, x, x, k);
    c := FirstStep(es, x, x, k);
    BelowChild(es, x, x, c, 0);
    BelowCompose(es, c, x, c, k - 1, 1);
  }

  lemma {:induction false} CycleWaits(es: seq<Entry>, stack: seq<nat>, x: nat, n: nat)
    requires x in stack && Descends(es, x, x)
    ensures StackAfter(es, stack, n) != []
    decreases n
  {
    hide Descends, ChildrenOf;
    if n > 0 {
      if x in stack[..|stack| - 1] {
        CycleWaits(es, Expand(es, stack), x, n - 1);
      } else {
        var c := CycleGoesOn(es, x);
        CycleWaits(es, Expand(es, stack), c, n - 1);
      }
    }
  }

  lemma {:induction false} Drains(es: seq<Entry>, root: nat, done: set<nat>, stack: seq<nat>, out: seq<nat>)
    requires OneParentEach(es) && !Descends(es, root, root)
    requires Distinct(out) && Frontier(es, root, done, stack, out) && done <= Listed(es, root)
    ensures exists n: nat :: StackAfter(es, stack, n) == []
    decreases |Listed(es, root) - done|
  {
    hide Frontier, Descends, OneParentEach, ChildrenOf, Listed, Distinct;
    if stack == [] {
      assert StackAfter(es, stack, 0) == [];
    } else {
      var top := stack[|stack| - 1];
      ExpandKeepsFrontier(es, root, done, stack, out);
      TopIsNew(es, root, done, stack, out);
      assert Listed(es, root) - (done + {top}) < Listed(es, root) - done;
      Drains(es, root, done + {top}, Expand(es, stack), out + ChildrenOf(es, top));
      var n: nat :| StackAfter(es, Expand(es, stack), n) == [];
      assert StackAfter(es, stack, n + 1) == [];
    }
  }

  /** The loop empties its stack exactly when the root is not below itself; a cycle, as a reused pid could
      make one, is expanded for ever. */
  lemma TerminatesIff(es: seq<Entry>, root: nat)
    requires OneParentEach(es)
    ensures (exists n: nat :: StackAfter(es, [root], n) == []) <==> !Descends(es, root, root)
  {
    if Descends(es, root, root) {
      forall n: nat ensures StackAfter(es, [root], n) != [] {
        CycleWaits(es, [root], root, n);
      }
    } else {
      Drains(es, root, {}, [root], []);
    }
  }
}
