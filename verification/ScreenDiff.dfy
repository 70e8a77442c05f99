/** The daemon's changed-line list (src/daemon/service.rs) and the worker's patch
    (src/providers/daemon_provider/worker.rs).  Line numbers travel as `u16`. */
module ScreenDiff {
  import opened Basics
  import opened Screens

  type Change = (nat, ScreenLine)

  /** Line `i` of the new screen, or the blank line that clears a removed one. */
  function NewLine(new_: seq<ScreenLine>, blank: ScreenLine, i: nat): ScreenLine {
    if i < |new_| then new_[i] else blank
  }

  predicate Differs(prev: seq<ScreenLine>, new_: seq<ScreenLine>, i: nat) {
    !(i < |prev| && i < |new_| && prev[i] == new_[i])
  }

  /** The changes among the first `n` line positions. */
  function Changes(prev: seq<ScreenLine>, new_: seq<ScreenLine>, blank: ScreenLine, n: nat): seq<Change> {
    if n == 0 then []
    else Changes(prev, new_, blank, n - 1) +
         if Differs(prev, new_, n - 1) then [((n - 1) % U16, NewLine(new_, blank, n - 1))] else []
  }

  function ChangedLines(prev: seq<ScreenLine>, new_: seq<ScreenLine>, blank: ScreenLine): seq<Change> {
    Changes(prev, new_, blank, Max(|prev|, |new_|))
  }

  method ComputeChanged(prev: seq<ScreenLine>, new_: seq<ScreenLine>, subCols: nat) returns (changed: seq<Change>)
    ensures changed == ChangedLines(prev, new_, BlankLine(subCols))
  {
    changed := [];
    var maxLines := if |new_| < |prev| then |prev| else |new_|;
    for i := 0 to maxLines
      invariant changed == Changes(prev, new_, BlankLine(subCols), i)
    {
      var newLine := if i < |new_| then Some(new_[i]) else None;
      var oldLine := if i < |prev| then Some(prev[i]) else None;
      if newLine != oldLine {
        changed := changed + [(i % U16, if newLine.Some? then newLine.value else BlankLine(subCols))];
      }
    }
  }

  function PatchOne(lines: seq<ScreenLine>, c: Change): seq<ScreenLine> {
    var grown := if c.0 < |lines| then lines else lines + Repeat(ScreenLine([]), c.0 + 1 - |lines|);
    grown[c.0 := c.1]
  }

  function Patch(lines: seq<ScreenLine>, cs: seq<Change>): seq<ScreenLine> {
    if cs == [] then lines else PatchOne(Patch(lines, cs[..|cs| - 1]), cs[|cs| - 1])
  }

  method ApplyChanged(lines0: seq<ScreenLine>, changed: seq<Change>) returns (lines: seq<ScreenLine>)
    ensures lines == Patch(lines0, changed)
  {
    lines := lines0;
    for k := 0 to |changed|
      invariant lines == Patch(lines0, changed[..k])
    {
      var idx := changed[k].0;
      if idx >= |lines| {
        lines := lines + Repeat(ScreenLine([]), idx + 1 - |lines|);
      }
      lines := lines[idx := changed[k].1];
      assert changed[..k + 1][..k] == changed[..k];
    }
    assert changed[..|changed|] == changed;
  }

  lemma PatchSnoc(lines: seq<ScreenLine>, cs: seq<Change>, c: Change)
    ensures Patch(lines, cs + [c]) == PatchOne(Patch(lines, cs), c)
  {
    assert (cs + [c])[..|cs|] == cs;
  }

  /** The new screen, with the removed lines blanked. */
  function Target(prev: seq<ScreenLine>, new_: seq<ScreenLine>, blank: ScreenLine): seq<ScreenLine> {
    new_ + Repeat(blank, if |new_| < |prev| then |prev| - |new_| else 0)
  }

  /** The first `n` lines patched, the others as they were. */
  function Half(t: seq<ScreenLine>, prev: seq<ScreenLine>, n: nat): seq<ScreenLine>
    requires n <= |t|
  {
    t[..n] + if n <= |prev| then prev[n..] else []
  }

  lemma HalfKeeps(t: seq<ScreenLine>, prev: seq<ScreenLine>, i: nat)
    requires i < |t| && i < |prev| && t[i] == prev[i]
    ensures Half(t, prev, i + 1) == Half(t, prev, i)
  {
    assert t[..i + 1] == t[..i] + [t[i]] && prev[i..] == [prev[i]] + prev[i + 1..];
  }

  lemma HalfPatches(t: seq<ScreenLine>, prev: seq<ScreenLine>, i: nat)
    requires i < |t|
    ensures PatchOne(Half(t, prev, i), (i, t[i])) == Half(t, prev, i + 1)
  {
    assert t[..i + 1] == t[..i] + [t[i]];
    PatchAtEnd(t[..i], if i <= |prev| then prev[i..] else [], t[i]);
  }

  lemma {:induction false} PatchPrefix(prev: seq<ScreenLine>, new_: seq<ScreenLine>, blank: ScreenLine, n: nat)
    requires n <= Max(|prev|, |new_|) <= U16
    ensures var t := Target(prev, new_, blank);
            n <= |t| && Patch(prev, Changes(prev, new_, blank, n)) == Half(t, prev, n)
  {
    var t := Target(prev, new_, blank);
    if n > 0 {
      hide Patch, PatchOne, Target, Half;
      var i := n - 1;
      PatchPrefix(prev, new_, blank, i);
      TargetLine(prev, new_, blank, i);
      if Differs(prev, new_, i) {
        PatchSnoc(prev, Changes(prev, new_, blank, i), (i, t[i]));
        HalfPatches(t, prev, i);
        assert Changes(prev, new_, blank, n) == Changes(prev, new_, blank, i) + [(i, t[i])];
      } else {
        HalfKeeps(t, prev, i);
        assert Changes(prev, new_, blank, n) == Changes(prev, new_, blank, i);
      }
    }
  }

  lemma TargetLine(prev: seq<ScreenLine>, new_: seq<ScreenLine>, blank: ScreenLine, i: nat)
    requires i < Max(|prev|, |new_|)
    ensures |Target(prev, new_, blank)| == Max(|prev|, |new_|)
    ensures Target(prev, new_, blank)[i] == NewLine(new_, blank, i)
    ensures !Differs(prev, new_, i) ==> prev[i] == NewLine(new_, blank, i)
  {
  }

  lemma PatchAtEnd(a: seq<ScreenLine>, b: seq<ScreenLine>, x: ScreenLine)
    ensures PatchOne(a + b, (|a|, x)) == a + [x] + if b == [] then [] else b[1..]
  {
    if b == [] {
      assert a + b == a;
    }
  }

  /** Patching the changed lines onto the previous ones gives the new screen, with a blank row for each line
      that the new screen no longer has. */
  lemma PatchInvertsDiff(prev: seq<ScreenLine>, new_: seq<ScreenLine>, blank: ScreenLine)
    requires Max(|prev|, |new_|) <= U16
    ensures Patch(prev, ChangedLines(prev, new_, blank)) == Target(prev, new_, blank)
  {
    hide Patch, Changes;
    var t, n := Target(prev, new_, blank), Max(|prev|, |new_|);
    PatchPrefix(prev, new_, blank, n);
    assert |t| == n && t[..n] == t;
    assert Half(t, prev, n) == t;
  }

  lemma {:induction false} NoChangesBelow(prev: seq<ScreenLine>, new_: seq<ScreenLine>, blank: ScreenLine, n: nat)
    ensures Changes(prev, new_, blank, n) == [] <==> forall i :: 0 <= i < n ==> !Differs(prev, new_, i)
  {
    if n > 0 { NoChangesBelow(prev, new_, blank, n - 1); }
  }

  /** The list is empty exactly when the two screens have the same lines. */
  lemma NoChangesIffEqual(prev: seq<ScreenLine>, new_: seq<ScreenLine>, blank: ScreenLine)
    ensures ChangedLines(prev, new_, blank) == [] <==> prev == new_
  {
    var n := Max(|prev|, |new_|);
    NoChangesBelow(prev, new_, blank, n);
    if |prev| != |new_| {
      assert Differs(prev, new_, n - 1);
    } else if prev != new_ {
      var i :| 0 <= i < n && prev[i] != new_[i];
      assert Differs(prev, new_, i);
    }
  }

  // ---- the 16-bit line number ----

  lemma {:induction false} OneChange(prev: seq<ScreenLine>, d: nat, x: ScreenLine, blank: ScreenLine, n: nat)
    requires d < |prev| && x != prev[d] && n <= |prev|
    ensures Changes(prev, prev[d := x], blank, n) == if d < n then [(d % U16, x)] else []
  {
    if n > 0 { OneChange(prev, d, x, blank, n - 1); }
  }

  /** A screen one line too long: a change in its last line is patched into line 0 instead. */
  lemma LongScreenWraps(prev: seq<ScreenLine>, x: ScreenLine, blank: ScreenLine)
    requires |prev| > U16 && x != prev[U16] && x != prev[0]
    ensures Patch(prev, ChangedLines(prev, prev[U16 := x], blank)) == prev[0 := x] != prev[U16 := x]
  {
    OneChange(prev, U16, x, blank, |prev|);
    PatchSnoc(prev, [], (0, x));
    assert prev[0 := x][0] != prev[U16 := x][0];
  }

  ghost predicate PatchesUpTo(n: nat) {
    forall prev: seq<ScreenLine>, new_: seq<ScreenLine>, blank: ScreenLine ::
      Max(|prev|, |new_|) <= n ==> Patch(prev, ChangedLines(prev, new_, blank)) == Target(prev, new_, blank)
  }

  /** So the pair is inverse on all screens of up to `n` lines exactly when `n` is at most 65536. */
  lemma LineLimitIsExact(n: nat)
    ensures PatchesUpTo(n) <==> n <= U16
  {
    if n <= U16 {
      forall prev: seq<ScreenLine>, new_: seq<ScreenLine>, blank: ScreenLine | Max(|prev|, |new_|) <= n
        ensures Patch(prev, ChangedLines(prev, new_, blank)) == Target(prev, new_, blank)
      {
        PatchInvertsDiff(prev, new_, blank);
      }
    } else {
      var blank, x := ScreenLine([]), BlankLine(1);
      var prev := Repeat(blank, U16 + 1);
      assert x.cells != [];
      LongScreenWraps(prev, x, blank);
      assert Target(prev, prev[U16 := x], blank) == prev[U16 := x];
      assert Max(|prev|, |prev[U16 := x]|) <= n;
    }
  }
}
