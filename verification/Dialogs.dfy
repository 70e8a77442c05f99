/** Typing into the rename dialog and into the confirmation of an office's deletion, as the client handles it key by
    key, src/client/input.rs:17-267.  The emergency exit of a client without its daemon comes first, so that a `q` in
    a name ends the program there. */
module Dialogs {
  import opened Basics
  import opened Keys
  import opened Workspace
  import opened MixedRuns
  import opened TreeLaws
  import RenameEditor

  /** Keys handled one after another, until one quits; nothing if one indexes out of range. */
  function PressAll(s: State, ks: seq<Key>, env: Env): (r: Option<Outcome>)
    requires Sound(s)
    ensures r.Some? ==> Sound(r.value.state)
  {
    if ks == [] then Some(Outcome(s, false))
    else
      var n := |ks| - 1;
      var before := PressAll(s, ks[..n], env);
      if before.None? || before.value.quit then before
      else if StaleHit(before.value.state, ks[n]) || StaleCommit(before.value.state, ks[n]) then None
      else
        HandleKeyKeeps(before.value.state, ks[n], env);
        Some(HandleKey(before.value.state, ks[n], env))
  }

  lemma PressOneMore(s: State, ks: seq<Key>, k: Key, env: Env)
    requires Sound(s) && PressAll(s, ks, env).Some?
    ensures var o := PressAll(s, ks, env).value;
            && (o.quit ==> PressAll(s, ks + [k], env) == Some(o))
            && (!o.quit && !StaleHit(o.state, k) && !StaleCommit(o.state, k) ==>
                  PressAll(s, ks + [k], env) == Some(HandleKey(o.state, k, env)))
  {
    assert (ks + [k])[..|ks|] == ks;
    hide Sound, HandleKey, StaleHit, StaleCommit;
  }

  /** The first key that quits, for want of a daemon. */
  function FirstQuit(s: State, ks: seq<Key>): (n: nat)
    ensures n <= |ks| && forall i :: 0 <= i < n ==> !EmergencyQuit(s, ks[i])
    ensures n < |ks| ==> EmergencyQuit(s, ks[n])
  {
    if ks == [] then 0
    else
      var n := FirstQuit(s, ks[..|ks| - 1]);
      if n < |ks| - 1 || EmergencyQuit(s, ks[|ks| - 1]) then n else |ks|
  }

  lemma FirstQuitSnoc(s: State, ks: seq<Key>, k: Key)
    ensures FirstQuit(s, ks + [k])
            == if FirstQuit(s, ks) < |ks| || EmergencyQuit(s, k) then FirstQuit(s, ks) else |ks| + 1
  {
    assert (ks + [k])[..|ks|] == ks;
  }

  // ---- the rename dialog ----

  ghost predicate InDialog(s: State) {
    && Sound(s) && InPlace(s) && s.modes.rename.Some? && s.modes == NO_MODE.(rename := s.modes.rename)
  }

  /** The dialog gets every key that is not ignored. */
  lemma DialogGetsTheKey(s: State, k: Key, env: Env)
    requires InDialog(s)
    ensures !StaleHit(s, k) && !StaleCommit(s, k)
    ensures HandleKey(s, k, env) == if k.code.Esc? && k.repeated then Outcome(s, false)
                                    else if EmergencyQuit(s, k) then Outcome(s, true)
                                    else Outcome(RenameKey(s, k), false)
  {
    hide Core, RenameInRange;
  }

  function EditsOf(ks: seq<Key>): seq<RenameEditor.EditOp> {
    if ks == [] then []
    else EditsOf(ks[..|ks| - 1]) + if EditOf(ks[|ks| - 1]).Some? then [EditOf(ks[|ks| - 1]).value] else []
  }

  predicate Edits(ks: seq<Key>) { forall i :: 0 <= i < |ks| ==> !ks[i].code.Enter? && !ks[i].code.Esc? }

  /** The dialog after a run of keys that neither commit nor cancel it: only the text changes, and it is the
      reference editor's text after the same run. */
  function Retouched(s: State, ks: seq<Key>): (r: State)
    requires Core(s.tree) && DialogsUsable(s.tree, s.modes) && s.modes.rename.Some? && Edits(ks)
    ensures var d := s.modes.rename.value;
            r == s.(modes := s.modes.(rename := Some(d.(text := RenameEditor.ApplyAll(d.text, EditsOf(ks))))))
  {
    if ks == [] then s
    else
      var d, n := s.modes.rename.value, |ks| - 1;
      ApplyAllSnoc(d.text, EditsOf(ks[..n]), EditOf(ks[n]));
      RenameKey(Retouched(s, ks[..n]), ks[n])
  }

  lemma ApplyAllSnoc(e: RenameEditor.Edit, ops: seq<RenameEditor.EditOp>, op: Option<RenameEditor.EditOp>)
    requires RenameEditor.InRange(e)
    ensures RenameEditor.ApplyAll(e, ops + if op.Some? then [op.value] else [])
            == if op.Some? then RenameEditor.Apply(RenameEditor.ApplyAll(e, ops), op.value)
               else RenameEditor.ApplyAll(e, ops)
  {
    if op.Some? {
      assert (ops + [op.value])[..|ops|] == ops;
    } else {
      assert ops + [] == ops;
    }
  }

  function CharKeys(text: string): seq<Key> { seq(|text|, i requires 0 <= i < |text| => Bare(Char(text[i]))) }

  lemma {:induction false} CharKeysInsert(text: string)
    ensures EditsOf(CharKeys(text))
            == seq(|text|, i requires 0 <= i < |text| => RenameEditor.Insert(text[i]))
  {
    if text != "" {
      var n := |text| - 1;
      CharKeysInsert(text[..n]);
      assert CharKeys(text)[..n] == CharKeys(text[..n]);
    }
  }

  lemma RetouchedInDialog(s: State, ks: seq<Key>)
    requires InDialog(s) && Edits(ks)
    ensures InDialog(Retouched(s, ks))
  {
    hide Core, RenameInRange, RenameEditor.ApplyAll, EditsOf;
  }

  lemma DialogTakesOneMore(s: State, ks: seq<Key>, k: Key, env: Env)
    requires InDialog(s) && Edits(ks + [k])
    ensures Edits(ks) && !StaleHit(Retouched(s, ks), k) && !StaleCommit(Retouched(s, ks), k)
    ensures HandleKey(Retouched(s, ks), k, env)
            == if EmergencyQuit(s, k) then Outcome(Retouched(s, ks), true) else Outcome(Retouched(s, ks + [k]), false)
  {
    assert (ks + [k])[|ks|] == k;
    assert (ks + [k])[..|ks|] == ks;
    RetouchedInDialog(s, ks);
    hide InDialog, RenameEditor.ApplyAll, EditsOf;
    DialogGetsTheKey(Retouched(s, ks), k, env);
  }

  lemma PrefixOfSnoc(ks: seq<Key>, k: Key, n: nat)
    requires n <= |ks|
    ensures (ks + [k])[..n] == ks[..n]
    ensures ks[..|ks|] == ks && (ks + [k])[..|ks| + 1] == ks + [k]
  {
  }

  /** Over any run of keys that neither commit nor cancel, the client quits exactly when one of them is the emergency
      exit; up to there, only the dialog's text changes, and it is the reference editor's. */
  lemma {:induction false} DialogEdits(s: State, ks: seq<Key>, env: Env)
    requires InDialog(s) && Edits(ks)
    ensures var n := FirstQuit(s, ks);
            PressAll(s, ks, env) == Some(Outcome(Retouched(s, ks[..n]), n < |ks|))
  {
    if ks == [] {
      assert ks[..0] == [];
    } else {
      hide PressAll, FirstQuit, HandleKey, EmergencyQuit, StaleHit, StaleCommit, Sound, InPlace, Retouched, Edits, NO_MODE;
      var init, k := ks[..|ks| - 1], ks[|ks| - 1];
      assert ks == init + [k];
      DialogTakesOneMore(s, init, k, env);
      DialogEdits(s, init, env);
      FirstQuitSnoc(s, init, k);
      PrefixOfSnoc(init, k, FirstQuit(s, init));
      PressOneMore(s, init, k, env);
    }
  }

  // ---- which key makes which edit ----

  function WithText(s: State, e: RenameEditor.Edit): State
    requires s.modes.rename.Some?
  {
    s.(modes := s.modes.(rename := Some(s.modes.rename.value.(text := e))))
  }

  lemma DialogApplies(s: State, code: KeyCode, env: Env)
    requires InDialog(s) && !code.Enter? && !code.Esc? && EditOf(Bare(code)).Some? && !EmergencyQuit(s, Bare(code))
    ensures HandleKey(s, Bare(code), env)
            == Outcome(WithText(s, RenameEditor.Apply(s.modes.rename.value.text, EditOf(Bare(code)).value)), false)
  {
    hide InDialog, EditOf;
    DialogGetsTheKey(s, Bare(code), env);
  }

  /** The keys around a character, in a dialog that has it just before or just after the cursor. */
  lemma KeysAroundCursor(s: State, a: string, c: char, b: string, env: Env)
    requires InDialog(s)
    ensures s.modes.rename.value.text == RenameEditor.Edit(a + [c] + b, |a| + 1) ==>
              && HandleKey(s, Bare(Backspace), env).state == WithText(s, RenameEditor.Edit(a + b, |a|))
              && HandleKey(s, Bare(Left), env).state == WithText(s, RenameEditor.Edit(a + [c] + b, |a|))
    ensures s.modes.rename.value.text == RenameEditor.Edit(a + [c] + b, |a|) ==>
              && HandleKey(s, Bare(Delete), env).state == WithText(s, RenameEditor.Edit(a + b, |a|))
              && HandleKey(s, Bare(Right), env).state == WithText(s, RenameEditor.Edit(a + [c] + b, |a| + 1))
    ensures s.modes.rename.value.text == RenameEditor.Edit(a + b, |a|) && !EmergencyQuit(s, Bare(Char(c))) ==>
              HandleKey(s, Bare(Char(c)), env).state == WithText(s, RenameEditor.Edit(a + [c] + b, |a| + 1))
  {
    assert InDialog(s) ==> s.modes.rename.Some?;
    RenameEditor.EditsAround(a, c, b);
    assert a + ([c] + b) == a + [c] + b;
    hide InDialog, RenameEditor.Apply;
    DialogApplies(s, Backspace, env);
    DialogApplies(s, Left, env);
    DialogApplies(s, Delete, env);
    DialogApplies(s, Right, env);
    if !EmergencyQuit(s, Bare(Char(c))) { DialogApplies(s, Char(c), env); }
  }

  /** Home and End. */
  lemma KeysToTheEnds(s: State, env: Env)
    requires InDialog(s)
    ensures var e := s.modes.rename.value.text;
            && HandleKey(s, Bare(Home), env).state == WithText(s, e.(cursor := 0))
            && HandleKey(s, Bare(End), env).state == WithText(s, e.(cursor := |e.chars|))
  {
    assert s.modes.rename.Some? && RenameEditor.InRange(s.modes.rename.value.text);
    RenameEditor.EditsAtTheEnds(s.modes.rename.value.text);
    hide InDialog, HandleKey, RenameEditor.Apply;
    DialogApplies(s, Home, env);
    DialogApplies(s, End, env);
  }

  /** The keys that do nothing at either end. */
  lemma KeysAtTheEnds(s: State, env: Env)
    requires InDialog(s)
    ensures var e := s.modes.rename.value.text;
            && (e.cursor == 0 ==>
                  HandleKey(s, Bare(Backspace), env).state == HandleKey(s, Bare(Left), env).state == s)
            && (e.cursor == |e.chars| ==>
                  HandleKey(s, Bare(Delete), env).state == HandleKey(s, Bare(Right), env).state == s)
  {
    assert s.modes.rename.Some? && RenameEditor.InRange(s.modes.rename.value.text);
    RenameEditor.EditsAtTheEnds(s.modes.rename.value.text);
    hide InDialog, HandleKey, RenameEditor.Apply;
    DialogApplies(s, Backspace, env);
    DialogApplies(s, Left, env);
    DialogApplies(s, Delete, env);
    DialogApplies(s, Right, env);
  }

  /** Without its daemon the client quits on these characters. */
  predicate Quits(s: State, text: string) { !s.connected && ('q' in text || 'Q' in text) }

  lemma QuitsIff(s: State, text: string)
    ensures FirstQuit(s, CharKeys(text)) < |text| <==> Quits(s, text)
  {
    var ks := CharKeys(text);
    var n := FirstQuit(s, ks);
    if n < |text| {
      assert ks[n] == Bare(Char(text[n])) && text[n] in text;
    } else if Quits(s, text) {
      var i :| 0 <= i < |text| && (text[i] == 'q' || text[i] == 'Q');
      assert ks[i] == Bare(Char(text[i])) && EmergencyQuit(s, ks[i]);
    }
  }

  /** A text, and as many backspaces. */
  function TypeAndErase(text: string): seq<Key> { CharKeys(text) + Repeat(Bare(Backspace), |text|) }

  lemma {:induction false} EraseEdits(ks: seq<Key>, n: nat)
    ensures EditsOf(ks + Repeat(Bare(Backspace), n)) == EditsOf(ks) + Repeat(RenameEditor.Backspace, n)
  {
    var all := ks + Repeat(Bare(Backspace), n);
    if n == 0 {
      assert all == ks;
    } else {
      assert all[..|all| - 1] == ks + Repeat(Bare(Backspace), n - 1);
      EraseEdits(ks, n - 1);
      assert Repeat(RenameEditor.Backspace, n - 1) + [RenameEditor.Backspace] == Repeat(RenameEditor.Backspace, n);
    }
  }

  lemma {:induction false} ApplyAllAppend(e: RenameEditor.Edit, a: seq<RenameEditor.EditOp>, b: seq<RenameEditor.EditOp>)
    requires RenameEditor.InRange(e)
    ensures RenameEditor.ApplyAll(e, a + b) == RenameEditor.ApplyAll(RenameEditor.ApplyAll(e, a), b)
    decreases |b|
  {
    if b == [] {
      assert a + b == a;
    } else {
      assert (a + b)[..|a + b| - 1] == a + b[..|b| - 1];
      ApplyAllAppend(e, a, b[..|b| - 1]);
    }
  }

  lemma TypedAndErased(e: RenameEditor.Edit, text: string)
    requires RenameEditor.InRange(e)
    ensures RenameEditor.ApplyAll(e, EditsOf(TypeAndErase(text))) == e
  {
    hide RenameEditor.ApplyAll, RenameEditor.Apply, EditsOf;
    var a, b := e.chars[..e.cursor], e.chars[e.cursor..];
    assert a + b == e.chars;
    CharKeysInsert(text);
    EraseEdits(CharKeys(text), |text|);
    ApplyAllAppend(e, EditsOf(CharKeys(text)), Repeat(RenameEditor.Backspace, |text|));
    RenameEditor.TypingInserts(e, text);
    assert a + text + b == (a + text) + b;
    RenameEditor.ErasesText(a, text, b);
  }

  /** Typing a text and erasing it again leaves everything as it was, exactly when the client does not quit on the way. */
  lemma TypingAndErasingIff(s: State, text: string, env: Env)
    requires InDialog(s)
    ensures PressAll(s, TypeAndErase(text), env) == Some(Outcome(s, false)) <==> !Quits(s, text)
  {
    var ks := TypeAndErase(text);
    assert Edits(ks) && s.modes.rename.Some?;
    DialogEdits(s, ks, env);
    ErasingQuitsIff(s, text);
    if !Quits(s, text) {
      assert ks[..|ks|] == ks;
      TypedAndErased(s.modes.rename.value.text, text);
      hide InDialog, PressAll, FirstQuit, TypeAndErase, Quits;
    }
  }

  lemma ErasingQuitsIff(s: State, text: string)
    ensures FirstQuit(s, TypeAndErase(text)) < |TypeAndErase(text)| <==> Quits(s, text)
  {
    var ks := TypeAndErase(text);
    var n := FirstQuit(s, ks);
    if n < |ks| {
      assert n < |text| && ks[n] == Bare(Char(text[n])) && text[n] in text;
    } else if Quits(s, text) {
      var i :| 0 <= i < |text| && (text[i] == 'q' || text[i] == 'Q');
      assert ks[i] == Bare(Char(text[i])) && EmergencyQuit(s, ks[i]);
    }
  }

  lemma TypedIntoDialog(s: State, target: RenameEditor.RenameTarget, name: string, text: string)
    requires Core(s.tree) && RenameInRange(s.tree, target) && s.modes == NO_MODE.(rename := Begin(target, name))
    ensures var r := RenameKey(Retouched(s, CharKeys(text)), Bare(Enter));
            && r.modes == NO_MODE && Core(r.tree) && RenameInRange(r.tree, target)
            && NameOf(r.tree, target)
               == if Trim(name + text) == "" then NameOf(s.tree, target) else Trim(name + text)
  {
    var e := RenameEditor.Edit(name, |name|);
    CharKeysInsert(text);
    RenameEditor.TypingInserts(e, text);
    var all := RenameEditor.Edit(name + text, |name| + |text|);
    assert name[..|name|] + text + name[|name|..] == name + text;
    RenamingSetsOneName(s.tree, Workspace.Renaming(target, all), target);
    hide Core, RenameInRange, NameOf, Trim, CommitRename, EditsOf, RenameEditor.ApplyAll;
  }

  /** Opening the dialog on a name, typing a text and pressing Enter sets the trimmed name and text together, exactly
      when the client has its daemon or the text has no `q`; otherwise it quits and renames nothing. */
  lemma TypingExtendsTheNameIff(s: State, target: RenameEditor.RenameTarget, name: string, text: string, env: Env)
    requires Sound(s) && RenameInRange(s.tree, target) && s.modes == NO_MODE.(rename := Begin(target, name))
    ensures var p := PressAll(s, CharKeys(text) + [Bare(Enter)], env);
            && p.Some? && Core(p.value.state.tree) && RenameInRange(p.value.state.tree, target)
            && (p.value.quit <==> Quits(s, text))
            && if p.value.quit then p.value.state.tree == s.tree
               else p.value.state.modes == NO_MODE
                    && NameOf(p.value.state.tree, target)
                       == if Trim(name + text) == "" then NameOf(s.tree, target) else Trim(name + text)
  {
    assert InDialog(s) && Core(s.tree);
    hide *;
    if Quits(s, text) {
      TypingQuits(s, text, env);
    } else {
      TypingCommits(s, text, env);
      TypedIntoDialog(s, target, name, text);
    }
  }

  lemma TypingQuits(s: State, text: string, env: Env)
    requires InDialog(s) && Quits(s, text)
    ensures var p := PressAll(s, CharKeys(text) + [Bare(Enter)], env);
            p.Some? && p.value.quit && p.value.state.tree == s.tree
  {
    var ks := CharKeys(text);
    var n := FirstQuit(s, ks);
    assert Edits(ks) && Edits(ks[..n]) && |ks| == |text|;
    hide PressAll, FirstQuit, Quits, CharKeys;
    DialogEdits(s, ks, env);
    QuitsIff(s, text);
    PressOneMore(s, ks, Bare(Enter), env);
    OnlyTextChanges(s, ks[..n]);
  }

  lemma TypingCommits(s: State, text: string, env: Env)
    requires InDialog(s) && !Quits(s, text)
    ensures var r := Retouched(s, CharKeys(text));
            && InDialog(r) && !StaleCommit(r, Bare(Enter))
            && PressAll(s, CharKeys(text) + [Bare(Enter)], env) == Some(Outcome(RenameKey(r, Bare(Enter)), false))
  {
    var ks := CharKeys(text);
    assert Edits(ks) && |ks| == |text| && ks[..|ks|] == ks;
    hide PressAll, FirstQuit, Quits, CharKeys, InDialog, Retouched, StaleHit, StaleCommit, HandleKey, RenameKey;
    DialogEdits(s, ks, env);
    QuitsIff(s, text);
    EnterCommits(s, ks, env);
    PressOneMore(s, ks, Bare(Enter), env);
  }

  lemma OnlyTextChanges(s: State, ks: seq<Key>)
    requires Core(s.tree) && DialogsUsable(s.tree, s.modes) && s.modes.rename.Some? && Edits(ks)
    ensures Retouched(s, ks).tree == s.tree
  {
    hide Core;
  }

  lemma EnterCommits(s: State, ks: seq<Key>, env: Env)
    requires InDialog(s) && Edits(ks)
    ensures var r := Retouched(s, ks);
            && InDialog(r) && !StaleHit(r, Bare(Enter)) && !StaleCommit(r, Bare(Enter))
            && HandleKey(r, Bare(Enter), env) == Outcome(RenameKey(r, Bare(Enter)), false)
  {
    RetouchedInDialog(s, ks);
    hide InDialog, Retouched;
    DialogGetsTheKey(Retouched(s, ks), Bare(Enter), env);
  }

  // ---- the confirmation of an office's deletion ----

  ghost predicate Confirming(s: State, idx: nat, input: string) {
    Sound(s) && s.modes == NO_MODE.(officeDelete := Some(OfficeDelete(idx, input)))
  }

  lemma ConfirmationGetsTheKey(s: State, idx: nat, input: string, k: Key, env: Env)
    requires Confirming(s, idx, input) && !k.code.Esc?
    ensures !StaleHit(s, k) && !StaleCommit(s, k)
    ensures HandleKey(s, k, env) == if EmergencyQuit(s, k) then Outcome(s, true) else Outcome(OfficeDeleteKey(s, k), false)
  {
    hide Core;
  }

  function Typing(s: State, idx: nat, input: string): State {
    s.(modes := NO_MODE.(officeDelete := Some(OfficeDelete(idx, input))))
  }

  lemma ConfirmationTakesOneMore(s: State, idx: nat, init: string, c: char, env: Env)
    requires Confirming(s, idx, "")
    ensures var o := HandleKey(Typing(s, idx, init), Bare(Char(c)), env);
            o == if EmergencyQuit(s, Bare(Char(c))) then Outcome(Typing(s, idx, init), true)
                 else Outcome(Typing(s, idx, init + [c]), false)
    ensures !StaleHit(Typing(s, idx, init), Bare(Char(c))) && !StaleCommit(Typing(s, idx, init), Bare(Char(c)))
  {
    hide Core, RemoveOffice;
    ConfirmationGetsTheKey(Typing(s, idx, init), idx, init, Bare(Char(c)), env);
  }

  lemma CharKeysSnoc(init: string, c: char)
    ensures CharKeys(init + [c]) == CharKeys(init) + [Bare(Char(c))]
  {
  }

  lemma QuitsSnoc(s: State, init: string, c: char)
    ensures Quits(s, init + [c]) <==> Quits(s, init) || EmergencyQuit(s, Bare(Char(c)))
  {
  }

  /** The confirmation shows what was typed, unless the client has quit. */
  lemma {:induction false} ConfirmationTakes(s: State, idx: nat, text: string, env: Env)
    requires Confirming(s, idx, "")
    ensures var p := PressAll(s, CharKeys(text), env);
            && p.Some? && (p.value.quit <==> Quits(s, text)) && p.value.state.tree == s.tree
            && (!p.value.quit ==> p.value.state == Typing(s, idx, text))
    decreases |text|
  {
    if text == "" {
      assert CharKeys(text) == [] && Typing(s, idx, "") == s;
    } else {
      hide PressAll, Core, CharKeys, HandleKey, EmergencyQuit, StaleHit, StaleCommit, Sound, Quits;
      var last := |text| - 1;
      var init, c := text[..last], text[last];
      assert text == init + [c];
      ConfirmationTakes(s, idx, init, env);
      CharKeysSnoc(init, c);
      QuitsSnoc(s, init, c);
      PressOneMore(s, CharKeys(init), Bare(Char(c)), env);
      ConfirmationTakesOneMore(s, idx, init, c, env);
    }
  }

  /** Typing a text and pressing Enter deletes the office exactly when the text is its name, another office is left,
      and the client has its daemon or the text has no `q`. */
  lemma ConfirmingDeletesIff(s: State, idx: nat, text: string, env: Env)
    requires Confirming(s, idx, "")
    ensures var p := PressAll(s, CharKeys(text) + [Bare(Enter)], env);
            && p.Some? && (p.value.quit <==> Quits(s, text))
            && var deletes := text == s.tree.offices[idx].name && |s.tree.offices| > 1 && !Quits(s, text);
               p.value.state.tree == if deletes then RemoveOffice(s.tree, idx) else s.tree
  {
    ConfirmationTakes(s, idx, text, env);
    PressOneMore(s, CharKeys(text), Bare(Enter), env);
    hide PressAll, CharKeys, Quits, RemoveOffice, ActiveTab, GoodOffices;
    if !Quits(s, text) {
      ConfirmationGetsTheKey(Typing(s, idx, text), idx, text, Bare(Enter), env);
    }
  }
}
