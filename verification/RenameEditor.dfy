/** The rename dialog of src/client/app.rs: a UTF-8 buffer edited in place at a cursor counted in characters.
    It is proved to refine editing a sequence of characters. */
module RenameEditor {
  import opened Basics
  import Utf8

  datatype RenameTarget = Desk(desk: nat) | Tab(tabDesk: nat, tab: nat) | Office(office: nat)

  // ---- the reference editor ----

  datatype Edit = Edit(chars: string, cursor: nat)

  datatype EditOp = Insert(c: char) | Backspace | Delete | MoveLeft | MoveRight | MoveHome | MoveEnd

  predicate InRange(e: Edit) { e.cursor <= |e.chars| }

  function Apply(e: Edit, op: EditOp): (r: Edit)
    requires InRange(e)
    ensures InRange(r)
  {
    var n := e.cursor;
    match op
    case Insert(c) => Edit(e.chars[..n] + [c] + e.chars[n..], n + 1)
    case Backspace => if n == 0 then e else Edit(e.chars[..n - 1] + e.chars[n..], n - 1)
    case Delete => if n == |e.chars| then e else e.(chars := e.chars[..n] + e.chars[n + 1..])
    case MoveLeft => if n == 0 then e else e.(cursor := n - 1)
    case MoveRight => if n == |e.chars| then e else e.(cursor := n + 1)
    case MoveHome => e.(cursor := 0)
    case MoveEnd => e.(cursor := |e.chars|)
  }

  function ApplyAll(e: Edit, ops: seq<EditOp>): (r: Edit)
    requires InRange(e)
    ensures InRange(r)
  {
    if ops == [] then e else Apply(ApplyAll(e, ops[..|ops| - 1]), ops[|ops| - 1])
  }

  // ---- the `str` operations the source uses; their preconditions are the ones that panic ----

  function StrInsert(s: seq<byte>, at: nat, c: char): seq<byte>
    requires Utf8.IsBoundary(s, at)
  {
    s[..at] + Utf8.EncodeChar(c) + s[at..]
  }

  function StrRemove(s: seq<byte>, start: nat, end: nat): seq<byte>
    requires start <= end && Utf8.IsBoundary(s, start) && Utf8.IsBoundary(s, end)
  {
    s[..start] + s[end..]
  }

  /** `s.char_indices().nth(k)`: where the k-th character starts. */
  function CharOffset(s: seq<byte>, k: nat): (i: nat)
    ensures i <= |s|
  {
    if k == 0 || Utf8.FirstLength(s) == 0 then 0
    else Utf8.FirstLength(s) + CharOffset(s[Utf8.FirstLength(s)..], k - 1)
  }

  /** The byte index of a character is the encoded length of the characters before it. */
  lemma {:induction false} CharOffsetIsEncodedLength(cs: string, k: nat)
    requires k <= |cs|
    ensures CharOffset(Utf8.Encode(cs), k) == |Utf8.Encode(cs[..k])|
  {
    if k > 0 {
      Utf8.EncodedHead(cs);
      CharOffsetIsEncodedLength(cs[1..], k - 1);
      assert cs[..k][1..] == cs[1..][..k - 1];
    }
  }

  /** So it is a boundary, and it cuts the buffer into the encodings of the two halves. */
  lemma CharOffsetCuts(cs: string, k: nat)
    requires k <= |cs|
    ensures var s := Utf8.Encode(cs); var i := CharOffset(s, k);
            Utf8.IsBoundary(s, i) && s[..i] == Utf8.Encode(cs[..k]) && s[i..] == Utf8.Encode(cs[k..])
  {
    hide Utf8.Encode, CharOffset;
    CharOffsetIsEncodedLength(cs, k);
    Utf8.EncodedPrefixIsBoundary(cs[..k], cs[k..]);
    assert cs[..k] + cs[k..] == cs;
  }

  class RenameState {
    const target: RenameTarget
    var buffer: seq<byte>
    var cursor: nat

    /** What a Rust `String` guarantees, and the cursor's range. */
    predicate Valid()
      reads this
    {
      Utf8.Decode(buffer).Some? && cursor <= |Utf8.Decode(buffer).value|
    }

    function View(): (e: Edit)
      requires Valid()
      reads this
      ensures InRange(e)
    {
      Edit(Utf8.Decode(buffer).value, cursor)
    }

    constructor (target: RenameTarget, text: string)
      ensures Valid() && View() == Edit(text, |text|) && this.target == target
    {
      this.target := target;
      buffer := Utf8.Encode(text);
      cursor := |text|;
      new;
      Utf8.DecodeEncode(text);
    }

    function CharLen(): nat
      requires Valid()
      reads this
    {
      |Utf8.Decode(buffer).value|
    }

    function ByteIndex(charIdx: nat): nat
      requires Valid()
      reads this
    {
      if charIdx == 0 then 0
      else if charIdx >= CharLen() then |buffer|
      else CharOffset(buffer, charIdx)
    }

    lemma ByteIndexCuts(charIdx: nat)
      requires Valid() && charIdx <= CharLen()
      ensures var i := ByteIndex(charIdx);
              && Utf8.IsBoundary(buffer, i)
              && buffer[..i] == Utf8.Encode(View().chars[..charIdx])
              && buffer[i..] == Utf8.Encode(View().chars[charIdx..])
    {
      var cs := View().chars;
      Utf8.EncodeDecode(buffer);
      CharOffsetCuts(cs, charIdx);
      if charIdx == |cs| {
        assert cs[..charIdx] == cs && cs[charIdx..] == [];
      }
    }

    method InsertChar(c: char)
      requires Valid()
      modifies this
      ensures Valid() && View() == Apply(old(View()), Insert(c))
    {
      ByteIndexCuts(cursor);
      ghost var cs, n := View().chars, cursor;
      var idx := ByteIndex(cursor);
      buffer := StrInsert(buffer, idx, c);
      cursor := cursor + 1;
      Utf8.EncodeAppend(cs[..n], [c]);
      Utf8.EncodeAppend(cs[..n] + [c], cs[n..]);
      Utf8.DecodeEncode(cs[..n] + [c] + cs[n..]);
      assert Utf8.Encode([c]) == Utf8.EncodeChar(c);
    }

    method Backspace()
      requires Valid()
      modifies this
      ensures Valid() && View() == Apply(old(View()), EditOp.Backspace)
    {
      if cursor == 0 {
        return;
      }
      RemoveChar(cursor - 1);
      var end := ByteIndex(cursor);
      var start := ByteIndex(cursor - 1);
      buffer := StrRemove(buffer, start, end);
      cursor := cursor - 1;
    }

    method Delete()
      requires Valid()
      modifies this
      ensures Valid() && View() == Apply(old(View()), EditOp.Delete)
    {
      if cursor >= CharLen() {
        return;
      }
      RemoveChar(cursor);
      var start := ByteIndex(cursor);
      var end := ByteIndex(cursor + 1);
      buffer := StrRemove(buffer, start, end);
    }

    lemma RemoveChar(k: nat)
      requires Valid() && k < CharLen()
      ensures var start, end := ByteIndex(k), ByteIndex(k + 1);
              && start <= end && Utf8.IsBoundary(buffer, start) && Utf8.IsBoundary(buffer, end)
              && Utf8.Decode(StrRemove(buffer, start, end)) == Some(View().chars[..k] + View().chars[k + 1..])
    {
      var cs := View().chars;
      ByteIndexCuts(k);
      ByteIndexCuts(k + 1);
      OffsetsOrdered(k);
      Utf8.EncodeAppend(cs[..k], cs[k + 1..]);
      Utf8.DecodeEncode(cs[..k] + cs[k + 1..]);
    }

    lemma OffsetsOrdered(k: nat)
      requires Valid() && k < CharLen()
      ensures ByteIndex(k + 1) == ByteIndex(k) + |Utf8.EncodeChar(View().chars[k])|
    {
      var cs := View().chars;
      ByteIndexCuts(k);
      ByteIndexCuts(k + 1);
      assert |buffer[..ByteIndex(k)]| == ByteIndex(k);
      Utf8.EncodeAppend(cs[..k], [cs[k]]);
      assert cs[..k] + [cs[k]] == cs[..k + 1];
      assert Utf8.Encode([cs[k]]) == Utf8.EncodeChar(cs[k]);
    }

    method MoveLeft()
      requires Valid()
      modifies this
      ensures Valid() && View() == Apply(old(View()), EditOp.MoveLeft)
    {
      cursor := if cursor == 0 then 0 else cursor - 1;
    }

    method MoveRight()
      requires Valid()
      modifies this
      ensures Valid() && View() == Apply(old(View()), EditOp.MoveRight)
    {
      cursor := if cursor + 1 <= CharLen() then cursor + 1 else CharLen();
    }

    method MoveHome()
      requires Valid()
      modifies this
      ensures Valid() && View() == Apply(old(View()), EditOp.MoveHome)
    {
      cursor := 0;
    }

    method MoveEnd()
      requires Valid()
      modifies this
      ensures Valid() && View() == Apply(old(View()), EditOp.MoveEnd)
    {
      cursor := CharLen();
    }

    method Perform(op: EditOp)
      requires Valid()
      modifies this
      ensures Valid() && View() == Apply(old(View()), op)
    {
      match op
      case Insert(c) => InsertChar(c);
      case Backspace => Backspace();
      case Delete => Delete();
      case MoveLeft => MoveLeft();
      case MoveRight => MoveRight();
      case MoveHome => MoveHome();
      case MoveEnd => MoveEnd();
    }

    /** Over any run the buffer is the encoding of the edited characters, and no byte index ever panics. */
    method Run(ops: seq<EditOp>)
      requires Valid()
      modifies this
      ensures Valid() && View() == ApplyAll(old(View()), ops)
      ensures buffer == Utf8.Encode(View().chars)
    {
      for i := 0 to |ops|
        invariant Valid() && View() == ApplyAll(old(View()), ops[..i])
      {
        Perform(ops[i]);
        assert ops[..i + 1][..i] == ops[..i];
      }
      assert ops[..|ops|] == ops;
      Utf8.EncodeDecode(buffer);
    }

    /** The three slices the popup draws: the text before the cursor, the character under it and the rest. */
    method PopupSlices() returns (before: seq<byte>, current: seq<byte>, tail: seq<byte>)
      requires Valid()
      ensures before + current + tail == buffer
      ensures before == Utf8.Encode(View().chars[..cursor])
      ensures current == if cursor < |View().chars| then Utf8.EncodeChar(View().chars[cursor]) else []
    {
      hide Utf8.FirstLength, Utf8.EncodeChar, Utf8.Encode, ByteIndex;
      var cursorByte := ByteIndex(cursor);
      ByteIndexCuts(cursor);
      Utf8.EncodedHead(View().chars[cursor..]);
      before := buffer[..cursorByte];
      var after := buffer[cursorByte..];
      var currentLen := Utf8.FirstLength(after);
      current := after[..currentLen];
      tail := after[currentLen..];
    }
  }

  // ---- laws of the reference editor ----

  lemma BackspaceUndoesInsert(e: Edit, c: char)
    requires InRange(e)
    ensures Apply(Apply(e, Insert(c)), Backspace) == e
  {
    var n := e.cursor;
    var f := Apply(e, Insert(c));
    assert f.chars[..n] + f.chars[n + 1..] == e.chars[..n] + e.chars[n..] == e.chars;
  }

  lemma DeleteIsMoveRightBackspace(e: Edit)
    requires InRange(e) && e.cursor < |e.chars|
    ensures Apply(e, Delete) == Apply(Apply(e, MoveRight), Backspace)
  {
  }

  /** A text with the cursor between two parts. */
  function At(before: string, after: string): Edit { Edit(before + after, |before|) }

  /** What each edit does around a character that stands after `a` and before `b`. */
  lemma EditsAround(a: string, c: char, b: string)
    ensures Apply(At(a, b), Insert(c)) == At(a + [c], b)
    ensures Apply(At(a + [c], b), Backspace) == Apply(At(a, [c] + b), Delete) == At(a, b)
    ensures Apply(At(a + [c], b), MoveLeft) == At(a, [c] + b) && Apply(At(a, [c] + b), MoveRight) == At(a + [c], b)
    ensures At(a + [c], b).chars == At(a, [c] + b).chars == a + [c] + b
  {
    assert (a + b)[..|a|] == a && (a + b)[|a|..] == b;
    assert a + [c] + b == a + ([c] + b);
    assert (a + [c] + b)[..|a|] == a && (a + [c] + b)[|a| + 1..] == b;
  }

  lemma EditsAtTheEnds(e: Edit)
    requires InRange(e)
    ensures Apply(e, MoveHome) == e.(cursor := 0) && Apply(e, MoveEnd) == e.(cursor := |e.chars|)
    ensures e.cursor == 0 ==> Apply(e, Backspace) == Apply(e, MoveLeft) == e
    ensures e.cursor == |e.chars| ==> Apply(e, Delete) == Apply(e, MoveRight) == e
  {
  }

  lemma OneBackspaceMore(e: Edit, n: nat)
    requires InRange(e)
    ensures ApplyAll(e, Repeat(Backspace, n + 1)) == Apply(ApplyAll(e, Repeat(Backspace, n)), Backspace)
  {
    assert Repeat(Backspace, n + 1)[..n] == Repeat(Backspace, n);
  }

  /** As many backspaces as characters erase a text before the cursor. */
  lemma {:induction false} ErasesText(a: string, text: string, b: string)
    ensures ApplyAll(At(a + text, b), Repeat(Backspace, |text|)) == At(a, b)
    decreases |text|
  {
    if text == "" {
      assert a + text == a;
    } else {
      var c, rest := text[0], text[1..];
      assert a + [c] + rest == a + text;
      ErasesText(a + [c], rest, b);
      OneBackspaceMore(At(a + text, b), |rest|);
      EditsAround(a, c, b);
    }
  }

  lemma {:induction false} TypingInserts(e: Edit, text: string)
    requires InRange(e)
    ensures ApplyAll(e, seq(|text|, i requires 0 <= i < |text| => Insert(text[i])))
            == Edit(e.chars[..e.cursor] + text + e.chars[e.cursor..], e.cursor + |text|)
  {
    var ops := seq(|text|, i requires 0 <= i < |text| => Insert(text[i]));
    if text == [] {
      assert e.chars[..e.cursor] + [] + e.chars[e.cursor..] == e.chars;
    } else {
      var n := |text| - 1;
      var init := text[..n];
      TypingInserts(e, init);
      assert ops[..n] == seq(|init|, i requires 0 <= i < |init| => Insert(init[i]));
      var mid := Edit(e.chars[..e.cursor] + init + e.chars[e.cursor..], e.cursor + n);
      assert mid.chars[..mid.cursor] == e.chars[..e.cursor] + init;
      assert mid.chars[mid.cursor..] == e.chars[e.cursor..];
      assert init + [text[n]] == text;
    }
  }
}
