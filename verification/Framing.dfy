/** Request framing between clients and the daemon: binary frames (a zero byte, a little-endian `u32` length and
    the payload) mixed with JSON lines on one stream.  The encoder is that of
    src/providers/daemon_provider/mod.rs, the decoder the request loop of src/daemon/service.rs. */
module Framing {
  import opened Basics
  import Utf8

  const NEWLINE: byte := 0x0A
  const TWO32: nat := 0x1_0000_0000

  // ---- lengths ----

  /** `(len as u32).to_le_bytes()`. */
  function Le32(len: nat): (b: seq<byte>)
    ensures |b| == 4
  {
    [len % 256, len / 256 % 256, len / 256 / 256 % 256, len / 256 / 256 / 256 % 256]
  }

  function FromLe32(b: seq<byte>): (n: nat)
    requires |b| >= 4
    ensures n < TWO32
  {
    var b0: int, b1: int, b2: int, b3: int := b[0], b[1], b[2], b[3];
    b0 + 256 * (b1 + 256 * (b2 + 256 * b3))
  }

  /** A length survives the header exactly when it fits in 32 bits. */
  lemma LengthSurvivesIff(len: nat, rest: seq<byte>)
    ensures FromLe32(Le32(len) + rest) == len <==> len < TWO32
  {
    var b := Le32(len) + rest;
    assert b[0] == len % 256 && b[1] == len / 256 % 256;
    assert b[2] == len / 256 / 256 % 256 && b[3] == len / 256 / 256 / 256 % 256;
    if len < TWO32 {
      assert len / 256 / 256 / 256 < 256;
    }
  }

  /** The lowest byte comes first, and what does not fit in four is lost. */
  lemma LowestByteFirst(len: nat)
    ensures var b := Le32(len);
            b[0] as int + 0x100 * b[1] as int + 0x1_0000 * b[2] as int + 0x100_0000 * b[3] as int == len % 0x1_0000_0000
    ensures forall b: seq<byte> :: |b| >= 4 ==>
              FromLe32(b) == b[0] as int + 0x100 * b[1] as int + 0x1_0000 * b[2] as int + 0x100_0000 * b[3] as int
  {
    var q1, q2, q3 := len / 256, len / 256 / 256, len / 256 / 256 / 256;
    assert len == 256 * q1 + len % 256 && q1 == 256 * q2 + q1 % 256 && q2 == 256 * q3 + q2 % 256;
    assert q3 == 256 * (q3 / 256) + q3 % 256;
    var low := len % 256 + 0x100 * (q1 % 256) + 0x1_0000 * (q2 % 256) + 0x100_0000 * (q3 % 256);
    assert len == low + 0x1_0000_0000 * (q3 / 256) && low < 0x1_0000_0000;
  }

  /** A line ends with the character for it, a frame begins with a zero byte and its length. */
  lemma WireForms(payload: seq<byte>, text: seq<byte>)
    ensures EncodeItem(Bin(payload))[0] == 0 && EncodeItem(Bin(payload))[1..5] == Le32(|payload|)
    ensures EncodeItem(Bin(payload))[5..] == payload
    ensures EncodeItem(Line(text)) == text + ['\n' as int]
  {
  }

  // ---- what a client sends ----

  datatype Item =
    | Bin(payload: seq<byte>)
    | Line(text: seq<byte>)
    | LastLine(text: seq<byte>)   // a final line the client closed the stream after, without its newline

  predicate NoNewline(text: seq<byte>) { forall k :: 0 <= k < |text| ==> text[k] != NEWLINE }

  predicate LineOk(text: seq<byte>) {
    NoNewline(text) && (text != [] ==> text[0] != 0) && Utf8.Decode(text).Some?
  }

  predicate ItemOk(i: Item) {
    match i
    case Bin(payload) => |payload| < TWO32
    case Line(text) => LineOk(text)
    case LastLine(text) => LineOk(text) && text != []
  }

  function EncodeItem(i: Item): seq<byte> {
    match i
    case Bin(payload) => [0] + Le32(|payload|) + payload
    case Line(text) => text + [NEWLINE]
    case LastLine(text) => text
  }

  function EncodeAll(items: seq<Item>): seq<byte> {
    if items == [] then [] else EncodeItem(items[0]) + EncodeAll(items[1..])
  }

  /** Whole messages only: a last line without newline can only close the stream. */
  ghost predicate Sendable(items: seq<Item>) {
    forall i :: 0 <= i < |items| ==> ItemOk(items[i]) && (items[i].LastLine? ==> i == |items| - 1)
  }

  /** The frame that the worker's channel and the write connection carry. */
  method EncodeFrame(bin: seq<byte>) returns (frame: seq<byte>)
    ensures frame == EncodeItem(Bin(bin))
  {
    frame := [0];
    frame := frame + Le32(|bin|);
    frame := frame + bin;
  }

  // ---- the decoder's reference: one item at a time ----

  datatype End = Closed | Truncated | NotUtf8

  datatype Next = Frame(item: Item, rest: seq<byte>) | Stop(end: End)

  function FindNewline(s: seq<byte>): (i: nat)
    ensures i <= |s| && NoNewline(s[..i]) && (i < |s| ==> s[i] == NEWLINE)
  {
    if s == [] || s[0] == NEWLINE then 0
    else
      var i := FindNewline(s[1..]);
      assert s[..i + 1] == [s[0]] + s[1..][..i];
      i + 1
  }

  function ReadNext(s: seq<byte>): (n: Next)
    ensures n.Frame? ==> |n.rest| < |s|
  {
    if s == [] then Stop(Closed)
    else if s[0] == 0 then
      if |s| < 5 then Stop(Truncated)
      else
        var len := FromLe32(s[1..]);
        if |s| < 5 + len then Stop(Truncated) else Frame(Bin(s[5..5 + len]), s[5 + len..])
    else
      var i := FindNewline(s);
      if Utf8.Decode(s[..i]).None? then Stop(NotUtf8)
      else if i < |s| then Frame(Line(s[..i]), s[i + 1..])
      else Frame(LastLine(s), [])
  }

  datatype Log = Log(items: seq<Item>, end: End, rest: seq<byte>)

  function Parse(s: seq<byte>): Log
    decreases |s|
  {
    match ReadNext(s)
    case Stop(end) => Log([], end, s)
    case Frame(item, rest) =>
      var log := Parse(rest);
      log.(items := [item] + log.items)
  }

  lemma {:induction false} FindNewlineAfter(text: seq<byte>, rest: seq<byte>)
    requires NoNewline(text) && (rest != [] ==> rest[0] == NEWLINE)
    ensures FindNewline(text + rest) == |text|
  {
    if text == [] {
      assert text + rest == rest;
    } else {
      assert (text + rest)[1..] == text[1..] + rest;
      FindNewlineAfter(text[1..], rest);
    }
  }

  lemma NextOfLine(text: seq<byte>, rest: seq<byte>)
    requires LineOk(text)
    ensures ReadNext(text + [NEWLINE] + rest) == Frame(Line(text), rest)
    ensures text != [] ==> ReadNext(text) == Frame(LastLine(text), [])
  {
    var s := text + [NEWLINE] + rest;
    FindNewlineAfter(text, [NEWLINE] + rest);
    FindNewlineAfter(text, []);
    assert s == text + ([NEWLINE] + rest) && text + [] == text;
    assert s[..|text|] == text && s[|text| + 1..] == rest && text[..|text|] == text;
  }

  lemma NextOfEncoded(i: Item, rest: seq<byte>)
    requires ItemOk(i) && (i.LastLine? ==> rest == [])
    ensures ReadNext(EncodeItem(i) + rest) == Frame(i, rest)
  {
    if i.Bin? {
      var n := |i.payload|;
      var s := EncodeItem(i) + rest;
      assert s[1..] == Le32(n) + (i.payload + rest);
      LengthSurvivesIff(n, i.payload + rest);
      assert s[5..5 + n] == i.payload && s[5 + n..] == rest;
    } else {
      NextOfLine(i.text, rest);
      assert i.LastLine? ==> i.text + rest == i.text;
    }
  }

  lemma EncodedOfFrame(s: seq<byte>, len: nat)
    requires |s| >= 5 + len && s[0] == 0 && len == FromLe32(s[1..])
    ensures EncodeItem(Bin(s[5..5 + len])) + s[5 + len..] == s
  {
    HeaderOf(s[1..5], s[5..]);
    assert s[1..] == s[1..5] + s[5..];
    assert s == [0] + s[1..5] + s[5..5 + len] + s[5 + len..];
  }

  lemma CutAt(s: seq<byte>, i: nat)
    requires i <= |s|
    ensures i < |s| ==> s[..i] + [s[i]] + s[i + 1..] == s
    ensures i == |s| ==> s[..i] == s && s + [] == s
    ensures i > 0 ==> s[..i][0] == s[0]
  {
  }

  lemma EncodedOfNext(s: seq<byte>)
    requires ReadNext(s).Frame?
    ensures var n := ReadNext(s); EncodeItem(n.item) + n.rest == s && ItemOk(n.item)
    ensures ReadNext(s).item.LastLine? ==> ReadNext(s).rest == []
  {
    hide Le32, FromLe32, FindNewline, NoNewline, Utf8.Decode;
    if s[0] == 0 {
      EncodedOfFrame(s, FromLe32(s[1..]));
    } else {
      CutAt(s, FindNewline(s));
    }
  }

  lemma LowByte(low: nat, high: nat)
    requires low < 256
    ensures (low + 256 * high) % 256 == low && (low + 256 * high) / 256 == high
  {
  }

  lemma HeaderOf(b: seq<byte>, rest: seq<byte>)
    requires |b| == 4
    ensures Le32(FromLe32(b + rest)) == b
  {
    var b0: int, b1: int, b2: int, b3: int := b[0], b[1], b[2], b[3];
    var y := b2 + 256 * b3;
    var x := b1 + 256 * y;
    assert FromLe32(b + rest) == b0 + 256 * x;
    LowByte(b0, x);
    LowByte(b1, y);
    LowByte(b2, b3);
  }

  /** Any interleaving of frames and lines decodes to exactly what was sent, in order. */
  lemma {:induction false} DecodesWhatWasSent(items: seq<Item>)
    requires Sendable(items)
    ensures Parse(EncodeAll(items)) == Log(items, Closed, [])
  {
    hide ReadNext, EncodeItem, ItemOk;
    if items == [] {
      NextOfNothing();
    } else {
      var rest := EncodeAll(items[1..]);
      assert items[0].LastLine? ==> items[1..] == [];
      NextOfEncoded(items[0], rest);
      DecodesWhatWasSent(items[1..]);
    }
  }

  lemma StopsWhen(s: seq<byte>)
    ensures ReadNext(s).Stop? ==> (ReadNext(s).end == Closed <==> s == [])
    ensures ReadNext(s).Frame? ==> |ReadNext(s).rest| < |s|
  {
  }

  lemma NextOfNothing()
    ensures ReadNext([]) == Stop(Closed)
  {
  }

  /** Conversely, on any stream at all, what the loop reads prints back to the bytes it consumed, and it stops
      early only at an unfinished frame or a line that is not UTF-8. */
  lemma {:induction false} ConsumesOnlyWhatItReads(s: seq<byte>)
    ensures var log := Parse(s);
            Sendable(log.items) && EncodeAll(log.items) + log.rest == s && (log.end == Closed <==> log.rest == [])
    decreases |s|
  {
    hide EncodeItem, ItemOk, ReadNext;
    NextOfNothing();
    StopsWhen(s);
    match ReadNext(s)
    case Stop(end) =>
      assert EncodeAll([]) + s == s;
    case Frame(item, rest) =>
      var log := Parse(rest);
      EncodedOfNext(s);
      ConsumesOnlyWhatItReads(rest);
      assert ([item] + log.items)[1..] == log.items;
      assert EncodeItem(item) + (EncodeAll(log.items) + log.rest) == EncodeItem(item) + EncodeAll(log.items) + log.rest;
  }

  // ---- the request loop ----

  /** The messages handled, given which payloads do not parse: those are logged and skipped. */
  function Handled(items: seq<Item>, bad: set<Item>): seq<Item> {
    if items == [] then []
    else (if items[0] in bad then [] else [items[0]]) + Handled(items[1..], bad)
  }

  lemma {:induction false} HandledAppend(a: seq<Item>, b: seq<Item>, bad: set<Item>)
    ensures Handled(a + b, bad) == Handled(a, bad) + Handled(b, bad)
  {
    if a == [] {
      assert a + b == b;
    } else {
      assert (a + b)[1..] == a[1..] + b;
      HandledAppend(a[1..], b, bad);
    }
  }

  /** An undecodable frame consumes only its own bytes: everything before and after it is still handled. */
  lemma UndecodableSkipsItself(a: seq<Item>, x: Item, b: seq<Item>, bad: set<Item>)
    requires Sendable(a + [x] + b) && x in bad
    ensures Handled(Parse(EncodeAll(a + [x] + b)).items, bad) == Handled(a, bad) + Handled(b, bad)
  {
    DecodesWhatWasSent(a + [x] + b);
    HandledAppend(a + [x], b, bad);
    HandledAppend(a, [x], bad);
  }

  /** The buffered reader's position in everything the client will have sent. */
  class BufReader {
    const data: seq<byte>
    var pos: nat

    predicate Valid()
      reads this
    {
      pos <= |data|
    }

    function Rest(): seq<byte>
      requires Valid()
      reads this
    {
      data[pos..]
    }

    constructor (data: seq<byte>)
      ensures Valid() && Rest() == data
    {
      this.data := data;
      pos := 0;
    }

    method Take(n: nat) returns (taken: Option<seq<byte>>)
      requires Valid()
      modifies this`pos
      ensures Valid()
      ensures if n <= |old(Rest())| then taken == Some(old(Rest())[..n]) && Rest() == old(Rest())[n..]
              else taken == None
    {
      if pos + n <= |data| {
        taken := Some(data[pos..pos + n]);
        assert data[pos..][..n] == data[pos..pos + n] && data[pos..][n..] == data[pos + n..];
        pos := pos + n;
      } else {
        taken := None;
      }
    }

    /** `read_line`: up to and including the newline, or to the end of the stream. */
    method ReadLine() returns (line: seq<byte>, ended: bool)
      requires Valid()
      modifies this`pos
      ensures Valid()
      ensures var n := FindNewline(old(Rest()));
              && line == old(Rest())[..n] && ended == (n < |old(Rest())|)
              && Rest() == old(Rest())[if ended then n + 1 else n..]
    {
      var n := FindNewline(data[pos..]);
      line, ended := data[pos..pos + n], pos + n < |data|;
      pos := if ended then pos + n + 1 else pos + n;
    }
  }

  /** The first block of the loop: one item off the stream, or the reason to leave the loop. */
  method ReadItem(reader: BufReader) returns (item: Option<Item>, end: End)
    requires reader.Valid()
    modifies reader
    ensures reader.Valid()
    ensures var n := ReadNext(old(reader.Rest()));
            if n.Frame? then item == Some(n.item) && reader.Rest() == n.rest else item == None && end == n.end
  {
    ghost var s := reader.Rest();
    item, end := None, Closed;
    if reader.pos == |reader.data| {
      return;
    }
    if reader.data[reader.pos] == 0 {
      var _ := reader.Take(1);
      var header := reader.Take(4);
      if header.None? { return None, Truncated; }
      assert s[1..][..4] == s[1..5];
      assert FromLe32(header.value) == FromLe32(s[1..]) && s[1..][4..] == s[5..];
      var payload := reader.Take(FromLe32(header.value));
      if payload.None? { return None, Truncated; }
      item := Some(Bin(payload.value));
      ghost var n := FromLe32(s[1..]);
      assert s[5..][..n] == s[5..5 + n] && s[5..][n..] == s[5 + n..];
    } else {
      var line, ended := reader.ReadLine();
      if Utf8.Decode(line).None? { return None, NotUtf8; }
      item := Some(if ended then Line(line) else LastLine(line));
      assert s[..|s|] == s && s[|s|..] == [];
    }
  }

  /** What the loop has handled and what it will. */
  function HandledFrom(done: seq<Item>, s: seq<byte>, bad: set<Item>): seq<Item> { done + Handled(Parse(s).items, bad) }

  lemma LoopStep(done: seq<Item>, s: seq<byte>, bad: set<Item>)
    ensures var n := ReadNext(s);
            if n.Stop? then HandledFrom(done, s, bad) == done && Parse(s).end == n.end
            else
              && HandledFrom(done, s, bad) == HandledFrom(if n.item in bad then done else done + [n.item], n.rest, bad)
              && Parse(s).end == Parse(n.rest).end
  {
    hide ReadNext;
    StopsWhen(s);
    match ReadNext(s)
    case Stop(_) =>
      assert done + [] == done;
    case Frame(i, rest) =>
      assert ([i] + Parse(rest).items)[1..] == Parse(rest).items;
  }

  method RequestLoop(reader: BufReader, bad: set<Item>) returns (handled: seq<Item>, end: End)
    requires reader.Valid()
    modifies reader
    ensures var log := Parse(old(reader.Rest())); handled == Handled(log.items, bad) && end == log.end
  {
    handled, end := [], Closed;
    ghost var whole := Parse(reader.Rest());
    assert HandledFrom(handled, reader.Rest(), bad) == Handled(whole.items, bad);
    while true
      invariant reader.Valid()
      invariant HandledFrom(handled, reader.Rest(), bad) == Handled(whole.items, bad)
      invariant Parse(reader.Rest()).end == whole.end
      decreases |reader.Rest()|
    {
      hide Parse, Handled, HandledFrom, ReadNext;
      LoopStep(handled, reader.Rest(), bad);
      StopsWhen(reader.Rest());
      var item, why := ReadItem(reader);
      if item.None? {
        end := why;
        return;
      }
      if item.value !in bad {
        handled := handled + [item.value];
      }
    }
  }
}
