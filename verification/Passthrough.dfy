/** The passthrough splitter of src/passthrough.rs.

    A chunk of PTY output is a sequence of printed tokens (plain bytes, two-byte escapes, application program
    commands and operating system commands, in the control-string syntax of section 5.6 of ECMA-48 with xterm's
    BEL terminator) followed by one unfinished tail.  `SplitPassthrough` is the source's byte loop; it is proved
    to return the parts of the one factoring that prints the chunk. */
module Passthrough {
  import opened Basics
  import opened Osc7

  const ESC: byte := 0x1B
  const BEL: byte := 0x07
  const ST: byte := 0x9C
  const UNDERSCORE: byte := 0x5F
  const BRACKET: byte := 0x5D
  const BACKSLASH: byte := 0x5C

  datatype Terminator = EscBackslash | C1 | Bell

  datatype Kind = Apc | Osc

  datatype Token =
    | Plain(b: byte)
    | Escaped(b: byte)
    | Str(kind: Kind, body: seq<byte>, end: Terminator)

  /** What an input can end in: nothing, an ESC, or an unterminated string that may itself end in an ESC. */
  datatype Tail =
    | Done
    | LoneEsc
    | Open(kind: Kind, body: seq<byte>, esc: bool)

  datatype Factoring = Factoring(tokens: seq<Token>, tail: Tail)

  const START := Factoring([], Done)

  // ---- printing ----

  function PrintTerminator(t: Terminator): seq<byte> {
    match t
    case EscBackslash => [ESC, BACKSLASH]
    case C1 => [ST]
    case Bell => [BEL]
  }

  function Opener(kind: Kind): seq<byte> {
    [ESC, if kind.Apc? then UNDERSCORE else BRACKET]
  }

  function PrintToken(t: Token): seq<byte> {
    match t
    case Plain(b) => [b]
    case Escaped(b) => [ESC, b]
    case Str(kind, body, end) => Opener(kind) + body + PrintTerminator(end)
  }

  /** What each token contributes, in order. */
  function Collect<T>(ts: seq<Token>, f: Token -> seq<T>): seq<T> {
    if ts == [] then [] else Collect(ts[..|ts| - 1], f) + f(ts[|ts| - 1])
  }

  lemma CollectSnoc<T>(ts: seq<Token>, t: Token, f: Token -> seq<T>)
    ensures Collect(ts + [t], f) == Collect(ts, f) + f(t)
  {
    assert (ts + [t])[..|ts|] == ts;
  }

  lemma {:induction false} CollectAppend<T>(a: seq<Token>, b: seq<Token>, f: Token -> seq<T>)
    ensures Collect(a + b, f) == Collect(a, f) + Collect(b, f)
    decreases |b|
  {
    if b == [] {
      assert a + b == a;
    } else {
      var init, t := b[..|b| - 1], b[|b| - 1];
      assert a + b == (a + init) + [t];
      CollectSnoc(a + init, t, f);
      CollectAppend(a, init, f);
    }
  }

  function PrintTokens(ts: seq<Token>): seq<byte> { Collect(ts, PrintToken) }

  function PrintTail(t: Tail): seq<byte> {
    match t
    case Done => []
    case LoneEsc => [ESC]
    case Open(kind, body, esc) => Opener(kind) + body + (if esc then [ESC] else [])
  }

  function Print(f: Factoring): seq<byte> {
    PrintTokens(f.tokens) + PrintTail(f.tail)
  }

  // ---- which factorings the control-string syntax allows ----

  predicate Stops(kind: Kind, b: byte) { b == ST || (kind.Osc? && b == BEL) }

  /** A string body: bytes that do not end it, and pairs of an ESC with any byte but a backslash. */
  predicate BodyOk(kind: Kind, body: seq<byte>) {
    if body == [] then true
    else if body[0] == ESC then |body| > 1 && body[1] != BACKSLASH && BodyOk(kind, body[2..])
    else !Stops(kind, body[0]) && BodyOk(kind, body[1..])
  }

  predicate TokenOk(t: Token) {
    match t
    case Plain(b) => b != ESC
    case Escaped(b) => b != UNDERSCORE && b != BRACKET
    case Str(kind, body, end) => BodyOk(kind, body) && (end.Bell? ==> kind.Osc?)
  }

  predicate TailOk(t: Tail) {
    t.Open? ==> BodyOk(t.kind, t.body)
  }

  predicate WellFormed(f: Factoring) {
    TailOk(f.tail) && forall i :: 0 <= i < |f.tokens| ==> TokenOk(f.tokens[i])
  }

  // ---- factoring, one byte at a time ----

  function Close(ts: seq<Token>, t: Token): Factoring { Factoring(ts + [t], Done) }

  function Extend(f: Factoring, b: byte): Factoring {
    var ts := f.tokens;
    match f.tail
    case Done => if b == ESC then Factoring(ts, LoneEsc) else Close(ts, Plain(b))
    case LoneEsc =>
      if b == UNDERSCORE then Factoring(ts, Open(Apc, [], false))
      else if b == BRACKET then Factoring(ts, Open(Osc, [], false))
      else Close(ts, Escaped(b))
    case Open(kind, body, esc) =>
      if esc && b == BACKSLASH then Close(ts, Str(kind, body, EscBackslash))
      else if esc then Factoring(ts, Open(kind, body + [ESC, b], false))
      else if b == ESC then Factoring(ts, Open(kind, body, true))
      else if Stops(kind, b) then Close(ts, Str(kind, body, if b == ST then C1 else Bell))
      else Factoring(ts, Open(kind, body + [b], false))
  }

  function Fold(f: Factoring, s: seq<byte>): Factoring
    decreases |s|
  {
    if s == [] then f else Fold(Extend(f, s[0]), s[1..])
  }

  function Factor(s: seq<byte>): Factoring { Fold(START, s) }

  // ---- the three streams of a factoring ----

  function NormalOf(t: Token): seq<byte> {
    match t
    case Plain(b) => [b]
    case Escaped(b) => [ESC, b]
    case _ => []
  }

  function ApcOf(t: Token): seq<seq<byte>> {
    if t.Str? && t.kind.Apc? then [[ESC, UNDERSCORE] + t.body + [ESC, BACKSLASH]] else []
  }

  function PathOf(t: Token): seq<string> {
    if t.Str? && t.kind.Osc? && ParseOsc7(t.body).Some? then [ParseOsc7(t.body).value] else []
  }

  function Normal(ts: seq<Token>): seq<byte> { Collect(ts, NormalOf) }

  function Apcs(ts: seq<Token>): seq<seq<byte>> { Collect(ts, ApcOf) }

  function Paths(ts: seq<Token>): seq<string> { Collect(ts, PathOf) }

  datatype Parsed = Parsed(normal: seq<byte>, apcSeqs: seq<seq<byte>>, osc7Paths: seq<string>)

  function Parts(f: Factoring): Parsed {
    Parsed(Normal(f.tokens) + if f.tail.LoneEsc? then [ESC] else [], Apcs(f.tokens), Paths(f.tokens))
  }

  // ---- the source's loop ----

  datatype State = InNormal | AfterEsc | InApc | InApcAfterEsc | InOsc | InOscAfterEsc

  datatype Machine = Machine(state: State, apcBuf: seq<byte>, oscBuf: seq<byte>, out: Parsed)

  function TailOf(m: Machine): Tail {
    match m.state
    case InNormal => Done
    case AfterEsc => LoneEsc
    case InApc => Open(Apc, m.apcBuf, false)
    case InApcAfterEsc => Open(Apc, m.apcBuf, true)
    case InOsc => Open(Osc, m.oscBuf, false)
    case InOscAfterEsc => Open(Osc, m.oscBuf, true)
  }

  /** The loop's variables after the bytes that `f` prints. */
  ghost predicate Tracks(m: Machine, f: Factoring) {
    && f.tail == TailOf(m)
    && m.out == Parsed(Normal(f.tokens), Apcs(f.tokens), Paths(f.tokens))
  }

  function Emit(m: Machine, bytes: seq<byte>): Machine {
    m.(state := InNormal, out := m.out.(normal := m.out.normal + bytes))
  }

  function FlushApc(m: Machine): Machine {
    m.(state := InNormal, apcBuf := [],
       out := m.out.(apcSeqs := m.out.apcSeqs + [[ESC, UNDERSCORE] + m.apcBuf + [ESC, BACKSLASH]]))
  }

  function FlushOsc(m: Machine): Machine {
    m.(state := InNormal, oscBuf := [],
       out := match ParseOsc7(m.oscBuf)
              case None => m.out
              case Some(path) => m.out.(osc7Paths := m.out.osc7Paths + [path]))
  }

  /** One iteration of the source's loop. */
  function OnByte(m: Machine, b: byte): Machine {
    match m.state
    case InNormal =>
      if b == ESC then m.(state := AfterEsc) else Emit(m, [b])
    case AfterEsc =>
      if b == UNDERSCORE then m.(state := InApc, apcBuf := [])
      else if b == BRACKET then m.(state := InOsc, oscBuf := [])
      else Emit(m, [ESC, b])
    case InApc =>
      if b == ESC then m.(state := InApcAfterEsc)
      else if b == ST then FlushApc(m)
      else m.(apcBuf := m.apcBuf + [b])
    case InApcAfterEsc =>
      if b == BACKSLASH then FlushApc(m)
      else m.(state := InApc, apcBuf := m.apcBuf + [ESC, b])
    case InOsc =>
      if b == BEL || b == ST then FlushOsc(m)
      else if b == ESC then m.(state := InOscAfterEsc)
      else m.(oscBuf := m.oscBuf + [b])
    case InOscAfterEsc =>
      if b == BACKSLASH then FlushOsc(m)
      else m.(state := InOsc, oscBuf := m.oscBuf + [ESC, b])
  }

  lemma OnByteTracks(m: Machine, f: Factoring, b: byte)
    requires Tracks(m, f)
    ensures Tracks(OnByte(m, b), Extend(f, b))
  {
    hide Collect, ParseOsc7;
    var g := Extend(f, b);
    if g.tokens != f.tokens {
      var t := g.tokens[|f.tokens|];
      CollectSnoc(f.tokens, t, NormalOf);
      CollectSnoc(f.tokens, t, ApcOf);
      CollectSnoc(f.tokens, t, PathOf);
    }
  }

  method SplitPassthrough(bytes: seq<byte>) returns (out: Parsed)
    ensures out == Parts(Factor(bytes))
  {
    var m := Machine(InNormal, [], [], Parsed([], [], []));
    ghost var f := START;
    assert bytes[0..] == bytes;
    for i := 0 to |bytes|
      invariant Tracks(m, f) && Fold(f, bytes[i..]) == Factor(bytes)
    {
      hide OnByte, Extend, Tracks;
      OnByteTracks(m, f, bytes[i]);
      assert bytes[i..][1..] == bytes[i + 1..];
      m, f := OnByte(m, bytes[i]), Extend(f, bytes[i]);
    }
    out := if m.state == AfterEsc then m.out.(normal := m.out.normal + [ESC]) else m.out;
  }

  // ---- factoring inverts printing ----

  lemma {:induction false} BodyAppend(kind: Kind, a: seq<byte>, b: seq<byte>)
    requires BodyOk(kind, a) && BodyOk(kind, b)
    ensures BodyOk(kind, a + b)
  {
    if a == [] {
      assert a + b == b;
    } else if a[0] == ESC {
      assert (a + b)[2..] == a[2..] + b;
      BodyAppend(kind, a[2..], b);
    } else {
      assert (a + b)[1..] == a[1..] + b;
      BodyAppend(kind, a[1..], b);
    }
  }

  lemma UnitOk(kind: Kind, esc: bool, b: byte)
    requires if esc then b != BACKSLASH else b != ESC && !Stops(kind, b)
    ensures BodyOk(kind, if esc then [ESC, b] else [b])
  {
    assert [ESC, b][2..] == [] && [b][1..] == [];
  }

  lemma ExtendOpen(f: Factoring, b: byte)
    requires WellFormed(f) && f.tail.Open? && Extend(f, b).tail.Open?
    ensures WellFormed(Extend(f, b)) && PrintTail(Extend(f, b).tail) == PrintTail(f.tail) + [b]
  {
    var t, u := f.tail, Extend(f, b).tail;
    if u.body != t.body {
      UnitOk(t.kind, t.esc, b);
      BodyAppend(t.kind, t.body, if t.esc then [ESC, b] else [b]);
    }
  }

  lemma ExtendClosed(f: Factoring, b: byte)
    requires WellFormed(f) && Extend(f, b).tokens != f.tokens
    ensures WellFormed(Extend(f, b)) && Print(Extend(f, b)) == Print(f) + [b]
  {
    hide Collect, BodyOk;
    var t := Extend(f, b).tokens[|f.tokens|];
    CollectSnoc(f.tokens, t, PrintToken);
    assert PrintToken(t) == PrintTail(f.tail) + [b];
    assert PrintTokens(f.tokens) + PrintToken(t) == Print(f) + [b];
  }

  lemma ExtendPrints(f: Factoring, b: byte)
    requires WellFormed(f)
    ensures WellFormed(Extend(f, b)) && Print(Extend(f, b)) == Print(f) + [b]
  {
    var g := Extend(f, b);
    if g.tokens != f.tokens {
      ExtendClosed(f, b);
    } else {
      if f.tail.Open? { ExtendOpen(f, b); }
      assert PrintTail(g.tail) == PrintTail(f.tail) + [b];
    }
  }

  lemma {:induction false} FoldPrints(f: Factoring, s: seq<byte>)
    requires WellFormed(f)
    ensures WellFormed(Fold(f, s)) && Print(Fold(f, s)) == Print(f) + s
    decreases |s|
  {
    hide Extend, WellFormed, Print;
    if s == [] {
    } else {
      ExtendPrints(f, s[0]);
      FoldPrints(Extend(f, s[0]), s[1..]);
      assert Print(f) + [s[0]] + s[1..] == Print(f) + s;
    }
  }

  lemma {:induction false} FoldAppend(f: Factoring, a: seq<byte>, b: seq<byte>)
    ensures Fold(f, a + b) == Fold(Fold(f, a), b)
    decreases |a|
  {
    hide Extend;
    if a == [] {
      assert a + b == b;
    } else {
      assert (a + b)[1..] == a[1..] + b;
      FoldAppend(Extend(f, a[0]), a[1..], b);
    }
  }

  lemma {:induction false} FoldBody(ts: seq<Token>, kind: Kind, acc: seq<byte>, body: seq<byte>)
    requires BodyOk(kind, body)
    ensures Fold(Factoring(ts, Open(kind, acc, false)), body) == Factoring(ts, Open(kind, acc + body, false))
    decreases |body|
  {
    if body == [] {
      assert acc + body == acc;
    } else if body[0] == ESC {
      assert body[1..][1..] == body[2..];
      assert acc + body == acc + [ESC, body[1]] + body[2..];
      FoldBody(ts, kind, acc + [ESC, body[1]], body[2..]);
    } else {
      assert acc + body == acc + [body[0]] + body[1..];
      FoldBody(ts, kind, acc + [body[0]], body[1..]);
    }
  }

  lemma FoldPair(f: Factoring, a: byte, b: byte)
    ensures Fold(f, [a]) == Extend(f, a) && Fold(f, [a, b]) == Extend(Extend(f, a), b)
  {
    hide Extend;
    assert [a, b][1..] == [b];
    assert Fold(Extend(f, a), [b]) == Extend(Extend(f, a), b);
  }

  lemma FoldOpen(ts: seq<Token>, kind: Kind, body: seq<byte>)
    requires BodyOk(kind, body)
    ensures Fold(Factoring(ts, Done), Opener(kind) + body) == Factoring(ts, Open(kind, body, false))
  {
    FoldAppend(Factoring(ts, Done), Opener(kind), body);
    FoldPair(Factoring(ts, Done), ESC, Opener(kind)[1]);
    FoldBody(ts, kind, [], body);
    assert [] + body == body;
  }

  lemma FoldToken(ts: seq<Token>, t: Token)
    requires TokenOk(t)
    ensures Fold(Factoring(ts, Done), PrintToken(t)) == Factoring(ts + [t], Done)
  {
    if t.Plain? {
      FoldPair(Factoring(ts, Done), t.b, ESC);
    } else if t.Escaped? {
      FoldPair(Factoring(ts, Done), ESC, t.b);
    } else {
      var inside := Factoring(ts, Open(t.kind, t.body, false));
      FoldOpen(ts, t.kind, t.body);
      FoldAppend(Factoring(ts, Done), Opener(t.kind) + t.body, PrintTerminator(t.end));
      FoldPair(inside, PrintTerminator(t.end)[0], BACKSLASH);
    }
  }

  lemma {:induction false} FoldTokens(ts: seq<Token>)
    requires WellFormed(Factoring(ts, Done))
    ensures Factor(PrintTokens(ts)) == Factoring(ts, Done)
  {
    if ts != [] {
      var init, t := ts[..|ts| - 1], ts[|ts| - 1];
      FoldTokens(init);
      FoldAppend(START, PrintTokens(init), PrintToken(t));
      FoldToken(init, t);
      assert init + [t] == ts;
    }
  }

  lemma FoldTail(ts: seq<Token>, tail: Tail)
    requires TailOk(tail)
    ensures Fold(Factoring(ts, Done), PrintTail(tail)) == Factoring(ts, tail)
  {
    if tail.LoneEsc? {
      FoldPair(Factoring(ts, Done), ESC, ESC);
    } else if tail.Open? {
      var open := Opener(tail.kind) + tail.body;
      FoldOpen(ts, tail.kind, tail.body);
      FoldAppend(Factoring(ts, Done), open, if tail.esc then [ESC] else []);
      FoldPair(Factoring(ts, Open(tail.kind, tail.body, false)), ESC, ESC);
    }
  }

  /** Every byte string is printed by exactly one well-formed factoring: the one the splitter computes. */
  lemma FactorsUniquely(s: seq<byte>, f: Factoring)
    ensures WellFormed(Factor(s)) && Print(Factor(s)) == s
    ensures WellFormed(f) && Print(f) == s ==> Factor(s) == f
  {
    assert Print(START) == [] && [] + s == s;
    FoldPrints(START, s);
    if WellFormed(f) {
      FoldTokens(f.tokens);
      FoldAppend(START, PrintTokens(f.tokens), PrintTail(f.tail));
      FoldTail(f.tokens, f.tail);
    }
  }

  /** Splitting inverts printing: any well-formed token list with any unfinished tail splits into its parts. */
  lemma SplitInvertsPrint(f: Factoring)
    requires WellFormed(f)
    ensures Parts(Factor(Print(f))) == Parts(f)
  {
    FactorsUniquely(Print(f), f);
  }

  // ---- the outputs are stable ----

  /** The tokens that survive in the emulator's stream. */
  function KeptOf(t: Token): seq<Token> { if t.Str? then [] else [t] }

  function Kept(ts: seq<Token>): seq<Token> { Collect(ts, KeptOf) }

  /** Selecting tokens first and then collecting from the selection. */
  lemma {:induction false} CollectTwice<T>(ts: seq<Token>, sel: Token -> seq<Token>, g: Token -> seq<T>, h: Token -> seq<T>)
    requires forall t :: Collect(sel(t), g) == h(t)
    ensures Collect(Collect(ts, sel), g) == Collect(ts, h)
  {
    if ts != [] {
      var init, t := ts[..|ts| - 1], ts[|ts| - 1];
      CollectTwice(init, sel, g, h);
      CollectAppend(Collect(init, sel), sel(t), g);
    }
  }

  function NothingOf<T>(t: Token): seq<T> { [] }

  lemma {:induction false} CollectNothing<T>(ts: seq<Token>)
    ensures Collect<T>(ts, NothingOf) == []
  {
    if ts != [] { CollectNothing<T>(ts[..|ts| - 1]); }
  }

  lemma {:induction false} SelectedOk(ts: seq<Token>, sel: Token -> seq<Token>)
    requires forall i :: 0 <= i < |ts| ==> TokenOk(ts[i])
    requires forall t, j :: TokenOk(t) && 0 <= j < |sel(t)| ==> TokenOk(sel(t)[j])
    ensures forall i :: 0 <= i < |Collect(ts, sel)| ==> TokenOk(Collect(ts, sel)[i])
  {
    if ts != [] { SelectedOk(ts[..|ts| - 1], sel); }
  }

  lemma KeptStreams(ts: seq<Token>)
    ensures PrintTokens(Kept(ts)) == Normal(ts) == Normal(Kept(ts))
    ensures Apcs(Kept(ts)) == [] && Paths(Kept(ts)) == []
  {
    CollectTwice(ts, KeptOf, PrintToken, NormalOf);
    CollectTwice(ts, KeptOf, NormalOf, NormalOf);
    CollectTwice(ts, KeptOf, ApcOf, NothingOf);
    CollectTwice(ts, KeptOf, PathOf, NothingOf);
    CollectNothing<seq<byte>>(ts);
    CollectNothing<string>(ts);
  }

  /** Splitting the emulator's bytes again changes nothing and extracts nothing. */
  lemma NormalIsStable(s: seq<byte>)
    ensures var normal := Parts(Factor(s)).normal; Parts(Factor(normal)) == Parsed(normal, [], [])
  {
    hide Factor, Collect;
    var f := Factor(s);
    FactorsUniquely(s, f);
    KeptStreams(f.tokens);
    SelectedOk(f.tokens, KeptOf);
    SplitInvertsPrint(Factoring(Kept(f.tokens), if f.tail.LoneEsc? then LoneEsc else Done));
  }

  /** The extracted commands, all with the two-byte terminator. */
  function RewrappedOf(t: Token): seq<Token> {
    if t.Str? && t.kind.Apc? then [Str(Apc, t.body, EscBackslash)] else []
  }

  function Rewrapped(ts: seq<Token>): seq<Token> { Collect(ts, RewrappedOf) }

  function ApcBytesOf(t: Token): seq<byte> { Flatten(ApcOf(t)) }

  lemma {:induction false} FlattenApcs(ts: seq<Token>)
    ensures Flatten(Apcs(ts)) == Collect(ts, ApcBytesOf)
  {
    if ts != [] {
      var init, t := ts[..|ts| - 1], ts[|ts| - 1];
      FlattenApcs(init);
      FlattenAppend(Apcs(init), ApcOf(t));
    }
  }

  lemma RewrappedStreams(ts: seq<Token>)
    ensures PrintTokens(Rewrapped(ts)) == Flatten(Apcs(ts)) && Apcs(Rewrapped(ts)) == Apcs(ts)
    ensures Normal(Rewrapped(ts)) == [] && Paths(Rewrapped(ts)) == []
  {
    FlattenApcs(ts);
    forall t ensures Collect(RewrappedOf(t), PrintToken) == ApcBytesOf(t) {
      if ApcOf(t) != [] { FlattenAppend([], ApcOf(t)); }
    }
    CollectTwice(ts, RewrappedOf, PrintToken, ApcBytesOf);
    CollectTwice(ts, RewrappedOf, ApcOf, ApcOf);
    CollectTwice(ts, RewrappedOf, NormalOf, NothingOf);
    CollectTwice(ts, RewrappedOf, PathOf, NothingOf);
    CollectNothing<byte>(ts);
    CollectNothing<string>(ts);
  }

  /** Splitting the concatenated graphics again returns the same list and leaves no bytes for the emulator. */
  lemma ApcsAreStable(s: seq<byte>)
    ensures var apcs := Parts(Factor(s)).apcSeqs; Parts(Factor(Flatten(apcs))) == Parsed([], apcs, [])
  {
    hide Factor, Collect;
    var f := Factor(s);
    FactorsUniquely(s, f);
    RewrappedStreams(f.tokens);
    SelectedOk(f.tokens, RewrappedOf);
    var g := Factoring(Rewrapped(f.tokens), Done);
    assert Print(g) == Flatten(Apcs(f.tokens));
    SplitInvertsPrint(g);
  }

  // ---- when the splitter is the identity ----

  lemma {:induction false} DroppedBytes(ts: seq<Token>)
    ensures |Normal(ts)| <= |PrintTokens(ts)|
    ensures |Normal(ts)| == |PrintTokens(ts)| <==> Kept(ts) == ts
    ensures |Kept(ts)| <= |ts|
    ensures Kept(ts) == ts ==> Normal(ts) == PrintTokens(ts)
  {
    if ts != [] {
      var init, t := ts[..|ts| - 1], ts[|ts| - 1];
      DroppedBytes(init);
      assert ts == init + [t];
      if Kept(ts) == ts {
        assert |Kept(ts)| == |ts|;
        assert Kept(ts)[..|ts| - 1] == init;
      }
    }
  }

  /** The emulator receives the chunk unchanged exactly when it holds no string, finished or not: every APC and
      every OSC, whatever its number, is removed. */
  lemma IdentityIffNoStrings(s: seq<byte>)
    ensures var f := Factor(s);
            Parts(f).normal == s <==> Kept(f.tokens) == f.tokens && (f.tail.Done? || f.tail.LoneEsc?)
  {
    var f := Factor(s);
    FactorsUniquely(s, f);
    DroppedBytes(f.tokens);
  }

  // ---- one chunk after another ----

  lemma {:induction false} FoldShift(pre: seq<Token>, f: Factoring, s: seq<byte>)
    ensures Fold(Factoring(pre + f.tokens, f.tail), s)
            == Factoring(pre + Fold(f, s).tokens, Fold(f, s).tail)
    decreases |s|
  {
    if s != [] {
      var g := Extend(f, s[0]);
      var h := Extend(Factoring(pre + f.tokens, f.tail), s[0]);
      if g.tokens != f.tokens {
        assert pre + g.tokens == (pre + f.tokens) + [g.tokens[|f.tokens|]];
      }
      assert h == Factoring(pre + g.tokens, g.tail);
      FoldShift(pre, g, s[1..]);
    }
  }

  /** A cut where the machine is in its normal state separates the three streams cleanly. */
  lemma CleanCut(a: seq<byte>, b: seq<byte>)
    requires Factor(a).tail.Done?
    ensures Factor(a + b) == Factoring(Factor(a).tokens + Factor(b).tokens, Factor(b).tail)
    ensures var p, q := Parts(Factor(a)), Parts(Factor(b));
            Parts(Factor(a + b)) == Parsed(p.normal + q.normal, p.apcSeqs + q.apcSeqs, p.osc7Paths + q.osc7Paths)
  {
    hide Factor, Collect;
    var ts, us := Factor(a).tokens, Factor(b).tokens;
    CleanCutFactors(a, b);
    CollectAppend(ts, us, NormalOf);
    CollectAppend(ts, us, ApcOf);
    CollectAppend(ts, us, PathOf);
  }

  lemma CleanCutFactors(a: seq<byte>, b: seq<byte>)
    requires Factor(a).tail.Done?
    ensures Factor(a + b) == Factoring(Factor(a).tokens + Factor(b).tokens, Factor(b).tail)
  {
    hide Extend;
    var f := Factor(a);
    FoldAppend(START, a, b);
    assert f.tokens + START.tokens == f.tokens;
    FoldShift(f.tokens, START, b);
  }
}
