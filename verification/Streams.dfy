/** What a terminal program writes, piece by piece, and what becomes of it: the wire format of src/passthrough.rs in its
    own bytes, without the machine that reads it. */
module Streams {
  import opened Basics
  import Utf8
  import Osc7
  import opened Passthrough
  import opened PtyReader

  /** A run of bytes without ESC, a two-byte escape, a graphics command or an operating system command, the last two
      with the bytes that end them. */
  datatype Piece =
    | Text(bytes: seq<byte>)
    | Escape(b: byte)
    | Graphics(body: seq<byte>, end: seq<byte>)
    | Command(body: seq<byte>, end: seq<byte>)

  const BELL_END: seq<byte> := [0x07]
  const C1_END: seq<byte> := [0x9C]
  const ESC_END: seq<byte> := [0x1B, 0x5C]

  /** Which pieces there are: a body may hold an ESC followed by anything but a backslash. */
  predicate Legal(p: Piece) {
    match p
    case Text(bytes) => 0x1B !in bytes
    case Escape(b) => b != 0x5F && b != 0x5D
    case Graphics(body, end) => Uncut(body, {0x9C}) && end in {C1_END, ESC_END}
    case Command(body, end) => Uncut(body, {0x07, 0x9C}) && end in {BELL_END, C1_END, ESC_END}
  }

  predicate Uncut(body: seq<byte>, ends: set<byte>) {
    if body == [] then true
    else if body[0] == 0x1B then |body| > 1 && body[1] != 0x5C && Uncut(body[2..], ends)
    else body[0] !in ends && Uncut(body[1..], ends)
  }

  function Wire(p: Piece): seq<byte> {
    match p
    case Text(bytes) => bytes
    case Escape(b) => [0x1B, b]
    case Graphics(body, end) => [0x1B, 0x5F] + body + end
    case Command(body, end) => [0x1B, 0x5D] + body + end
  }

  function WireAll(ps: seq<Piece>): seq<byte> { if ps == [] then [] else WireAll(ps[..|ps| - 1]) + Wire(ps[|ps| - 1]) }

  /** The emulator gets text and escapes; a graphics command goes out with the two-byte end, whichever it came with; a
      command is swallowed, and reports a directory if it is a report. */
  function Becomes(p: Piece): Parsed {
    match p
    case Text(bytes) => Parsed(bytes, [], [])
    case Escape(b) => Parsed([0x1B, b], [], [])
    case Graphics(body, _) => Parsed([], [[0x1B, 0x5F] + body + [0x1B, 0x5C]], [])
    case Command(body, _) =>
      Parsed([], [], if Osc7.ParseOsc7(body).Some? then [Osc7.ParseOsc7(body).value] else [])
  }

  function Meant(ps: seq<Piece>): Parsed {
    if ps == [] then Parsed([], [], [])
    else
      var m, p := Meant(ps[..|ps| - 1]), Becomes(ps[|ps| - 1]);
      Parsed(m.normal + p.normal, m.apcSeqs + p.apcSeqs, m.osc7Paths + p.osc7Paths)
  }

  lemma {:induction false} UncutIsBodyOk(kind: Kind, body: seq<byte>)
    ensures BodyOk(kind, body) <==> Uncut(body, if kind.Apc? then {0x9C} else {0x07, 0x9C})
    decreases |body|
  {
    if body != [] {
      UncutIsBodyOk(kind, body[1..]);
      if |body| > 1 { UncutIsBodyOk(kind, body[2..]); }
    }
  }

  /** The token of a piece that is no text. */
  function TokenOf(p: Piece): Token
    requires !p.Text?
  {
    match p
    case Escape(b) => Escaped(b)
    case Graphics(body, end) => Str(Apc, body, if end == C1_END then C1 else EscBackslash)
    case Command(body, end) => Str(Osc, body, if end == BELL_END then Bell else if end == C1_END then C1 else EscBackslash)
  }

  lemma TokenIsWire(p: Piece)
    requires Legal(p) && !p.Text?
    ensures TokenOk(TokenOf(p)) && PrintToken(TokenOf(p)) == Wire(p)
  {
    if !p.Escape? { UncutIsBodyOk(if p.Graphics? then Apc else Osc, p.body); }
  }

  lemma OneByte(b: byte)
    requires b != 0x1B
    ensures Factor([b]) == Factoring([Plain(b)], Done)
  {
    FoldPair(START, b, b);
  }

  lemma OneTokenStreams(t: Token)
    ensures Parts(Factoring([t], Done)) == Parsed(NormalOf(t), ApcOf(t), PathOf(t))
  {
    hide Osc7.ParseOsc7, Collect;
    assert [] + [t] == [t];
    CollectSnoc([], t, NormalOf);
    CollectSnoc([], t, ApcOf);
    CollectSnoc([], t, PathOf);
    NothingCollected();
  }

  lemma NothingCollected()
    ensures Normal([]) == [] && Apcs([]) == [] && Paths([]) == []
  {
  }

  lemma {:induction false} TextStays(bytes: seq<byte>)
    requires 0x1B !in bytes
    ensures Factor(bytes).tail.Done? && Parts(Factor(bytes)) == Parsed(bytes, [], [])
  {
    if bytes != [] {
      var init, b := bytes[..|bytes| - 1], bytes[|bytes| - 1];
      assert bytes == init + [b];
      TextStays(init);
      CleanCut(init, [b]);
      OneByte(b);
      OneTokenStreams(Plain(b));
    }
  }

  /** What one piece becomes, on its own. */
  lemma OnePiece(p: Piece)
    requires Legal(p)
    ensures Factor(Wire(p)).tail.Done? && Parts(Factor(Wire(p))) == Becomes(p)
  {
    if p.Text? {
      TextStays(p.bytes);
    } else {
      var t := TokenOf(p);
      TokenIsWire(p);
      FoldToken([], t);
      assert [] + [t] == [t];
      OneTokenStreams(t);
    }
  }

  /** Whatever a program writes, the three streams are what it meant. */
  lemma {:induction false} StreamsAreAsMeant(ps: seq<Piece>)
    requires forall i :: 0 <= i < |ps| ==> Legal(ps[i])
    ensures Factor(WireAll(ps)).tail.Done? && Parts(Factor(WireAll(ps))) == Meant(ps)
  {
    if ps != [] {
      var init, p := ps[..|ps| - 1], ps[|ps| - 1];
      assert ps == init + [p];
      StreamsAreAsMeant(init);
      OnePiece(p);
      CleanCut(WireAll(init), Wire(p));
    }
  }

  /** What a read may end in: a whole piece, an ESC, or a command that has not ended. */
  datatype Ending = Whole | LoneEscape | Unended(graphics: bool, body: seq<byte>, escape: bool)

  predicate LegalEnding(e: Ending) {
    e.Unended? ==> Uncut(e.body, if e.graphics then {0x9C} else {0x07, 0x9C})
  }

  function WireEnding(e: Ending): seq<byte> {
    match e
    case Whole => []
    case LoneEscape => [0x1B]
    case Unended(graphics, body, escape) =>
      [0x1B, if graphics then 0x5F else 0x5D] + body + if escape then [0x1B] else []
  }

  lemma NothingAdded(p: Parsed)
    ensures p.normal + [] == p.normal && p.apcSeqs + [] == p.apcSeqs && p.osc7Paths + [] == p.osc7Paths
  {
  }

  lemma EndingStreams(e: Ending)
    requires LegalEnding(e)
    ensures Parts(Factor(WireEnding(e))) == Parsed(if e.LoneEscape? then [0x1B] else [], [], [])
  {
    var kind := if e.Unended? && e.graphics then Apc else Osc;
    var t := match e case Whole => Done case LoneEscape => LoneEsc case Unended(_, body, escape) => Open(kind, body, escape);
    if e.Unended? { UncutIsBodyOk(kind, e.body); }
    FoldTail([], t);
    NothingCollected();
  }

  /** A lone ESC still goes to the emulator at the end of the read; a command that has not ended leaves nothing. */
  lemma UnendedIsDropped(ps: seq<Piece>, e: Ending)
    requires (forall i :: 0 <= i < |ps| ==> Legal(ps[i])) && LegalEnding(e)
    ensures var m := Meant(ps);
            Parts(Factor(WireAll(ps) + WireEnding(e))) == if e.LoneEscape? then m.(normal := m.normal + [0x1B]) else m
  {
    StreamsAreAsMeant(ps);
    EndingStreams(e);
    hide Legal, LegalEnding, Factor, Parts, Meant, WireAll, WireEnding;
    CleanCut(WireAll(ps), WireEnding(e));
    NothingAdded(Meant(ps));
  }

  // ---- every output is made of such pieces ----

  function PieceOf(t: Token): Piece {
    match t
    case Plain(b) => Text([b])
    case Escaped(b) => Escape(b)
    case Str(Apc, body, end) => Graphics(body, PrintTerminator(end))
    case Str(Osc, body, end) => Command(body, PrintTerminator(end))
  }

  function PiecesOf(ts: seq<Token>): seq<Piece> { seq(|ts|, i requires 0 <= i < |ts| => PieceOf(ts[i])) }

  lemma PieceIsWire(t: Token)
    requires TokenOk(t)
    ensures Legal(PieceOf(t)) && Wire(PieceOf(t)) == PrintToken(t)
  {
    if t.Str? { UncutIsBodyOk(t.kind, t.body); }
  }

  lemma {:induction false} PiecesAreWire(ts: seq<Token>)
    requires forall i :: 0 <= i < |ts| ==> TokenOk(ts[i])
    ensures WireAll(PiecesOf(ts)) == PrintTokens(ts)
  {
    hide TokenOk, PieceOf, Wire, PrintToken;
    if ts != [] {
      var init, t := ts[..|ts| - 1], ts[|ts| - 1];
      assert PiecesOf(ts)[..|ts| - 1] == PiecesOf(init);
      PiecesAreWire(init);
      PieceIsWire(t);
    }
  }

  /** Any bytes at all are such pieces and an ending. */
  lemma EveryOutputIsPieces(s: seq<byte>)
    ensures exists ps: seq<Piece>, e: Ending ::
              (forall i :: 0 <= i < |ps| ==> Legal(ps[i])) && LegalEnding(e) && s == WireAll(ps) + WireEnding(e)
  {
    var f := Factor(s);
    FactorsUniquely(s, f);
    PiecesAreWire(f.tokens);
    var ps := PiecesOf(f.tokens);
    forall i | 0 <= i < |ps| ensures Legal(ps[i]) { PieceIsWire(f.tokens[i]); }
    var e := EndingOf(f.tail);
    EndingIsWire(f.tail);
    assert s == WireAll(ps) + WireEnding(e);
  }

  function EndingOf(t: Tail): Ending {
    match t
    case Done => Whole
    case LoneEsc => LoneEscape
    case Open(kind, body, esc) => Unended(kind.Apc?, body, esc)
  }

  lemma EndingIsWire(t: Tail)
    requires TailOk(t)
    ensures LegalEnding(EndingOf(t)) && WireEnding(EndingOf(t)) == PrintTail(t)
  {
    if t.Open? { UncutIsBodyOk(t.kind, t.body); }
  }

  // ---- a report of the working directory, from its bytes to the directory ----

  /** A shell that reports its directory, any bytes of it percent-encoded, sets exactly that directory, however the
      command ends, and shows nothing. */
  lemma ReportSetsDirectory(r: ReaderState, host: seq<byte>, text: seq<byte>, path: seq<byte>, end: seq<byte>)
    requires Osc7.Escapes(text, path) && path != [] && path[0] as char == '/' && forall b :: b in host ==> b as char != '/'
    requires var body := Utf8.Encode("7;file://") + host + path; Legal(Command(body, end)) && Utf8.Decode(body).Some?
    ensures var body := Utf8.Encode("7;file://") + host + path;
            Feed(r, Utf8.Encode("\U{1b}]") + body + end) == r.(cwd := Some(Osc7.Latin1(text)))
  {
    var body := Utf8.Encode("7;file://") + host + path;
    Spelled();
    assert Osc7.ReportsPath(body, host, path);
    Osc7.ReadsReport(body, host, path);
    Osc7.DecodesEveryEncoding(text, path);
    OnePiece(Command(body, end));
    assert Utf8.Encode("\U{1b}]") + body + end == Wire(Command(body, end));
  }

  lemma Spelled()
    ensures Utf8.Encode("7;file://") == Osc7.REPORT + Osc7.FILE_SCHEME && Utf8.Encode("\U{1b}]") == [0x1B, 0x5D]
  {
    Utf8.AsciiEncode("7;file://");
    Utf8.AsciiEncode("\U{1b}]");
  }
}
