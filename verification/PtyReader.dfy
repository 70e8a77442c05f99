/** The PTY reader thread of src/providers/pty_provider.rs: each `read` is split on its own, and its three parts
    go to the emulator, the pending graphics and the working directory. */
module PtyReader {
  import opened Basics
  import opened Passthrough

  datatype ReaderState = ReaderState(emulator: seq<byte>, graphics: seq<seq<byte>>, cwd: Option<string>)

  function Feed(r: ReaderState, chunk: seq<byte>): ReaderState {
    var p := Parts(Factor(chunk));
    ReaderState(r.emulator + p.normal, r.graphics + p.apcSeqs,
                if p.osc7Paths == [] then r.cwd else Some(p.osc7Paths[|p.osc7Paths| - 1]))
  }

  function FeedAll(r: ReaderState, chunks: seq<seq<byte>>): ReaderState {
    if chunks == [] then r else Feed(FeedAll(r, chunks[..|chunks| - 1]), chunks[|chunks| - 1])
  }

  /** The fields of `PtyProvider` that its reader thread shares with the daemon's connections. */
  class PtyOutput {
    var emulatorBytes: seq<byte>
    var pendingGraphics: seq<seq<byte>>
    var currentCwd: Option<string>

    function View(): ReaderState
      reads this
    {
      ReaderState(emulatorBytes, pendingGraphics, currentCwd)
    }

    constructor ()
      ensures View() == ReaderState([], [], None)
    {
      emulatorBytes, pendingGraphics, currentCwd := [], [], None;
    }

    method OnRead(chunk: seq<byte>)
      modifies this
      ensures View() == Feed(old(View()), chunk)
    {
      var parsed := SplitPassthrough(chunk);
      if parsed.normal != [] {
        emulatorBytes := emulatorBytes + parsed.normal;
      }
      if parsed.apcSeqs != [] {
        pendingGraphics := pendingGraphics + parsed.apcSeqs;
      }
      if parsed.osc7Paths != [] {
        currentCwd := Some(parsed.osc7Paths[|parsed.osc7Paths| - 1]);
      }
    }

    method ReaderLoop(chunks: seq<seq<byte>>)
      modifies this
      ensures View() == FeedAll(old(View()), chunks)
    {
      for i := 0 to |chunks|
        invariant View() == FeedAll(old(View()), chunks[..i])
      {
        OnRead(chunks[i]);
        assert chunks[..i + 1][..i] == chunks[..i];
      }
      assert chunks[..|chunks|] == chunks;
    }

    method TakePendingGraphics() returns (taken: seq<seq<byte>>)
      modifies this`pendingGraphics
      ensures taken == old(pendingGraphics) && pendingGraphics == []
    {
      taken := pendingGraphics;
      pendingGraphics := [];
    }
  }

  /** Every chunk boundary falls where the machine, run over all the output so far, is in its normal state. */
  ghost predicate CutsAreClean(chunks: seq<seq<byte>>) {
    forall i :: 0 < i < |chunks| ==> Factor(Flatten(chunks[..i])).tail.Done?
  }

  lemma FeedNothing(r: ReaderState)
    ensures Factor([]) == START && Feed(r, []) == r
  {
  }

  /** Then the split into chunks cannot be observed: the emulator's bytes, the graphics and the final working
      directory are those of one read of the whole output. */
  lemma {:induction false} ChunkingIndependent(r: ReaderState, chunks: seq<seq<byte>>)
    requires CutsAreClean(chunks)
    ensures FeedAll(r, chunks) == Feed(r, Flatten(chunks))
  {
    hide Factor, Parts;
    FeedNothing(r);
    if chunks != [] {
      var n := |chunks| - 1;
      var init, c := chunks[..n], chunks[n];
      assert CutsAreClean(init) by {
        forall i | 0 < i < n ensures Factor(Flatten(init[..i])).tail.Done? {
          assert init[..i] == chunks[..i];
        }
      }
      ChunkingIndependent(r, init);
      if n > 0 { assert chunks[..n] == init; }
      CleanCut(Flatten(init), c);
    }
  }

  /** The condition is exact, cut by cut: two reads do what one read of both does, whatever was read before and
      whatever comes after the cut, exactly when the cut falls in the normal state.  A cut after a lone ESC or
      inside an APC or OSC, even inside its terminator, can be told. */
  lemma CutIsUnseenIff(a: seq<byte>)
    ensures (forall r, b :: Feed(Feed(r, a), b) == Feed(r, a + b)) <==> Factor(a).tail.Done?
  {
    if Factor(a).tail.Done? {
      forall r, b ensures Feed(Feed(r, a), b) == Feed(r, a + b) {
        hide Factor, Parts;
        CleanCut(a, b);
      }
    } else {
      var r, b := ReaderState([], [], None), [TellingByte(Factor(a).tail)];
      TellingByteShows(a);
      assert Feed(Feed(r, a), b).emulator != Feed(r, a + b).emulator;
    }
  }

  /** However the output goes on after the first `k` reads, those reads and the rest amount to one read. */
  ghost predicate UnseenAfter(chunks: seq<seq<byte>>, k: nat)
    requires k <= |chunks|
  {
    forall r, b :: FeedAll(r, chunks[..k] + [b]) == Feed(r, Flatten(chunks[..k]) + b)
  }

  /** For a whole sequence of reads: none of its cuts can be told exactly when all of them are clean. */
  lemma {:induction false} CutsAreUnseenIff(chunks: seq<seq<byte>>, n: nat)
    requires n <= |chunks|
    ensures (forall k: nat :: k <= n ==> UnseenAfter(chunks, k))
            <==> (forall k: nat :: k <= n ==> Factor(Flatten(chunks[..k])).tail.Done?)
  {
    hide Factor, Feed, FeedAll, Flatten, UnseenAfter;
    if n == 0 {
      NothingReadIsUnseen(chunks);
    } else {
      CutsAreUnseenIff(chunks, n - 1);
      if forall k: nat :: k <= n - 1 ==> Factor(Flatten(chunks[..k])).tail.Done? {
        OneMoreCut(chunks, n);
      }
    }
  }

  lemma NothingReadIsUnseen(chunks: seq<seq<byte>>)
    ensures UnseenAfter(chunks, 0) && Factor(Flatten(chunks[..0])).tail.Done?
  {
    assert chunks[..0] == [];
    forall r, b: seq<byte> ensures FeedAll(r, [] + [b]) == Feed(r, [] + b) {
      assert [b][..0] == [] && [] + b == b;
    }
  }

  lemma OneMoreCut(chunks: seq<seq<byte>>, n: nat)
    requires 0 < n <= |chunks| && forall k: nat :: k < n ==> Factor(Flatten(chunks[..k])).tail.Done?
    ensures UnseenAfter(chunks, n) <==> Factor(Flatten(chunks[..n])).tail.Done?
  {
    hide Factor, Parts, Feed, Flatten;
    var init, a := chunks[..n], Flatten(chunks[..n]);
    forall i | 0 < i < n ensures Factor(Flatten(init[..i])).tail.Done? {
      assert init[..i] == chunks[..i];
    }
    forall r, b: seq<byte> ensures FeedAll(r, init + [b]) == Feed(Feed(r, a), b) {
      ChunkingIndependent(r, init);
      assert (init + [b])[..n] == init;
    }
    CutIsUnseenIff(a);
    if UnseenAfter(chunks, n) {
      forall r, b: seq<byte> ensures Feed(Feed(r, a), b) == Feed(r, a + b) {
        assert FeedAll(r, init + [b]) == Feed(r, a + b);
      }
    }
    if Factor(a).tail.Done? {
      forall r, b: seq<byte> ensures FeedAll(r, init + [b]) == Feed(r, a + b) {
        assert Feed(Feed(r, a), b) == Feed(r, a + b);
      }
    }
  }

  /** A byte that one read takes as part of the sequence cut, and a second read takes as text. */
  function TellingByte(t: Tail): byte
    requires !t.Done?
  {
    if t.LoneEsc? then UNDERSCORE else if t.esc then BACKSLASH else ST
  }

  lemma TellingByteShows(a: seq<byte>)
    requires !Factor(a).tail.Done?
    ensures var b := TellingByte(Factor(a).tail);
            && Parts(Factor([b])).normal == [b]
            && Parts(Factor(a + [b])).normal == Normal(Factor(a).tokens) <= Parts(Factor(a)).normal
  {
    var f := Factor(a);
    var b := TellingByte(f.tail);
    FoldPair(START, b, b);
    assert START.tokens + [Plain(b)] == [Plain(b)];
    assert Factor([b]) == Factoring([Plain(b)], Done);
    CollectSnoc([], Plain(b), NormalOf);
    FoldAppend(START, a, [b]);
    assert Factor(a + [b]) == Extend(f, b);
    if f.tail.Open? {
      var t := Extend(f, b).tokens[|f.tokens|];
      CollectSnoc(f.tokens, t, NormalOf);
    }
  }

  /** What a cut costs when it falls in the body of an APC: the opening half is dropped, and the rest is read on
      its own, so that the command is not among the graphics; a rest without an ESC all reaches the emulator. */
  lemma CutInsideApc(r: ReaderState, x: seq<byte>, y: seq<byte>)
    requires BodyOk(Apc, x) && BodyOk(Apc, y)
    ensures var a, b := Opener(Apc) + x, y + [ESC, BACKSLASH];
            && Feed(r, a + b) == r.(graphics := r.graphics + [Opener(Apc) + x + y + [ESC, BACKSLASH]])
            && FeedAll(r, [a, b]) == Feed(r, b) != Feed(r, a + b)
            && (ESC !in y ==> Feed(r, b) == r.(emulator := r.emulator + b))
  {
    hide Factor, Parts, Feed, FeedAll, BodyOk;
    ApcInOneRead(r, x, y);
    ApcInTwoReads(r, x, y);
    var b := y + [ESC, BACKSLASH];
    var whole := Opener(Apc) + x + b;
    assert whole == Opener(Apc) + x + y + [ESC, BACKSLASH];
    ApcsFit(b, whole);
    NotExtracted(r, b, whole);
  }

  lemma ApcInOneRead(r: ReaderState, x: seq<byte>, y: seq<byte>)
    requires BodyOk(Apc, x) && BodyOk(Apc, y)
    ensures var a, b := Opener(Apc) + x, y + [ESC, BACKSLASH];
            Feed(r, a + b) == r.(graphics := r.graphics + [Opener(Apc) + x + y + [ESC, BACKSLASH]])
  {
    hide Factor, Parts, BodyOk;
    var a, b := Opener(Apc) + x, y + [ESC, BACKSLASH];
    assert a + b == Opener(Apc) + (x + y) + [ESC, BACKSLASH] == Opener(Apc) + x + y + [ESC, BACKSLASH];
    BodyAppend(Apc, x, y);
    WholeApc(x + y);
    assert r.emulator + [] == r.emulator;
  }

  lemma ApcInTwoReads(r: ReaderState, x: seq<byte>, y: seq<byte>)
    requires BodyOk(Apc, x)
    ensures var a, b := Opener(Apc) + x, y + [ESC, BACKSLASH];
            && FeedAll(r, [a, b]) == Feed(r, b)
            && (ESC !in y ==> Feed(r, b) == r.(emulator := r.emulator + b))
  {
    hide Factor, Parts, FeedAll, BodyOk;
    var a, b := Opener(Apc) + x, y + [ESC, BACKSLASH];
    OpenApc(x);
    assert r.emulator + [] == r.emulator && r.graphics + [] == r.graphics;
    assert Feed(r, a) == r;
    FeedTwo(r, a, b);
    if ESC !in y { TextThenBackslash(y); }
  }

  lemma NotExtracted(r: ReaderState, b: seq<byte>, apc: seq<byte>)
    requires apc !in Parts(Factor(b)).apcSeqs
    ensures Feed(r, b).graphics != r.graphics + [apc]
  {
    hide Factor, Parts;
    var apcs := Parts(Factor(b)).apcSeqs;
    if apcs != [] {
      assert Feed(r, b).graphics[|r.graphics|] == apcs[0];
    }
  }

  /** A command extracted from a chunk is at most one byte longer than the chunk: its terminator may have been the
      one-byte form. */
  lemma ApcsFit(s: seq<byte>, apc: seq<byte>)
    requires |apc| > |s| + 1
    ensures apc !in Parts(Factor(s)).apcSeqs
  {
    hide Factor;
    FactorsUniquely(s, START);
    ApcIsPrinted(Factor(s).tokens, apc);
  }

  lemma {:induction false} ApcIsPrinted(ts: seq<Token>, apc: seq<byte>)
    requires |apc| > |PrintTokens(ts)| + 1
    ensures apc !in Apcs(ts)
  {
    if ts != [] { ApcIsPrinted(ts[..|ts| - 1], apc); }
  }

  lemma FeedTwo(r: ReaderState, a: seq<byte>, b: seq<byte>)
    ensures FeedAll(r, [a, b]) == Feed(Feed(r, a), b)
  {
    hide Feed;
    assert FeedAll(r, [a]) == Feed(r, a);
    assert [a, b][..1] == [a];
  }

  lemma WholeApc(body: seq<byte>)
    requires BodyOk(Apc, body)
    ensures var s := Opener(Apc) + body + [ESC, BACKSLASH]; Parts(Factor(s)) == Parsed([], [s], [])
  {
    hide Factor, BodyOk, Collect;
    assert Collect([], PrintToken) == [] by { NothingCollected(PrintToken); }
    assert Collect([], NormalOf) == [] by { NothingCollected(NormalOf); }
    assert Collect([], ApcOf) == [] by { NothingCollected(ApcOf); }
    assert Collect([], PathOf) == [] by { NothingCollected(PathOf); }
    var t := Str(Apc, body, EscBackslash);
    CollectSnoc([], t, PrintToken);
    CollectSnoc([], t, ApcOf);
    CollectSnoc([], t, NormalOf);
    CollectSnoc([], t, PathOf);
    var f := Factoring([] + [t], Done);
    assert Print(f) == Opener(Apc) + body + [ESC, BACKSLASH];
    SplitInvertsPrint(f);
  }

  lemma NothingCollected<T>(f: Token -> seq<T>)
    ensures Collect([], f) == []
  {
  }

  lemma OpenApc(body: seq<byte>)
    requires BodyOk(Apc, body)
    ensures Parts(Factor(Opener(Apc) + body)) == Parsed([], [], [])
  {
    var f := Factoring([], Open(Apc, body, false));
    assert Print(f) == Opener(Apc) + body;
    SplitInvertsPrint(f);
  }

  lemma TextThenBackslash(y: seq<byte>)
    requires ESC !in y
    ensures var s := y + [ESC, BACKSLASH]; Parts(Factor(s)) == Parsed(s, [], [])
  {
    hide Factor, Collect;
    var text, last := PlainTokens(y), Escaped(BACKSLASH);
    PlainTokensPrint(y);
    CollectSnoc(text, last, PrintToken);
    CollectSnoc(text, last, NormalOf);
    CollectSnoc(text, last, ApcOf);
    CollectSnoc(text, last, PathOf);
    var f := Factoring(text + [last], Done);
    assert Print(f) == y + [ESC, BACKSLASH];
    SplitInvertsPrint(f);
  }

  function PlainTokens(y: seq<byte>): seq<Token> {
    seq(|y|, i requires 0 <= i < |y| => Plain(y[i]))
  }

  lemma {:induction false} PlainTokensPrint(y: seq<byte>)
    requires ESC !in y
    ensures PrintTokens(PlainTokens(y)) == y == Normal(PlainTokens(y))
    ensures Apcs(PlainTokens(y)) == [] && Paths(PlainTokens(y)) == []
    ensures forall i :: 0 <= i < |y| ==> TokenOk(PlainTokens(y)[i])
  {
    if y != [] {
      var n := |y| - 1;
      PlainTokensPrint(y[..n]);
      assert PlainTokens(y)[..n] == PlainTokens(y[..n]);
    }
  }
}
