/** The push pipeline of one subscription: the daemon's push loop (src/daemon/service.rs), the socket as a FIFO
    channel, the client's worker (src/providers/daemon_provider/worker.rs) and the graphics queues at both ends. */
module PushChannel {
  import opened Basics
  import opened Screens
  import opened ScreenDiff
  import opened PtyReader
  import opened ClientScreen

  // ---- the daemon's side ----

  datatype Push = Push(rows: nat, cols: nat, lastSent: Option<ScreenContent>)

  predicate MetaChanged(content: ScreenContent, prev: ScreenContent) {
    || content.cursor != prev.cursor
    || content.cursorShape != prev.cursorShape
    || content.title != prev.title
    || content.bell
    || content.focusEvents != prev.focusEvents
  }

  /** What one pass of the push loop does with the sampled screen. */
  datatype Pass = Pass(push: Push, frames: seq<ServerMsg>)

  function SamplePass(p: Push, content: ScreenContent): Pass {
    if p.lastSent.Some? && p.lastSent.value.lines == content.lines && !MetaChanged(content, p.lastSent.value) then
      Pass(p, [])
    else
      Pass(p.(lastSent := Some(content)), [Screen(content)])
  }

  /** Once that frame has been written, the graphics that wait in the provider follow it. */
  function GraphicsFrames(at: (nat, nat), queue: seq<Apc>): seq<ServerMsg> {
    if queue == [] then [] else [Graphics(at, queue)]
  }

  /** A connection in push mode. */
  class PushSession {
    var subRows: nat
    var subCols: nat
    var lastSentScreen: Option<ScreenContent>

    function View(): Push
      reads this
    {
      Push(subRows, subCols, lastSentScreen)
    }

    /** Subscribing sends a first full frame at once. */
    constructor (rows: nat, cols: nat, content: ScreenContent)
      ensures View() == Push(rows, cols, Some(content))
    {
      subRows, subCols := rows, cols;
      lastSentScreen := Some(content);
    }

    method OnResize(rows: nat, cols: nat)
      modifies this
      ensures View() == Push(rows, cols, None)
    {
      subRows, subCols := rows, cols;
      lastSentScreen := None;
    }

    method Sample(content: ScreenContent) returns (frames: seq<ServerMsg>)
      modifies this
      ensures Pass(View(), frames) == SamplePass(old(View()), content)
    {
      if lastSentScreen.Some? {
        var prev := lastSentScreen.value;
        var changed := ComputeChanged(prev.lines, content.lines, subCols);
        NoChangesIffEqual(prev.lines, content.lines, BlankLine(subCols));
        if changed == [] && !MetaChanged(content, prev) {
          return [];
        }
      }
      lastSentScreen := Some(content);
      frames := [Screen(content)];
    }

    method SendGraphics(at: (nat, nat), pty: PtyOutput) returns (frames: seq<ServerMsg>)
      modifies pty`pendingGraphics
      ensures frames == GraphicsFrames(at, old(pty.pendingGraphics)) && pty.pendingGraphics == []
    {
      frames := [];
      var graphics := pty.TakePendingGraphics();
      if graphics != [] {
        frames := [Graphics(at, graphics)];
      }
    }
  }

  // ---- the whole pipeline ----

  /** The first block is the implementation's state, with the cursor of a frame written whose graphics the push loop
      has not taken yet, and the sizes on their way to the daemon; the second records what has happened: the APCs
      intercepted and emitted so far, the screen last sampled, the last full frame put on the channel, the last one that
      the worker took off it, whether the cache has been left to the worker since then, and whether the worker has told
      the daemon no other size since then. */
  datatype Pipeline = Pipeline(
    push: Push, owing: Option<(nat, nat)>, daemonQueue: seq<Apc>, channel: seq<ServerMsg>, upstream: seq<Size>,
    client: Client,
    intercepted: seq<Apc>, emitted: seq<Apc>,
    sampled: ScreenContent, lastFrame: ScreenContent, received: Option<ScreenContent>, untouched: bool,
    settled: bool)

  datatype Event =
    | PtyOutputs(apcs: seq<Apc>)                    // the reader thread intercepts graphics
    | Sample(content: ScreenContent)                // the push loop samples the screen and writes the frame
    | SendGraphics                                  // and then takes the graphics
    | TakeResize                                    // or reads the next size that the worker has sent
    | Deliver                                       // the worker reads the next frame, if there is one
    | SendSize                                      // and tells the daemon a new size
    | Emit                                          // the UI emits its pending graphics after a draw
    | GetScreen(size: Size, answer: Answer)         // the UI draws
    | Resize(size: Size)
    | Spawn(size: Size)
    | Scroll(fetched: Option<ScreenContent>)

  /** The state just after a subscription at a size: the first frame is on its way. */
  function Subscribed(size: Size, content: ScreenContent, queue: seq<Apc>, client: Client): Pipeline {
    Pipeline(Push(size.0, size.1, Some(content)), None, queue, [Screen(content)], [],
             client.(queue := [], size := size), queue, [], content, content, None, true, false)
  }

  /** The UI itself drops the cached screen or puts another one in its place. */
  predicate Touches(c: Client, e: Event) {
    match e
    case GetScreen(size, a) =>
      && Lookup(c, size.0, size.1).None?
      && ((a.Fetched? && |a.content.lines| == size.0) || (a.NoSuchTab? && a.retried.Some?))
    case Resize(size) => c.current != size
    case Spawn(_) => true
    case Scroll(fetched) => fetched.Some?
    case _ => false
  }

  function ByUi(s: Pipeline, c: Client, e: Event): Pipeline {
    s.(client := c, untouched := s.untouched && !Touches(s.client, e))
  }

  /** The push loop samples and reads messages only when it is done with the last frame. */
  function Step(s: Pipeline, e: Event): Pipeline {
    match e
    case PtyOutputs(apcs) => s.(daemonQueue := s.daemonQueue + apcs, intercepted := s.intercepted + apcs)
    case Sample(content) =>
      if s.owing.Some? then s
      else
        var pass := SamplePass(s.push, content);
        s.(push := pass.push, channel := s.channel + pass.frames, sampled := content,
           owing := if pass.frames == [] then None else Some(content.cursor),
           lastFrame := if pass.frames == [] then s.lastFrame else content)
    case SendGraphics =>
      if s.owing.None? then s
      else s.(channel := s.channel + GraphicsFrames(s.owing.value, s.daemonQueue), daemonQueue := [], owing := None)
    case TakeResize =>
      if s.owing.Some? || s.upstream == [] then s
      else s.(push := Push(s.upstream[0].0, s.upstream[0].1, None), upstream := s.upstream[1..])
    case Deliver =>
      if s.channel == [] then s
      else
        var m := s.channel[0];
        s.(channel := s.channel[1..], client := Receive(s.client, m),
           received := if m.Screen? then Some(m.content) else s.received, untouched := m.Screen? || s.untouched,
           settled := m.Screen? || s.settled)
    case SendSize =>
      if !MustSend(s.client) then s
      else s.(upstream := s.upstream + [s.client.requested], client := s.client.(size := s.client.requested),
                settled := false)
    case Emit => s.(emitted := s.emitted + s.client.queue, client := s.client.(queue := []))
    case GetScreen(size, answer) => ByUi(s, AfterGet(s.client, size, answer), e)
    case Resize(size) => ByUi(s, Resized(s.client, size), e)
    case Spawn(size) => ByUi(s, Respawned(s.client, size), e)
    case Scroll(fetched) => ByUi(s, ScrolledTo(s.client, fetched), e)
  }

  function Run(s: Pipeline, es: seq<Event>): Pipeline {
    if es == [] then s else Step(Run(s, es[..|es| - 1]), es[|es| - 1])
  }

  /** Two screens that look the same: scrollback position and working directory are not compared. */
  predicate Agree(a: ScreenContent, b: ScreenContent) {
    a.lines == b.lines && a.cursor == b.cursor && a.cursorShape == b.cursorShape && a.title == b.title
    && a.focusEvents == b.focusEvents
  }

  /** A pass sends a frame exactly when a resize has forced one, something visible changed, or the bell rang.
      So a bell is never suppressed, and a change of the working directory or of the scroll position alone is. */
  lemma SendsIff(p: Push, content: ScreenContent)
    ensures SamplePass(p, content).frames != []
            <==> p.lastSent.None? || !Agree(p.lastSent.value, content) || content.bell
  {
  }

  function InFlight(channel: seq<ServerMsg>): seq<Apc> {
    if channel == [] then []
    else (if channel[0].Graphics? then channel[0].payloads else []) + InFlight(channel[1..])
  }

  /** The last full frame in the channel, or the one before it. */
  function LastScreen(received: Option<ScreenContent>, channel: seq<ServerMsg>): Option<ScreenContent>
    decreases |channel|
  {
    if channel == [] then received
    else LastScreen(if channel[0].Screen? then Some(channel[0].content) else received, channel[1..])
  }

  ghost predicate Inv(s: Pipeline) {
    && Agree(s.lastFrame, s.sampled)
    && (s.push.lastSent.Some? ==> s.push.lastSent.value == s.lastFrame)
    && LastScreen(s.received, s.channel) == Some(s.lastFrame)
    && (forall i :: 0 <= i < |s.channel| ==> !s.channel[i].Diff?)
    && s.emitted + s.client.queue + InFlight(s.channel) + s.daemonQueue == s.intercepted
    && (s.untouched && s.received.Some? ==>
          s.client.cache.Some? && Agree(s.client.cache.value.content, s.received.value))
    && SizesInv(s)
  }

  /** The size that the worker has told the daemon is the one that the daemon will have once it has read what is on its
      way; a frame recorded since then is recorded for it, and there is one as soon as the daemon has sent one. */
  ghost predicate SizesInv(s: Pipeline) {
    && s.client.size == (if s.upstream == [] then (s.push.rows, s.push.cols) else s.upstream[|s.upstream| - 1])
    && (s.untouched && s.settled && s.received.Some? && s.client.cache.Some? ==>
          (s.client.cache.value.rows, s.client.cache.value.cols) == s.client.size)
    && (s.upstream == [] && s.push.lastSent.Some? && NoScreen(s.channel) ==> s.settled)
  }

  ghost predicate NoScreen(channel: seq<ServerMsg>) { forall i :: 0 <= i < |channel| ==> !channel[i].Screen? }

  lemma NoScreenAppend(a: seq<ServerMsg>, b: seq<ServerMsg>)
    ensures NoScreen(a + b) <==> NoScreen(a) && NoScreen(b)
  {
    if NoScreen(a + b) {
      assert forall i :: 0 <= i < |a| ==> a[i] == (a + b)[i];
      assert forall i :: 0 <= i < |b| ==> b[i] == (a + b)[|a| + i];
    }
  }

  lemma {:induction false} InFlightAppend(a: seq<ServerMsg>, b: seq<ServerMsg>)
    ensures InFlight(a + b) == InFlight(a) + InFlight(b)
  {
    if a == [] {
      assert a + b == b;
    } else {
      assert (a + b)[1..] == a[1..] + b;
      InFlightAppend(a[1..], b);
    }
  }

  lemma {:induction false} LastScreenAppend(received: Option<ScreenContent>, a: seq<ServerMsg>, b: seq<ServerMsg>)
    ensures LastScreen(received, a + b) == LastScreen(LastScreen(received, a), b)
    decreases |a|
  {
    if a == [] {
      assert a + b == b;
    } else {
      assert (a + b)[1..] == a[1..] + b;
      LastScreenAppend(if a[0].Screen? then Some(a[0].content) else received, a[1..], b);
    }
  }

  lemma OneScreen(content: ScreenContent, received: Option<ScreenContent>)
    ensures InFlight([Screen(content)]) == InFlight([]) == [] && LastScreen(received, [Screen(content)]) == Some(content)
    ensures LastScreen(received, []) == received && !NoScreen([Screen(content)])
  {
    assert [Screen(content)][1..] == [];
    assert [Screen(content)][0].Screen?;
  }

  lemma SampleKeepsInv(s: Pipeline, content: ScreenContent)
    requires Inv(s)
    ensures Inv(Step(s, Sample(content)))
  {
    hide InFlight, LastScreen, NoScreen;
    var frames := SamplePass(s.push, content).frames;
    OneScreen(content, Some(s.lastFrame));
    NoScreenAppend(s.channel, frames);
    InFlightAppend(s.channel, frames);
    LastScreenAppend(s.received, s.channel, frames);
    assert s.channel + [] == s.channel;
  }

  lemma SendGraphicsKeepsInv(s: Pipeline)
    requires Inv(s)
    ensures Inv(Step(s, SendGraphics))
  {
    if s.owing.Some? {
      var frames := GraphicsFrames(s.owing.value, s.daemonQueue);
      assert frames != [] ==> frames[1..] == [];
      assert InFlight(frames) == s.daemonQueue && LastScreen(Some(s.lastFrame), frames) == Some(s.lastFrame);
      NoScreenAppend(s.channel, frames);
      InFlightAppend(s.channel, frames);
      LastScreenAppend(s.received, s.channel, frames);
      SentQueue(s.emitted + s.client.queue, InFlight(s.channel), s.daemonQueue);
    }
  }

  lemma SentQueue(before: seq<Apc>, sent: seq<Apc>, queue: seq<Apc>)
    ensures before + (sent + queue) + [] == before + sent + queue
  {
  }

  lemma DeliverKeepsInv(s: Pipeline)
    requires Inv(s)
    ensures Inv(Step(s, Deliver))
  {
    if s.channel != [] && s.channel[0].Graphics? {
      var sent := s.channel[0].payloads;
      assert s.emitted + s.client.queue + (sent + InFlight(s.channel[1..])) + s.daemonQueue
          == s.emitted + (s.client.queue + sent) + InFlight(s.channel[1..]) + s.daemonQueue;
    }
  }

  lemma UiKeepsInv(s: Pipeline, e: Event)
    requires Inv(s) && (e.GetScreen? || e.Resize? || e.Spawn? || e.Scroll?)
    ensures Inv(Step(s, e))
  {
    hide InFlight, LastScreen, NoScreen;
  }

  lemma StepKeepsInv(s: Pipeline, e: Event)
    requires Inv(s)
    ensures Inv(Step(s, e))
  {
    if e.GetScreen? || e.Resize? || e.Spawn? || e.Scroll? {
      UiKeepsInv(s, e);
    } else if e.Sample? {
      SampleKeepsInv(s, e.content);
    } else if e.SendGraphics? {
      SendGraphicsKeepsInv(s);
    } else if e.Deliver? {
      DeliverKeepsInv(s);
    } else {
      hide InFlight, LastScreen, NoScreen, Agree;
    }
  }

  lemma {:induction false} RunKeepsInv(s: Pipeline, es: seq<Event>)
    requires Inv(s)
    ensures Inv(Run(s, es))
  {
    if es != [] {
      RunKeepsInv(s, es[..|es| - 1]);
      StepKeepsInv(Run(s, es[..|es| - 1]), es[|es| - 1]);
    }
  }

  lemma SubscribedInv(size: Size, content: ScreenContent, queue: seq<Apc>, client: Client)
    ensures Inv(Subscribed(size, content, queue, client))
  {
    var s := Subscribed(size, content, queue, client);
    assert s.channel[1..] == [];
  }

  /** From the `n`-th event on, the UI leaves the cache to the worker. */
  ghost predicate LeavesCache(s: Pipeline, es: seq<Event>, n: nat) {
    forall i :: n <= i < |es| ==> !Touches(Run(s, es[..i]).client, es[i])
  }

  lemma {:induction false} CacheLeftAlone(s: Pipeline, es: seq<Event>, n: nat)
    requires n <= |es| && LeavesCache(s, es, n) && Run(s, es[..n]).untouched
    ensures Run(s, es).untouched
    decreases |es|
  {
    if n < |es| {
      var init := es[..|es| - 1];
      assert init[..n] == es[..n];
      assert forall i :: 0 <= i < |init| ==> init[..i] == es[..i];
      CacheLeftAlone(s, init, n);
    } else {
      assert es[..n] == es;
    }
  }

  /** In every reachable state the last full frame sent agrees with the screen last sampled, whether or not that
      pass was suppressed.  So once the channel is drained the last frame that the worker took agrees with it too;
      and so does the worker's cache, unless the client has dropped or replaced it since that frame. */
  lemma WorkerCatchesUp(size: Size, content: ScreenContent, queue: seq<Apc>, client: Client, es: seq<Event>)
    ensures var s := Run(Subscribed(size, content, queue, client), es);
            && Agree(s.lastFrame, s.sampled)
            && (s.channel == [] ==> s.received.Some? && Agree(s.received.value, s.sampled))
            && (s.channel == [] && s.untouched ==>
                  s.client.cache.Some? && Agree(s.client.cache.value.content, s.sampled))
  {
    SubscribedInv(size, content, queue, client);
    RunKeepsInv(Subscribed(size, content, queue, client), es);
  }

  /** After a frame has been delivered, events that leave the cache alone end, with the channel drained, in a cache
      that agrees with the screen last sampled. */
  lemma CacheCatchesUp(size: Size, content: ScreenContent, queue: seq<Apc>, client: Client, es: seq<Event>, n: nat)
    requires n < |es| && es[n].Deliver? && LeavesCache(Subscribed(size, content, queue, client), es, n + 1)
    requires var before := Run(Subscribed(size, content, queue, client), es[..n]);
             before.channel != [] && before.channel[0].Screen?
    ensures var s := Run(Subscribed(size, content, queue, client), es);
            s.channel == [] ==> s.client.cache.Some? && Agree(s.client.cache.value.content, s.sampled)
  {
    assert es[..n + 1][..n] == es[..n];
    CacheLeftAlone(Subscribed(size, content, queue, client), es, n + 1);
    WorkerCatchesUp(size, content, queue, client, es);
  }

  /** Once the channel is drained, the daemon has read every size sent to it and has sent a frame since, and the UI has
      left the cache alone: a draw at the size that the worker has told the daemon is served a screen that looks like
      the last sample, exactly when that has the right height, and a draw at another size is served nothing. */
  lemma DrawIsServedIff(size: Size, content: ScreenContent, queue: seq<Apc>, client: Client, es: seq<Event>,
                        rows: nat, cols: nat)
    requires var s := Run(Subscribed(size, content, queue, client), es);
             s.channel == [] && s.upstream == [] && s.push.lastSent.Some? && s.untouched
    ensures var s := Run(Subscribed(size, content, queue, client), es);
            var served := Lookup(s.client, rows, cols);
            && s.client.size == (s.push.rows, s.push.cols)
            && (served.Some? <==> (rows, cols) == s.client.size && |s.sampled.lines| == rows)
            && (served.Some? ==> Agree(served.value, s.sampled))
  {
    SubscribedInv(size, content, queue, client);
    RunKeepsInv(Subscribed(size, content, queue, client), es);
  }

  /** A frame that was under way when the window was resized is recorded for the new size.  Only its height can tell: a
      draw at the new size is served the old frame exactly when the heights are the same. */
  lemma OldFrameIsServedIff(s: Pipeline, content: ScreenContent, size: Size)
    requires s.channel == [] && s.owing.None? && s.push.lastSent.None? && size != s.client.current && size != s.client.size
    requires size.0 > 0 && size.1 > 0
    ensures var r := Step(Step(Step(Step(s, Sample(content)), Resize(size)), SendSize), Deliver);
            Lookup(r.client, size.0, size.1) == if |content.lines| == size.0 then Some(content) else None
  {
  }

  /** The worker sends the size last asked for exactly when it has both sides and is not the one sent before; then it is
      the last on its way. */
  lemma SizeIsSentIff(s: Pipeline)
    ensures var r, asked := Step(s, SendSize), s.client.requested;
            if asked.0 >= 1 && asked.1 >= 1 && asked != s.client.size then
              r == s.(upstream := s.upstream + [asked], client := s.client.(size := asked), settled := false)
            else r == s
  {
  }

  /** One pass of the push loop: a frame, and after it the graphics that have come by then, all of them. */
  lemma PassInTwoSteps(s: Pipeline, content: ScreenContent, apcs: seq<Apc>)
    requires s.owing.None?
    ensures var r := Step(Step(Step(s, Sample(content)), PtyOutputs(apcs)), SendGraphics);
            var sends := s.push.lastSent.None? || !Agree(s.push.lastSent.value, content) || content.bell;
            var waiting := s.daemonQueue + apcs;
            && r.owing.None? && r.daemonQueue == (if sends then [] else waiting)
            && r.channel == s.channel + if !sends then [] else if waiting == [] then [Screen(content)]
                                        else [Screen(content), Graphics(content.cursor, waiting)]
  {
    SendsIff(s.push, content);
  }

  /** The counter that tells the UI to draw moves on exactly when a frame or a fetched screen has come. */
  lemma GenerationMovesIff(s: Pipeline, e: Event)
    ensures var r := Step(s, e).client;
            && r.generation == s.client.generation + (
                 if (e.Deliver? && s.channel != [] && !s.channel[0].Graphics?) || (e.Scroll? && e.fetched.Some?)
                    || (e.GetScreen? && Lookup(s.client, e.size.0, e.size.1).None?
                        && (e.answer.Fetched? || (e.answer.NoSuchTab? && e.answer.retried.Some?))) then 1 else 0)
  {
  }

  /** No graphics command is lost, duplicated or reordered on its way to the outer terminal. */
  lemma GraphicsConserved(size: Size, content: ScreenContent, queue: seq<Apc>, client: Client, es: seq<Event>)
    ensures var s := Run(Subscribed(size, content, queue, client), es);
            s.emitted + s.client.queue + InFlight(s.channel) + s.daemonQueue == s.intercepted
  {
    SubscribedInv(size, content, queue, client);
    RunKeepsInv(Subscribed(size, content, queue, client), es);
  }

  lemma {:induction false} NoSampleKeepsForced(s: Pipeline, es: seq<Event>)
    requires s.push.lastSent.None? && s.owing.None? && forall i :: 0 <= i < |es| ==> !es[i].Sample?
    ensures Run(s, es).push.lastSent.None? && Run(s, es).owing.None?
  {
    if es != [] { NoSampleKeepsForced(s, es[..|es| - 1]); }
  }

  /** A resize that the push loop reads forces the next sampled screen out, however little has changed, whatever
      happens in between. */
  lemma ResizeForcesFrame(s: Pipeline, es: seq<Event>, content: ScreenContent)
    requires s.owing.None? && s.upstream != [] && forall i :: 0 <= i < |es| ==> !es[i].Sample?
    ensures var before := Run(Step(s, TakeResize), es);
            var after := Step(before, Sample(content));
            && before.channel + [Screen(content)] <= after.channel
            && after.lastFrame == content
  {
    hide Run;
    NoSampleKeepsForced(Step(s, TakeResize), es);
    SampleAfterForced(Run(Step(s, TakeResize), es), content);
  }

  lemma SampleAfterForced(s: Pipeline, content: ScreenContent)
    requires s.push.lastSent.None? && s.owing.None?
    ensures var after := Step(s, Sample(content));
            s.channel + [Screen(content)] <= after.channel && after.lastFrame == content
  {
  }

  /** The incremental frame that the protocol also defines does what a full frame does to a cached screen that
      agrees with the previous one, except that lines which have gone stay behind as blank rows. */
  lemma DiffRefinesFullFrame(c: Client, prev: ScreenContent, content: ScreenContent, cols: nat)
    requires c.cache.Some? && Agree(c.cache.value.content, prev)
    requires Max(|prev.lines|, |content.lines|) <= U16
    ensures var changed := ChangedLines(prev.lines, content.lines, BlankLine(cols));
            var m := Diff(changed, content.cursor, content.cursorShape, content.title, content.bell, content.focusEvents);
            var full := Receive(c, Screen(content)).cache.value.content;
            var diff := Receive(c, m).cache.value.content;
            && diff.lines == Target(prev.lines, content.lines, BlankLine(cols))
            && Agree(diff.(lines := full.lines), full) && diff.bell == full.bell
            && (|prev.lines| <= |content.lines| ==> Agree(diff, full))
  {
    PatchInvertsDiff(prev.lines, content.lines, BlankLine(cols));
    if |prev.lines| <= |content.lines| {
      assert content.lines + [] == content.lines;
    }
  }
}
