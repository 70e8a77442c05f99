/** The client's end of a subscription: `DaemonProvider` of src/providers/daemon_provider/mod.rs with its screen cache,
    and what its worker thread does with each frame (src/providers/daemon_provider/worker.rs). */
module ClientScreen {
  import opened Basics
  import opened Screens
  import opened ScreenDiff

  type Apc = seq<byte>
  type Size = (nat, nat)

  datatype ServerMsg =
    | Screen(content: ScreenContent)
    | Diff(changed: seq<Change>, cursor: (nat, nat), cursorShape: CursorShape, title: Option<string>,
           bell: bool, focusEvents: bool)
    | Graphics(at: (nat, nat), payloads: seq<Apc>)

  datatype CacheEntry = CacheEntry(content: ScreenContent, rows: nat, cols: nat)

  /** The cache, the size last spawned or resized to, the size last asked for, the size that the worker has told the
      daemon, the counter that tells the UI to draw, the graphics to emit and the directory last reported. */
  datatype Client = Client(cache: Option<CacheEntry>, current: Size, requested: Size, size: Size, generation: nat,
                           queue: seq<Apc>, cwd: Option<string>)

  /** What comes back when the UI asks the daemon for a screen: a screen, word that there is no such tab and what came
      after spawning it, or nothing. */
  datatype Answer = Fetched(content: ScreenContent) | NoSuchTab(retried: Option<ScreenContent>) | NoAnswer

  const EMPTY_SCREEN := ScreenContent([], (0, 0), None, BlockCursor, 0, 0, false, false, None)

  // ---- frames ----

  function Patched(c: ScreenContent, m: ServerMsg): ScreenContent
    requires m.Diff?
  {
    c.(lines := Patch(c.lines, m.changed), cursor := m.cursor, cursorShape := m.cursorShape, title := m.title,
       bell := m.bell, focusEvents := m.focusEvents)
  }

  function Receive(c: Client, m: ServerMsg): Client {
    match m
    case Screen(content) =>
      c.(generation := c.generation + 1, cwd := if content.cwd.Some? then content.cwd else c.cwd,
         cache := Some(CacheEntry(content, c.size.0, c.size.1)))
    case Diff(_, _, _, _, _, _) =>
      c.(generation := c.generation + 1,
         cache := if c.cache.None? then None
                  else Some(c.cache.value.(content := Patched(c.cache.value.content, m))))
    case Graphics(_, payloads) => c.(queue := c.queue + payloads)
  }

  // ---- the UI ----

  /** A cached screen is served for the size it was recorded for, and only if it has that many lines. */
  function Lookup(c: Client, rows: nat, cols: nat): Option<ScreenContent> {
    if c.cache.Some? && c.cache.value.rows == rows && c.cache.value.cols == cols && |c.cache.value.content.lines| == rows
    then Some(c.cache.value.content)
    else None
  }

  function Store(c: Client, content: ScreenContent, size: Size): Client {
    c.(cache := Some(CacheEntry(content, size.0, size.1)))
  }

  function Silenced(c: Client): Client {
    if c.cache.None? then c else c.(cache := Some(c.cache.value.(content := c.cache.value.content.(bell := false))))
  }

  function AfterAnswer(c: Client, size: Size, a: Answer): Client {
    match a
    case Fetched(content) =>
      var counted := c.(generation := c.generation + 1);
      if |content.lines| == size.0 then Store(counted, content, size) else counted
    case NoSuchTab(Some(content)) => Store(c.(generation := c.generation + 1), content, size)
    case _ => c
  }

  function Answered(a: Answer): ScreenContent {
    match a
    case Fetched(content) => content
    case NoSuchTab(Some(content)) => content
    case _ => EMPTY_SCREEN
  }

  /** The UI's request for a screen; `a` is what the daemon would answer, should the cache not have one. */
  function AfterGet(c: Client, size: Size, a: Answer): Client {
    var asked := c.(requested := size);
    if Lookup(c, size.0, size.1).Some? then Silenced(asked) else AfterAnswer(asked, size, a)
  }

  function Shown(c: Client, size: Size, a: Answer): ScreenContent {
    if Lookup(c, size.0, size.1).Some? then Lookup(c, size.0, size.1).value else Answered(a)
  }

  function Resized(c: Client, size: Size): Client {
    if c.current == size then c else c.(current := size, requested := size, cache := None)
  }

  function Respawned(c: Client, size: Size): Client { c.(current := size, requested := size, cache := None) }

  /** Scrolling fetches the screen at once and records it, whatever its height, for the size last asked for. */
  function ScrolledTo(c: Client, fetched: Option<ScreenContent>): Client {
    if fetched.None? then c
    else Store(c.(generation := c.generation + 1), fetched.value, (Max(c.requested.0, 1), Max(c.requested.1, 1)))
  }

  /** The worker sends a resize once the size asked for is not the one it has told the daemon. */
  predicate MustSend(c: Client) { c.requested.0 > 0 && c.requested.1 > 0 && c.size != c.requested }

  /** The fields of `DaemonProvider` that its worker thread and the UI thread share, and the worker's own size. */
  class DaemonProvider {
    var screenCache: Option<CacheEntry>
    var currentSize: Size
    var screenRequestedSize: Size
    var subscribedSize: Size
    var screenGeneration: nat
    var pendingGraphics: seq<Apc>
    var cachedCwd: Option<string>

    function View(): Client
      reads this
    {
      Client(screenCache, currentSize, screenRequestedSize, subscribedSize, screenGeneration, pendingGraphics, cachedCwd)
    }

    /** Before anything has been asked for. */
    constructor ()
      ensures View() == Client(None, (0, 0), (0, 0), (0, 0), 0, [], None)
    {
      screenCache, currentSize, screenRequestedSize, subscribedSize := None, (0, 0), (0, 0), (0, 0);
      screenGeneration, pendingGraphics, cachedCwd := 0, [], None;
    }

    method OnMessage(m: ServerMsg)
      modifies this
      ensures View() == Receive(old(View()), m)
    {
      match m
      case Screen(content) =>
        screenGeneration := screenGeneration + 1;
        if content.cwd.Some? {
          cachedCwd := content.cwd;
        }
        screenCache := Some(CacheEntry(content, subscribedSize.0, subscribedSize.1));
      case Diff(changed, cursor, cursorShape, title, bell, focusEvents) =>
        screenGeneration := screenGeneration + 1;
        if screenCache.Some? {
          var content := screenCache.value.content;
          var lines := ApplyChanged(content.lines, changed);
          content := content.(lines := lines);
          content := content.(cursor := cursor, cursorShape := cursorShape, title := title, bell := bell,
                              focusEvents := focusEvents);
          screenCache := Some(screenCache.value.(content := content));
        }
      case Graphics(_, payloads) =>
        pendingGraphics := pendingGraphics + payloads;
    }

    method CachedScreen(rows: nat, cols: nat) returns (r: Option<ScreenContent>)
      ensures r == Lookup(View(), rows, cols)
    {
      if screenCache.Some? {
        var entry := screenCache.value;
        if entry.rows == rows && entry.cols == cols && |entry.content.lines| == rows {
          return Some(entry.content);
        }
      }
      return None;
    }

    method CacheScreen(content: ScreenContent, rows: nat, cols: nat)
      modifies this`screenCache
      ensures View() == Store(old(View()), content, (rows, cols))
    {
      screenCache := Some(CacheEntry(content, rows, cols));
    }

    method GetScreen(rows: nat, cols: nat, a: Answer) returns (r: ScreenContent)
      modifies this
      ensures View() == AfterGet(old(View()), (rows, cols), a) && r == Shown(old(View()), (rows, cols), a)
    {
      screenRequestedSize := (rows, cols);
      var hit := CachedScreen(rows, cols);
      if hit.Some? {
        if hit.value.bell {
          screenCache := Some(screenCache.value.(content := screenCache.value.content.(bell := false)));
        }
        return hit.value;
      }
      match a {
        case Fetched(content) =>
          screenGeneration := screenGeneration + 1;
          if |content.lines| == rows {
            CacheScreen(content, rows, cols);
          }
          return content;
        case NoSuchTab(retried) =>
          if retried.Some? {
            screenGeneration := screenGeneration + 1;
            CacheScreen(retried.value, rows, cols);
            return retried.value;
          }
        case NoAnswer =>
      }
      return EMPTY_SCREEN;
    }

    method Resize(rows: nat, cols: nat) returns (told: bool)
      modifies this
      ensures View() == Resized(old(View()), (rows, cols)) && told == (old(currentSize) != (rows, cols))
    {
      if currentSize == (rows, cols) {
        return false;
      }
      currentSize := (rows, cols);
      screenRequestedSize := (rows, cols);
      screenCache := None;
      return true;
    }

    method Spawn(rows: nat, cols: nat)
      modifies this
      ensures View() == Respawned(old(View()), (rows, cols))
    {
      currentSize := (rows, cols);
      screenRequestedSize := (rows, cols);
      screenCache := None;
    }

    method Scroll(fetched: Option<ScreenContent>)
      modifies this
      ensures View() == ScrolledTo(old(View()), fetched)
    {
      var rows, cols := Max(screenRequestedSize.0, 1), Max(screenRequestedSize.1, 1);
      if fetched.Some? {
        screenGeneration := screenGeneration + 1;
        CacheScreen(fetched.value, rows, cols);
      }
    }

    /** The worker's check before each read. */
    method SendSize() returns (sent: Option<Size>)
      modifies this`subscribedSize
      ensures sent == if MustSend(old(View())) then Some(old(screenRequestedSize)) else None
      ensures View() == if sent.Some? then old(View()).(size := sent.value) else old(View())
    {
      var (rows, cols) := screenRequestedSize;
      if rows == 0 || cols == 0 || subscribedSize == (rows, cols) {
        return None;
      }
      subscribedSize := (rows, cols);
      return Some((rows, cols));
    }

    method TakePendingGraphics() returns (taken: seq<Apc>)
      modifies this`pendingGraphics
      ensures taken == old(pendingGraphics) && pendingGraphics == []
    {
      taken := pendingGraphics;
      pendingGraphics := [];
    }
  }

  // ---- what the UI can rely on ----

  /** A bell is shown once: asked again with nothing received in between, the same screen comes without it. */
  lemma BellRingsOnce(c: Client, size: Size, a: Answer, b: Answer)
    requires Lookup(c, size.0, size.1).Some?
    ensures var once := AfterGet(c, size, a);
            && Shown(c, size, a) == c.cache.value.content
            && Shown(once, size, b) == Shown(c, size, a).(bell := false) && !Shown(once, size, b).bell
            && AfterGet(once, size, b) == once && once.generation == c.generation
  {
  }

  /** A screen fetched at its full height is what is shown, and is served from the cache from then on, for that size
      alone; one of another height is shown once and fetched again. */
  lemma FetchedIsServedIff(c: Client, size: Size, other: Size, content: ScreenContent, b: Answer)
    requires Lookup(c, size.0, size.1).None?
    ensures var once := AfterGet(c, size, Fetched(content));
            && Shown(c, size, Fetched(content)) == content
            && once.requested == size && once.generation == c.generation + 1
            && (Lookup(once, size.0, size.1).Some? <==> |content.lines| == size.0)
            && (|content.lines| == size.0 ==>
                  Shown(once, size, b) == content && (Lookup(once, other.0, other.1).Some? <==> other == size))
  {
  }

  /** Without a cached screen and without an answer an empty one is shown, and nothing is recorded. */
  lemma NoAnswerShowsNothing(c: Client, size: Size, a: Answer)
    requires Lookup(c, size.0, size.1).None? && (a.NoAnswer? || a == NoSuchTab(None))
    ensures var r := Shown(c, size, a);
            r.lines == [] && r.cursor == (0, 0) && !r.bell && !r.focusEvents && r.title.None? && r.cwd.None?
    ensures AfterGet(c, size, a) == c.(requested := size)
  {
  }

  /** Nothing cached survives a spawn or a resize to another size; a resize to the same size does nothing. */
  lemma ResizingDropsTheCacheIff(c: Client, size: Size, at: Size)
    ensures Lookup(Respawned(c, size), at.0, at.1).None?
    ensures Respawned(c, size).current == Respawned(c, size).requested == size
    ensures Resized(c, size).current == size
    ensures c.current != size ==> Lookup(Resized(c, size), at.0, at.1).None? && Resized(c, size).requested == size
    ensures Resized(c, size) == c <==> c.current == size
  {
  }

  /** Scrolling shows what it fetched, for the size last asked for, a missing side counting as one. */
  lemma ScrollIsServedIff(c: Client, content: ScreenContent, rows: nat, cols: nat)
    ensures var r := ScrolledTo(c, Some(content));
            var asked := (if c.requested.0 == 0 then 1 else c.requested.0, if c.requested.1 == 0 then 1 else c.requested.1);
            && Lookup(r, rows, cols) == (if (rows, cols) == asked && |content.lines| == rows then Some(content) else None)
            && r == c.(cache := r.cache, generation := c.generation + 1)
    ensures ScrolledTo(c, None) == c
  {
  }

  /** A full frame is recorded for the size that the worker last told the daemon, whichever size it was made for. */
  lemma FrameIsServedIff(c: Client, content: ScreenContent, rows: nat, cols: nat)
    ensures Lookup(Receive(c, Screen(content)), rows, cols)
            == if c.size == (rows, cols) && |content.lines| == rows then Some(content) else None
    ensures Receive(c, Screen(content)).cwd == if content.cwd.Some? then content.cwd else c.cwd
  {
  }
}
