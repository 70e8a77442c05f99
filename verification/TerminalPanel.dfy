/** `draw_terminal` of src/client/ui/terminal.rs: the cell walk that fills the panel, and the software caret whose
    place is computed separately, as a sum of cell widths. */
module TerminalPanel {
  import opened Basics
  import opened Screens

  datatype Symbol = Glyph(cell: ScreenCell) | Reset | Background | Caret(ch: char)

  /** The columns that the first `k` cells take. */
  function Prefix(cells: seq<ScreenCell>, k: nat): nat
    requires k <= |cells|
  {
    if k == 0 then 0 else Prefix(cells, k - 1) + cells[k - 1].displayWidth
  }

  /** The first `w` columns of a row: each cell of non-zero width, then blanks for the columns it covers. */
  function RowImage(cells: seq<ScreenCell>, w: nat): (img: seq<Symbol>)
    ensures |img| == w
    decreases |cells|
  {
    if w == 0 then []
    else if cells == [] then Repeat(Background, w)
    else if cells[0].displayWidth == 0 then RowImage(cells[1..], w)
    else
      var k := Min(cells[0].displayWidth, w);
      [Glyph(cells[0])] + Repeat(Reset, k - 1) + RowImage(cells[1..], w - k)
  }

  lemma {:induction false} PrefixTail(cells: seq<ScreenCell>, k: nat)
    requires 0 < k <= |cells|
    ensures Prefix(cells, k) == cells[0].displayWidth + Prefix(cells[1..], k - 1)
  {
    if k > 1 { PrefixTail(cells, k - 1); }
  }

  /** The walk places a visible cell at the column where the widths before it end. */
  lemma {:induction false} PlacedAtPrefix(cells: seq<ScreenCell>, w: nat, k: nat)
    requires k < |cells| && cells[k].displayWidth > 0 && Prefix(cells, k) < w
    ensures RowImage(cells, w)[Prefix(cells, k)] == Glyph(cells[k])
    decreases |cells|
  {
    if k > 0 {
      PrefixTail(cells, k);
      var used := cells[0].displayWidth;
      PlacedAtPrefix(cells[1..], if used == 0 then w else w - used, k - 1);
    }
  }

  // ---- drawing ----

  /** One row of the panel: `w` columns of row `y` from column `x`. */
  predicate RowShows(buf: array2<Symbol>, y: nat, x: nat, img: seq<Symbol>)
    requires y < buf.Length0 && x + |img| <= buf.Length1
    reads buf
  {
    forall c :: x <= c < x + |img| ==> buf[y, c] == img[c - x]
  }

  /** A cell and the blanks for the further columns it covers, clipped at `end`. */
  method DrawCell(buf: array2<Symbol>, y: nat, x: nat, end: nat, cell: ScreenCell)
    requires y < buf.Length0 && x < end <= buf.Length1 && cell.displayWidth > 0
    modifies buf
    ensures RowShows(buf, y, x, [Glyph(cell)] + Repeat(Reset, Min(cell.displayWidth, end - x) - 1))
    ensures forall r, c :: 0 <= r < buf.Length0 && 0 <= c < buf.Length1 && (r != y || c < x || c >= end)
                           ==> buf[r, c] == old(buf[r, c])
  {
    buf[y, x] := Glyph(cell);
    var dx := 1;
    while dx < cell.displayWidth
      invariant 1 <= dx <= cell.displayWidth
      invariant buf[y, x] == Glyph(cell) && forall c :: x < c < x + dx && c < end ==> buf[y, c] == Reset
      invariant forall r, c :: 0 <= r < buf.Length0 && 0 <= c < buf.Length1 && (r != y || c < x || c >= end)
                               ==> buf[r, c] == old(buf[r, c])
    {
      if x + dx < end {
        buf[y, x + dx] := Reset;
      }
      dx := dx + 1;
    }
  }

  method PadRow(buf: array2<Symbol>, y: nat, x: nat, end: nat)
    requires y < buf.Length0 && x <= end <= buf.Length1
    modifies buf
    ensures RowShows(buf, y, x, Repeat(Background, end - x))
    ensures forall r, c :: 0 <= r < buf.Length0 && 0 <= c < buf.Length1 && (r != y || c < x || c >= end)
                           ==> buf[r, c] == old(buf[r, c])
  {
    var bx := x;
    while bx < end
      invariant x <= bx <= end && forall c :: x <= c < bx ==> buf[y, c] == Background
      invariant forall r, c :: 0 <= r < buf.Length0 && 0 <= c < buf.Length1 && (r != y || c < x || c >= end)
                               ==> buf[r, c] == old(buf[r, c])
    {
      buf[y, bx] := Background;
      bx := bx + 1;
    }
  }

  /** What a cell shows in the room left: its glyph, and blanks for the other columns that it covers. */
  function Piece(cell: ScreenCell, room: nat): (p: seq<Symbol>)
    requires cell.displayWidth > 0 && room > 0
    ensures |p| == Min(cell.displayWidth, room)
  {
    [Glyph(cell)] + Repeat(Reset, Min(cell.displayWidth, room) - 1)
  }

  /** Appends the next cell to what a row already shows from column `x`. */
  method AppendCell(buf: array2<Symbol>, y: nat, x: nat, bx: nat, end: nat, cell: ScreenCell, ghost drawn: seq<Symbol>)
    returns (next: nat)
    requires y < buf.Length0 && x <= bx < end <= buf.Length1 && cell.displayWidth > 0
    requires |drawn| == bx - x && RowShows(buf, y, x, drawn)
    modifies buf
    ensures next == bx + |Piece(cell, end - bx)| <= end && RowShows(buf, y, x, drawn + Piece(cell, end - bx))
    ensures forall r, c :: 0 <= r < buf.Length0 && 0 <= c < buf.Length1 && (r != y || c < x || c >= end)
                           ==> buf[r, c] == old(buf[r, c])
  {
    DrawCell(buf, y, bx, end, cell);
    next := Min(bx + cell.displayWidth, end);
  }

  /** Fills up a row that already shows something from column `x`. */
  method AppendPadding(buf: array2<Symbol>, y: nat, x: nat, bx: nat, end: nat, ghost drawn: seq<Symbol>)
    requires y < buf.Length0 && x <= bx <= end <= buf.Length1
    requires |drawn| == bx - x && RowShows(buf, y, x, drawn)
    modifies buf
    ensures RowShows(buf, y, x, drawn + Repeat(Background, end - bx))
    ensures forall r, c :: 0 <= r < buf.Length0 && 0 <= c < buf.Length1 && (r != y || c < x || c >= end)
                           ==> buf[r, c] == old(buf[r, c])
  {
    PadRow(buf, y, bx, end);
  }

  /** A row of which the cells before the `k`-th are drawn, with so much room left. */
  function RowFrom(drawn: seq<Symbol>, cells: seq<ScreenCell>, k: nat, room: nat): seq<Symbol>
    requires k <= |cells|
  {
    drawn + RowImage(cells[k..], room)
  }

  lemma RowStep(drawn: seq<Symbol>, cells: seq<ScreenCell>, k: nat, room: nat)
    requires k < |cells| && room > 0
    ensures cells[k].displayWidth == 0 ==> RowFrom(drawn, cells, k, room) == RowFrom(drawn, cells, k + 1, room)
    ensures cells[k].displayWidth > 0 ==>
              var p := Piece(cells[k], room); RowFrom(drawn, cells, k, room) == RowFrom(drawn + p, cells, k + 1, room - |p|)
  {
    assert cells[k..][1..] == cells[k + 1..];
    if cells[k].displayWidth > 0 {
      assert RowImage(cells[k..], room) == Piece(cells[k], room) + RowImage(cells[k + 1..], room - |Piece(cells[k], room)|);
    }
  }

  lemma RowEnds(drawn: seq<Symbol>, cells: seq<ScreenCell>, k: nat, room: nat)
    requires k <= |cells|
    ensures RowFrom([], cells, 0, room) == RowImage(cells, room)
    ensures k == |cells| || room == 0 ==> RowFrom(drawn, cells, k, room) == drawn + Repeat(Background, room)
  {
    assert cells[0..] == cells;
  }

  method DrawRow(buf: array2<Symbol>, y: nat, x: nat, w: nat, cells: seq<ScreenCell>)
    requires y < buf.Length0 && x + w <= buf.Length1
    modifies buf
    ensures RowShows(buf, y, x, RowImage(cells, w))
    ensures forall r, c :: 0 <= r < buf.Length0 && 0 <= c < buf.Length1 && (r != y || c < x || c >= x + w)
                           ==> buf[r, c] == old(buf[r, c])
  {
    hide RowShows, RowImage;
    var bx, drawn := DrawCells(buf, y, x, x + w, cells);
    AppendPadding(buf, y, x, bx, x + w, drawn);
  }

  method DrawCells(buf: array2<Symbol>, y: nat, x: nat, bxEnd: nat, cells: seq<ScreenCell>)
    returns (bx: nat, ghost drawn: seq<Symbol>)
    requires y < buf.Length0 && x <= bxEnd <= buf.Length1
    modifies buf
    ensures x <= bx <= bxEnd && |drawn| == bx - x && RowShows(buf, y, x, drawn)
    ensures drawn + Repeat(Background, bxEnd - bx) == RowImage(cells, bxEnd - x)
    ensures forall r, c :: 0 <= r < buf.Length0 && 0 <= c < buf.Length1 && (r != y || c < x || c >= bxEnd)
                           ==> buf[r, c] == old(buf[r, c])
  {
    bx := x;
    drawn := [];
    var k := 0;
    RowEnds(drawn, cells, 0, bxEnd - x);
    while k < |cells| && bx < bxEnd
      invariant k <= |cells| && x <= bx <= bxEnd && |drawn| == bx - x
      invariant RowShows(buf, y, x, drawn)
      invariant RowFrom(drawn, cells, k, bxEnd - bx) == RowImage(cells, bxEnd - x)
      invariant forall r, c :: 0 <= r < buf.Length0 && 0 <= c < buf.Length1 && (r != y || c < x || c >= bxEnd)
                               ==> buf[r, c] == old(buf[r, c])
    {
      hide RowImage, RowFrom, RowShows, Piece;
      var cell := cells[k];
      RowStep(drawn, cells, k, bxEnd - bx);
      k := k + 1;
      if cell.displayWidth == 0 {
        continue;
      }
      ghost var piece := Piece(cell, bxEnd - bx);
      bx := AppendCell(buf, y, x, bx, bxEnd, cell, drawn);
      drawn := drawn + piece;
    }
    RowEnds(drawn, cells, k, bxEnd - bx);
  }

  /** Rows are bottom-aligned: the panel row `rowBase + i` shows line `i`. */
  function ScreenRows(lines: seq<ScreenLine>, ih: nat): nat { Min(|lines| % U16, ih) }

  function RowBase(lines: seq<ScreenLine>, ih: nat): nat { ih - ScreenRows(lines, ih) }

  function SourceRow(lines: seq<ScreenLine>, ih: nat, row: nat): Option<nat> {
    if row < RowBase(lines, ih) || row - RowBase(lines, ih) >= |lines| then None else Some(row - RowBase(lines, ih))
  }

  function PanelRow(lines: seq<ScreenLine>, ih: nat, w: nat, row: nat): (img: seq<Symbol>)
    ensures |img| == w
  {
    match SourceRow(lines, ih, row)
    case None => Repeat(Background, w)
    case Some(i) => RowImage(lines[i].cells, w)
  }

  ghost predicate PanelShows(buf: array2<Symbol>, y: nat, x: nat, lines: seq<ScreenLine>, ih: nat, w: nat, rows: nat)
    requires rows <= ih && y + ih <= buf.Length0 && x + w <= buf.Length1
    reads buf
  {
    forall r :: 0 <= r < rows ==> RowShows(buf, y + r, x, PanelRow(lines, ih, w, r))
  }

  method DrawPanel(buf: array2<Symbol>, y: nat, x: nat, ih: nat, w: nat, lines: seq<ScreenLine>)
    requires y + ih <= buf.Length0 && x + w <= buf.Length1
    modifies buf
    ensures PanelShows(buf, y, x, lines, ih, w, ih)
    ensures forall r, c :: 0 <= r < buf.Length0 && 0 <= c < buf.Length1 && (r < y || r >= y + ih || c < x || c >= x + w)
                           ==> buf[r, c] == old(buf[r, c])
  {
    for row := 0 to ih
      invariant PanelShows(buf, y, x, lines, ih, w, row)
      invariant forall r, c :: 0 <= r < buf.Length0 && 0 <= c < buf.Length1 && (r < y || r >= y + ih || c < x || c >= x + w)
                               ==> buf[r, c] == old(buf[r, c])
    {
      match SourceRow(lines, ih, row)
      case Some(i) => DrawRow(buf, y + row, x, w, lines[i].cells);
      case None => DrawRow(buf, y + row, x, w, []);
    }
  }

  /** The last screen line is on the last panel row exactly when the screen is not taller than the panel. */
  lemma LastLineOnLastRowIff(lines: seq<ScreenLine>, ih: nat)
    requires lines != [] && 0 < ih < U16
    ensures SourceRow(lines, ih, ih - 1) == Some(|lines| - 1) <==> |lines| <= ih
  {
  }

  // ---- the caret ----

  datatype CaretPos = CaretPos(x: nat, y: nat)

  /** Where the caret goes, relative to the panel. */
  function CaretAt(lines: seq<ScreenLine>, cursor: (nat, nat), ih: nat, w: nat): CaretPos
    requires ih > 0 && w > 0
  {
    var rows := ScreenRows(lines, ih);
    var row := Min(cursor.0, if rows == 0 then 0 else rows - 1);
    var col := Min(cursor.1, w - 1);
    var visual := if row < |lines| then Prefix(lines[row].cells, Min(col, |lines[row].cells|)) % U16 else col;
    CaretPos(Min(visual, w - 1), RowBase(lines, ih) + row)
  }

  lemma {:induction false} PrefixMonotone(cells: seq<ScreenCell>, i: nat, j: nat)
    requires i <= j <= |cells|
    ensures Prefix(cells, i) <= Prefix(cells, j)
    ensures Prefix(cells, i) == Prefix(cells, j) <==> forall k :: i <= k < j ==> cells[k].displayWidth == 0
    decreases j
  {
    if i < j { PrefixMonotone(cells, i, j - 1); }
  }

  /** For a cursor on a visible cell inside the panel, the caret lands on the column where the walk drew that cell
      exactly when the cursor's cell index is inside the panel too, or only zero-width cells make up the rest. */
  lemma CaretMeetsCursorCellIff(lines: seq<ScreenLine>, cursor: (nat, nat), ih: nat, w: nat)
    requires 0 < ih && 0 < w < U16 && cursor.0 < ScreenRows(lines, ih)
    requires var cells := lines[cursor.0].cells;
             cursor.1 < |cells| && cells[cursor.1].displayWidth > 0 && Prefix(cells, cursor.1) < w
    ensures var cells := lines[cursor.0].cells;
            CaretAt(lines, cursor, ih, w).x == Prefix(cells, cursor.1)
            <==> cursor.1 < w || forall k :: w - 1 <= k < cursor.1 ==> cells[k].displayWidth == 0
  {
    var cells := lines[cursor.0].cells;
    PrefixMonotone(cells, Min(cursor.1, w - 1), cursor.1);
  }

  /** The rows that the emulators build: a cell of width zero is the second half of a wide character, or the last
      cell of its row, where a wide character did not fit. */
  predicate SpacersFollowWide(cells: seq<ScreenCell>) {
    forall k :: 0 <= k < |cells| - 1 && cells[k].displayWidth == 0 ==> k > 0 && cells[k - 1].displayWidth == 2
  }

  lemma {:induction false} PrefixCoversCells(cells: seq<ScreenCell>, k: nat)
    requires SpacersFollowWide(cells) && k < |cells|
    ensures Prefix(cells, k) >= k
    decreases k
  {
    if k > 0 {
      if cells[k - 1].displayWidth == 0 {
        PrefixCoversCells(cells, k - 2);
      } else {
        PrefixCoversCells(cells, k - 1);
      }
    }
  }

  /** So the caret meets the cursor's cell on every row of an emulator, and on every row at all that has no more
      cells than the panel has columns, which is what the panel asks for. */
  lemma CaretMeetsCursorCell(lines: seq<ScreenLine>, cursor: (nat, nat), ih: nat, w: nat)
    requires 0 < ih && 0 < w < U16 && cursor.0 < ScreenRows(lines, ih)
    requires var cells := lines[cursor.0].cells;
             && cursor.1 < |cells| && cells[cursor.1].displayWidth > 0 && Prefix(cells, cursor.1) < w
             && (SpacersFollowWide(cells) || |cells| <= w)
    ensures CaretAt(lines, cursor, ih, w) == CaretPos(Prefix(lines[cursor.0].cells, cursor.1), RowBase(lines, ih) + cursor.0)
  {
    var cells := lines[cursor.0].cells;
    if SpacersFollowWide(cells) { PrefixCoversCells(cells, cursor.1); }
    CaretMeetsCursorCellIff(lines, cursor, ih, w);
  }

  /** Where the caret meets it, what the panel shows under the caret is the cursor's cell. */
  lemma CaretIsOnCursorCell(buf: array2<Symbol>, y: nat, x: nat, lines: seq<ScreenLine>, cursor: (nat, nat), ih: nat, w: nat)
    requires y + ih <= buf.Length0 && x + w <= buf.Length1 && PanelShows(buf, y, x, lines, ih, w, ih)
    requires 0 < ih && 0 < w < U16 && cursor.0 < ScreenRows(lines, ih)
    requires var cells := lines[cursor.0].cells;
             && cursor.1 < |cells| && cells[cursor.1].displayWidth > 0 && Prefix(cells, cursor.1) < w
             && (cursor.1 < w || forall k :: w - 1 <= k < cursor.1 ==> cells[k].displayWidth == 0)
    ensures var at := CaretAt(lines, cursor, ih, w);
            at.y < ih && at.x < w && buf[y + at.y, x + at.x] == Glyph(lines[cursor.0].cells[cursor.1])
  {
    var cells := lines[cursor.0].cells;
    CaretMeetsCursorCellIff(lines, cursor, ih, w);
    PlacedAtPrefix(cells, w, cursor.1);
    var at := CaretAt(lines, cursor, ih, w);
    assert SourceRow(lines, ih, at.y) == Some(cursor.0);
    assert RowShows(buf, y + at.y, x, PanelRow(lines, ih, w, at.y));
  }

  /** On a screen without lines the caret falls one row below the panel, on its border. */
  lemma CaretInsideIff(lines: seq<ScreenLine>, cursor: (nat, nat), ih: nat, w: nat)
    requires 0 < ih && 0 < w && |lines| < U16
    ensures CaretAt(lines, cursor, ih, w).y < ih <==> lines != []
    ensures CaretAt(lines, cursor, ih, w).x < w
  {
  }

  /** The caret shows the character of its cell; on the second half of a wide character, that character; past the end
      of a line, what ends it; and a space where there is none. */
  lemma CaretShows(cells: seq<ScreenCell>, k: nat)
    ensures cells == [] ==> CaretGlyph(cells, k) == ' '
    ensures k >= |cells| > 0 ==> CaretGlyph(cells, k) == CaretGlyph(cells, |cells| - 1)
    ensures k < |cells| && cells[k].ch != '\0' ==> CaretGlyph(cells, k) == cells[k].ch
    ensures k < |cells| && cells[k].ch == '\0' ==>
              CaretGlyph(cells, k) == if k > 0 && cells[k - 1].ch != '\0' then cells[k - 1].ch else ' '
  {
  }

  /** A cursor below the screen is drawn on its last line, and one on a line that it has, on that line. */
  lemma CaretRow(lines: seq<ScreenLine>, cursor: (nat, nat), ih: nat, w: nat)
    requires ih > 0 && w > 0
    ensures var rows := ScreenRows(lines, ih);
            && (cursor.0 >= rows > 0 ==> CaretAt(lines, cursor, ih, w) == CaretAt(lines, (rows - 1, cursor.1), ih, w))
            && (cursor.0 < rows ==> CaretAt(lines, cursor, ih, w).y == RowBase(lines, ih) + cursor.0)
  {
  }

  /** The character the caret repeats. */
  function CaretGlyph(cells: seq<ScreenCell>, cc: nat): char {
    if cells == [] then ' '
    else
      var idx := if cc >= |cells| then |cells| - 1 else cc;
      var cell := if cells[idx].ch == '\0' && idx > 0 then cells[idx - 1] else cells[idx];
      if cell.ch == '\0' then ' ' else cell.ch
  }

  method DrawCaret(buf: array2<Symbol>, y: nat, x: nat, lines: seq<ScreenLine>, cursor: (nat, nat), ih: nat, w: nat)
    requires 0 < ih && 0 < w && y + ih < buf.Length0 && x + w <= buf.Length1
    modifies buf
    ensures var at := CaretAt(lines, cursor, ih, w);
            && at.y <= ih && at.x < w && buf[y + at.y, x + at.x].Caret?
            && forall r, c :: 0 <= r < buf.Length0 && 0 <= c < buf.Length1 && !(r == y + at.y && c == x + at.x)
                              ==> buf[r, c] == old(buf[r, c])
    ensures cursor.0 < ScreenRows(lines, ih) ==>
              buf[y + CaretAt(lines, cursor, ih, w).y, x + CaretAt(lines, cursor, ih, w).x]
              == Caret(CaretGlyph(lines[cursor.0].cells, cursor.1))
  {
    var rows := ScreenRows(lines, ih);
    var row := Min(cursor.0, if rows == 0 then 0 else rows - 1);
    var at := CaretAt(lines, cursor, ih, w);
    var glyph := if row < |lines| then CaretGlyph(lines[row].cells, cursor.1) else ' ';
    buf[y + at.y, x + at.x] := Caret(glyph);
  }
}
