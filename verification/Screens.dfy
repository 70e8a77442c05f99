/** The screen snapshots of src/terminal_provider.rs. */
module Screens {
  import opened Basics

  datatype Style = Style(fg: Option<nat>, bg: Option<nat>, underlineColor: Option<nat>,
                         bold: bool, italic: bool, underline: bool, dim: bool, reverse: bool,
                         strikethrough: bool, hidden: bool)

  datatype ScreenCell = ScreenCell(ch: char, displayWidth: byte, style: Style, zerowidth: Option<string>)

  datatype ScreenLine = ScreenLine(cells: seq<ScreenCell>)

  datatype CursorShape = BlockCursor | BeamCursor | UnderlineCursor | HiddenCursor

  datatype ScreenContent = ScreenContent(
    lines: seq<ScreenLine>,
    cursor: (nat, nat),
    title: Option<string>,
    cursorShape: CursorShape,
    scrollOffset: nat,
    scrollMax: nat,
    bell: bool,
    focusEvents: bool,
    cwd: Option<string>)

  const PLAIN := Style(None, None, None, false, false, false, false, false, false, false)

  function BlankLine(cols: nat): ScreenLine {
    ScreenLine(Repeat(ScreenCell(' ', 1, PLAIN, None), cols))
  }
}
