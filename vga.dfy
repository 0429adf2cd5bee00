/** The VGA text-mode driver: colour and cell packing, and writes into the
    80 x 25 text buffer.

    The memory-mapped buffer at 0xB8000 becomes an array of 2000 16-bit
    cells that every writing operation takes as a parameter. Colours and
    cells are bit-vectors so that `<<`, `|` and the truncation to uint8_t
    and uint16_t are exact. A `char` symbol is taken as its byte, which is
    what `uint8_t(symbol)` keeps of it. */
module Vga {

  import opened Words

  const VGA_WIDTH: int := 80
  const VGA_HEIGHT: int := 25
  /** Number of cells in the text buffer (2000). */
  const CELLS: int := VGA_WIDTH * VGA_HEIGHT

  /** VGAColors: the sixteen text colours. */
  datatype VgaColor =
    | Black | Blue | Green | Cyan | Red | Magenta | Brown | LightGrey
    | DarkGrey | LightBlue | LightGreen | LightCyan | LightRed | LightMagenta | Yellow | White
  {
    /** The enumerator's value; every one fits in a nibble. */
    function Code(): (v: bv8)
      ensures v < 0x10
    {
      match this
      case Black => 0x00
      case Blue => 0x01
      case Green => 0x02
      case Cyan => 0x03
      case Red => 0x04
      case Magenta => 0x05
      case Brown => 0x06
      case LightGrey => 0x07
      case DarkGrey => 0x08
      case LightBlue => 0x09
      case LightGreen => 0x0A
      case LightCyan => 0x0B
      case LightRed => 0x0C
      case LightMagenta => 0x0D
      case Yellow => 0x0E
      case White => 0x0F
    }
  }

  /** The colour whose value is v: every nibble names exactly one colour. */
  function ColorOfCode(v: bv8): (c: VgaColor)
    requires v < 0x10
    ensures c.Code() == v
  {
    if v == 0x00 then Black else if v == 0x01 then Blue
    else if v == 0x02 then Green else if v == 0x03 then Cyan
    else if v == 0x04 then Red else if v == 0x05 then Magenta
    else if v == 0x06 then Brown else if v == 0x07 then LightGrey
    else if v == 0x08 then DarkGrey else if v == 0x09 then LightBlue
    else if v == 0x0A then LightGreen else if v == 0x0B then LightCyan
    else if v == 0x0C then LightRed else if v == 0x0D then LightMagenta
    else if v == 0x0E then Yellow else White
  }

  /** The sixteen values are distinct: a colour is recovered from its value. */
  lemma CodeDistinct(c: VgaColor)
    ensures ColorOfCode(c.Code()) == c
  {
  }

  /** The low nibble of an attribute byte: the foreground colour. */
  function Foreground(color: bv8): bv8 {
    color & 0x0F
  }

  /** The high nibble of an attribute byte: the background colour. */
  function Background(color: bv8): bv8 {
    color >> 4
  }

  /** make_color: `(background << 4) | foreground`, truncated to a byte.
      The foreground's low nibble lands in the low nibble; the background's
      low nibble lands in the high nibble, where any high bits of the
      foreground are or-ed in as well. */
  function MakeColor(foreground: bv8, background: bv8): (r: bv8)
    ensures Foreground(r) == foreground & 0x0F
    ensures Background(r) == (background & 0x0F) | (foreground >> 4)
  {
    (background << 4) | foreground
  }

  /** For two colours (values below 16) make_color is background * 16 +
      foreground and each nibble decodes to its colour. */
  lemma MakeColorOfColors(foreground: bv8, background: bv8)
    requires foreground < 0x10 && background < 0x10
    ensures MakeColor(foreground, background) == background * 0x10 + foreground
    ensures Foreground(MakeColor(foreground, background)) == foreground
    ensures Background(MakeColor(foreground, background)) == background
  {
  }

  /** Every attribute byte is the make_color of its own two nibbles. */
  lemma MakeColorOfNibbles(color: bv8)
    ensures MakeColor(Foreground(color), Background(color)) == color
  {
  }

  /** The symbol byte of a cell (its low byte). */
  function EntrySymbol(entry: bv16): bv8 {
    (entry & 0xFF) as bv8
  }

  /** The attribute byte of a cell (its high byte). */
  function EntryColor(entry: bv16): bv8 {
    (entry >> 8) as bv8
  }

  /** make_entry: `(uint16_t(color) << 8) | uint8_t(symbol)`. Both bytes
      are recovered exactly. */
  function MakeEntry(symbol: bv8, color: bv8): (r: bv16)
    ensures EntrySymbol(r) == symbol && EntryColor(r) == color
  {
    ((color as bv16) << 8) | symbol as bv16
  }

  /** Every cell value is the make_entry of its own two bytes, so
      make_entry is a one-to-one packing of (symbol, colour) pairs. */
  lemma MakeEntryOfBytes(entry: bv16)
    ensures MakeEntry(EntrySymbol(entry), EntryColor(entry)) == entry
  {
  }

  /** The coordinate guard of put_char_at. */
  predicate InBounds(x: int, y: int) {
    0 <= x < VGA_WIDTH && 0 <= y < VGA_HEIGHT
  }

  /** The cell `y * VGA_WIDTH + x` that put_char_at writes. It lies in the
      buffer and determines (x, y), so distinct positions get distinct
      cells. */
  function CellIndex(x: int, y: int): (i: int)
    requires InBounds(x, y)
    ensures 0 <= i < CELLS
    ensures i % VGA_WIDTH == x && i / VGA_WIDTH == y
  {
    y * VGA_WIDTH + x
  }

  /** Distinct in-range positions map to distinct cells. */
  lemma CellIndexInjective(x: int, y: int, x': int, y': int)
    requires InBounds(x, y) && InBounds(x', y')
    ensures CellIndex(x, y) == CellIndex(x', y') <==> x == x' && y == y'
  {
  }

  /** The cell clear_screen writes everywhere: a NUL symbol whose
      foreground and background are both `color`. */
  function BlankCell(color: bv8): bv16 {
    MakeEntry(0x00, MakeColor(color, color))
  }

  /** put_char_at as VGA.cpp defines it: a position outside the 80 x 25
      grid is silently ignored; otherwise cell y * VGA_WIDTH + x, and only it,
      becomes make_entry(symbol, color). */
  method PutCharAt(buffer: array<bv16>, symbol: bv8, color: bv8, x: i32, y: i32)
    requires buffer.Length == CELLS
    modifies buffer
    ensures InBounds(x, y) ==>
      buffer[..] == old(buffer[..])[CellIndex(x, y) := MakeEntry(symbol, color)]
    ensures !InBounds(x, y) ==> buffer[..] == old(buffer[..])
  {
    if (x < 0 || x >= VGA_WIDTH) || (y < 0 || y >= VGA_HEIGHT) {
      return;
    }
    buffer[y * VGA_WIDTH + x] := MakeEntry(symbol, color);
  }

  /** put_char_at as the header defines it inline: no guard, so the
      position must be inside the grid. */
  method PutCharAtUnguarded(buffer: array<bv16>, symbol: bv8, color: bv8, x: i32, y: i32)
    requires buffer.Length == CELLS && InBounds(x, y)
    modifies buffer
    ensures buffer[..] == old(buffer[..])[CellIndex(x, y) := MakeEntry(symbol, color)]
  {
    buffer[y * VGA_WIDTH + x] := MakeEntry(symbol, color);
  }

  /** clear_screen: row by row, column by column, every one of the 2000
      cells becomes the blank cell of `color`. */
  method ClearScreen(buffer: array<bv16>, color: bv8)
    requires buffer.Length == CELLS
    modifies buffer
    ensures forall i | 0 <= i < CELLS :: buffer[i] == BlankCell(color)
  {
    for y := 0 to VGA_HEIGHT
      invariant forall i | 0 <= i < y * VGA_WIDTH :: buffer[i] == BlankCell(color)
    {
      for x := 0 to VGA_WIDTH
        invariant forall i | 0 <= i < y * VGA_WIDTH + x :: buffer[i] == BlankCell(color)
      {
        PutCharAt(buffer, 0x00, MakeColor(color, color), x, y);
      }
    }
  }

  /** The blank cell of a colour value below 16 has a NUL symbol and that
      colour in both nibbles of its attribute byte. */
  lemma BlankCellOfColor(color: bv8)
    requires color < 0x10
    ensures EntrySymbol(BlankCell(color)) == 0
    ensures Foreground(EntryColor(BlankCell(color))) == color
    ensures Background(EntryColor(BlankCell(color))) == color
  {
    MakeColorOfColors(color, color);
  }

  /** What the driver test leaves in cell i: the '0' characters of the
      16 x 16 colour grid (foreground = column, background = row), the
      message in green on row 18 from column 0, black blank cells elsewhere. */
  function TestCell(message: seq<bv8>, i: int): (c: bv16)
    requires |message| == 23 && 0 <= i < CELLS
  {
    var x, y := i % VGA_WIDTH, i / VGA_WIDTH;
    if x < 16 && y < 16 then MakeEntry(0x30, MakeColor(x as bv8, y as bv8))
    else if y == 18 && x < 23 then MakeEntry(message[x], Green.Code())
    else BlankCell(Black.Code())
  }

  /** The driver test: clear the screen to black, write the 23 bytes of
      the message (its 22 characters and the terminating NUL) in green on
      row 18, then put a '0' at every (x, y) with x, y < 16 coloured
      make_color(x, y). The test includes only the header, so its writes
      are the unguarded put_char_at: each call must be inside the grid, and
      the grid and the message do not overlap. */
  method DriverTest(buffer: array<bv16>, message: seq<bv8>)
    requires buffer.Length == CELLS && |message| == 23
    modifies buffer
    ensures forall i | 0 <= i < CELLS :: buffer[i] == TestCell(message, i)
  {
    ClearScreen(buffer, Black.Code());
    for x := 0 to 23
      invariant forall i | 0 <= i < CELLS ::
        buffer[i] == (if i / VGA_WIDTH == 18 && i % VGA_WIDTH < x then MakeEntry(message[i % VGA_WIDTH], Green.Code())
                      else BlankCell(Black.Code()))
    {
      PutCharAtUnguarded(buffer, message[x], Green.Code(), x, 18);
    }
    for x := 0 to 16
      invariant forall i | 0 <= i < CELLS ::
        buffer[i] == (if i % VGA_WIDTH < x && i / VGA_WIDTH < 16 then TestCell(message, i)
                      else if i / VGA_WIDTH == 18 && i % VGA_WIDTH < 23 then MakeEntry(message[i % VGA_WIDTH], Green.Code())
                      else BlankCell(Black.Code()))
    {
      for y := 0 to 16
        invariant forall i | 0 <= i < CELLS ::
          buffer[i] == (if (i % VGA_WIDTH < x || (i % VGA_WIDTH == x && i / VGA_WIDTH < y)) && i / VGA_WIDTH < 16 then TestCell(message, i)
                        else if i / VGA_WIDTH == 18 && i % VGA_WIDTH < 23 then MakeEntry(message[i % VGA_WIDTH], Green.Code())
                        else BlankCell(Black.Code()))
      {
        PutCharAtUnguarded(buffer, 0x30, MakeColor(x as bv8, y as bv8), x, y);
      }
    }
  }
}
