/** The text layout engine of the bundled `Writer` (font/writer.py): a cursor
    per display kept in a table shared by all writers, a tab-stop counter,
    clip and wrap flags, and the glyph scanning that finds a glyph's printed
    width. Drawing on the frame buffer is recorded as a log of effects on the
    display object. */
module TextWriter {

  datatype Option<T> = None | Some(value: T)

  datatype Error =
    | NotAFrameBuffer        // `_get_id` on an object that is no frame buffer
    | RowOutOfRange          // `set_textpos`
    | ColOutOfRange
    | FontTooLarge           // `__init__`
    | NotHorizontallyMapped

  datatype Result<T> = Ok(value: T) | Err(error: Error)

  function Max(a: int, b: int): int { if a >= b then a else b }
  function Min(a: int, b: int): int { if a <= b then a else b }

  // ---------------------------------------------------------------------------
  // Fonts

  /** A glyph as `get_ch` returns it: its bitmap, height and width. The bitmap
      is stored row by row, each row padded to whole bytes, the leftmost pixel
      in the most significant bit. */
  datatype Glyph = Glyph(bytes: seq<bv8>, height: int, width: int)

  /** Bytes per glyph row: `div + 1 if mod else div` for `divmod(wd, 8)`. */
  function RowBytes(width: int): (n: int)
    ensures width >= 1 ==> 1 <= n && 8 * (n - 1) < width <= 8 * n
  {
    if width % 8 != 0 then width / 8 + 1 else width / 8
  }

  /** The glyph layout font files are generated with. */
  predicate GlyphOk(g: Glyph)
  {
    g.width >= 1 && g.height >= 1 && |g.bytes| == g.height * RowBytes(g.width)
  }

  /** A font module: its `height()`, `max_width()`, `hmap()`, `reverse()` and
      the glyphs `get_ch` serves, with the fallback glyph for characters the
      font does not hold. */
  datatype Font = Font(height: int, maxWidth: int, hmap: bool, reverse: bool,
                       glyphs: map<char, Glyph>, fallback: Glyph)

  predicate FontOk(f: Font)
  {
    GlyphOk(f.fallback) && forall c | c in f.glyphs :: GlyphOk(f.glyphs[c])
  }

  /** `font.get_ch(char)`. */
  function GetCh(f: Font, c: char): (g: Glyph)
    ensures FontOk(f) ==> GlyphOk(g)
    ensures c !in f.glyphs ==> g == f.fallback
  {
    if c in f.glyphs then f.glyphs[c] else f.fallback
  }

  /** Byte b of glyph row r. */
  function RowByte(g: Glyph, r: int, b: int): bv8
    requires GlyphOk(g) && 0 <= r < g.height && 0 <= b < RowBytes(g.width)
  {
    ByteIndex(g.height, RowBytes(g.width), r, b);
    g.bytes[r * RowBytes(g.width) + b]
  }

  lemma ByteIndex(height: int, n: int, r: int, b: int)
    requires 0 <= r < height && 0 <= b < n
    ensures 0 <= r * n + b < height * n
  {
    MulLeq(r + 1, height, n);
    assert (r + 1) * n == r * n + n;
    MulLeq(0, r, n);
  }

  lemma MulLeq(a: int, b: int, n: int)
    requires a <= b && 0 <= n
    ensures a * n <= b * n
  {
    assert b * n - a * n == (b - a) * n;
  }

  /** `data & (1 << (7 - gbit))`: the pixel with bit offset k in its byte. */
  predicate Bit(data: bv8, k: int)
    requires 0 <= k < 8
  {
    data & ((1 as bv8) << (7 - k)) != 0
  }

  /** Pixel (r, c) of the glyph is lit. */
  predicate Lit(g: Glyph, r: int, c: int)
    requires GlyphOk(g) && 0 <= r < g.height && 0 <= c < g.width
  {
    Bit(RowByte(g, r, c / 8), c % 8)
  }

  // ---------------------------------------------------------------------------
  // `_truelen`: the printed width of a glyph

  /** The rightmost lit column of row r at or left of column c, or 0 when
      there is none (column 0 counts as printed either way). */
  function RowRightmost(g: Glyph, r: int, c: int): (k: int)
    requires GlyphOk(g) && 0 <= r < g.height && c < g.width
    ensures 0 <= k <= Max(c, 0)
    ensures k > 0 ==> Lit(g, r, k)
    ensures forall j | k < j <= c :: !Lit(g, r, j)
    decreases c
  {
    if c <= 0 then 0
    else if Lit(g, r, c) then c
    else RowRightmost(g, r, c - 1)
  }

  /** The rightmost lit column among the first `rows` rows, or 0. */
  function LitMax(g: Glyph, rows: int): (k: int)
    requires GlyphOk(g) && 0 <= rows <= g.height
    ensures 0 <= k < g.width
    decreases rows
  {
    if rows == 0 then 0
    else Max(LitMax(g, rows - 1), RowRightmost(g, rows - 1, g.width - 1))
  }

  /** The printed width of a glyph: one past its rightmost lit column. */
  function TrueLenSpec(g: Glyph): int
    requires GlyphOk(g)
  {
    LitMax(g, g.height) + 1
  }

  /** No lit pixel lies at or right of column `LitMax`+1 in the rows scanned. */
  lemma {:induction false} LitMaxCovers(g: Glyph, rows: int, r: int, c: int)
    requires GlyphOk(g) && 0 <= r < rows <= g.height && 0 <= c < g.width && Lit(g, r, c)
    ensures c <= LitMax(g, rows)
    decreases rows
  {
    if r < rows - 1 {
      LitMaxCovers(g, rows - 1, r, c);
    }
  }

  /** `LitMax` is 0 or a lit column. */
  lemma {:induction false} LitMaxAttained(g: Glyph, rows: int) returns (r: int)
    requires GlyphOk(g) && 0 <= rows <= g.height && LitMax(g, rows) > 0
    ensures 0 <= r < rows && Lit(g, r, LitMax(g, rows))
    decreases rows
  {
    if LitMax(g, rows) == RowRightmost(g, rows - 1, g.width - 1) {
      r := rows - 1;
    } else {
      r := LitMaxAttained(g, rows - 1);
    }
  }

  /** Once the last column is reached, further rows change nothing. */
  lemma {:induction false} LitMaxSaturates(g: Glyph, rows: int, more: int)
    requires GlyphOk(g) && 0 <= rows <= more <= g.height
    ensures LitMax(g, rows) == g.width - 1 ==> LitMax(g, more) == g.width - 1
    decreases more
  {
    if more > rows {
      LitMaxSaturates(g, rows, more - 1);
    }
  }

  /** The printed width is between 1 and the glyph width; every lit pixel lies
      left of it; and unless it is 1 the column left of it holds a lit pixel.
      In particular an all-blank glyph has printed width 1. */
  lemma TrueLenIsRightmostLit(g: Glyph)
    requires GlyphOk(g)
    ensures 1 <= TrueLenSpec(g) <= g.width
    ensures forall r, c | 0 <= r < g.height && 0 <= c < g.width && Lit(g, r, c) :: c < TrueLenSpec(g)
    ensures var k := TrueLenSpec(g) - 1;
            k > 0 ==> exists r | 0 <= r < g.height :: Lit(g, r, k)
  {
    forall r, c | 0 <= r < g.height && 0 <= c < g.width && Lit(g, r, c)
      ensures c < TrueLenSpec(g)
    {
      LitMaxCovers(g, g.height, r, c);
    }
    if TrueLenSpec(g) > 1 {
      var r := LitMaxAttained(g, g.height);
    }
  }

  lemma TrueLenBounds(g: Glyph)
    requires GlyphOk(g)
    ensures 1 <= TrueLenSpec(g) <= g.width
  {
  }

  lemma TrueLenBlank(g: Glyph)
    requires GlyphOk(g)
    requires forall r, c | 0 <= r < g.height && 0 <= c < g.width :: !Lit(g, r, c)
    ensures TrueLenSpec(g) == 1
  {
    if TrueLenSpec(g) > 1 {
      var r := LitMaxAttained(g, g.height);
    }
  }

  /** `_truelen` as intended: scan each row from the right, stop a row at the
      first lit column or at the best column so far, stop altogether once the
      last column is lit. The byte is read for every column. */
  method TrueLen(g: Glyph) returns (n: int)
    requires GlyphOk(g)
    ensures n == TrueLenSpec(g)
  {
    var mc := 0;
    var row := 0;
    while row < g.height && mc + 1 != g.width
      invariant 0 <= row <= g.height
      invariant mc == LitMax(g, row)
    {
      mc := ScanRow(g, row, mc);
      row := row + 1;
    }
    LitMaxSaturates(g, row, g.height);
    n := mc + 1;
  }

  /** One row of `_truelen` as intended: from the right, stop at the best
      column so far or at the first lit column, which becomes the best. */
  method ScanRow(g: Glyph, row: int, mc0: int) returns (mc: int)
    requires GlyphOk(g) && 0 <= row < g.height && 0 <= mc0 < g.width
    ensures mc == Max(mc0, RowRightmost(g, row, g.width - 1))
  {
    mc := mc0;
    var col := g.width - 1;
    while col >= 0
      invariant -1 <= col < g.width
      invariant RowRightmost(g, row, g.width - 1) == RowRightmost(g, row, col)
    {
      var data := RowByte(g, row, col / 8);
      if col <= mc {
        return;
      }
      if Bit(data, col % 8) {
        mc := col;
        return;
      }
      col := col - 1;
    }
  }

  // The as-written scan (see README, Findings): the byte is reloaded only at
  // a column with bit offset 0, which the downward scan reaches last in each
  // byte, so the higher columns of a byte are tested against a stale byte.

  /** One row of the as-written scan from column `col` down: the new best
      column and the byte held afterwards. */
  function ScanRowAsWritten(g: Glyph, row: int, col: int, data: bv8, mc: int): (r: (int, bv8))
    requires GlyphOk(g) && 0 <= row < g.height && col < g.width
    decreases col + 1
  {
    if col < 0 then (mc, data)
    else
      var data' := if col % 8 == 0 then RowByte(g, row, col / 8) else data;
      if col <= mc then (mc, data')
      else if Bit(data', col % 8) then (col, data')
      else ScanRowAsWritten(g, row, col - 1, data', mc)
  }

  /** Rows `row` .. height-1 of the as-written scan. */
  function ScanAsWritten(g: Glyph, row: int, data: bv8, mc: int): int
    requires GlyphOk(g) && 0 <= row <= g.height
    decreases g.height - row
  {
    if row == g.height then mc
    else
      var r := ScanRowAsWritten(g, row, g.width - 1, data, mc);
      if r.0 + 1 == g.width then r.0
      else ScanAsWritten(g, row + 1, r.1, r.0)
  }

  /** The first byte the as-written scan holds: `glyph[(wd - 1) // 8]`. */
  function FirstByte(g: Glyph): bv8
    requires GlyphOk(g)
  {
    RowByte(g, 0, (g.width - 1) / 8)
  }

  function TrueLenAsWrittenSpec(g: Glyph): int
    requires GlyphOk(g)
  {
    ScanAsWritten(g, 0, FirstByte(g), 0) + 1
  }

  /** Every byte of the glyph is zero, padding bits included. */
  predicate ZeroBytes(g: Glyph)
  {
    forall i | 0 <= i < |g.bytes| :: g.bytes[i] == 0
  }

  /** One row of the as-written scan keeps the best column in [mc, width-1];
      over zero bytes it finds nothing and holds a zero byte. */
  lemma {:induction false} ScanRowAsWrittenBounds(g: Glyph, row: int, col: int, data: bv8, mc: int)
    requires GlyphOk(g) && 0 <= row < g.height && col < g.width && 0 <= mc < g.width
    ensures var r := ScanRowAsWritten(g, row, col, data, mc); mc <= r.0 < g.width
    ensures ZeroBytes(g) && data == 0 ==> ScanRowAsWritten(g, row, col, data, mc) == (mc, 0)
    decreases col + 1
  {
    if col >= 0 {
      if col % 8 == 0 {
        ByteIndex(g.height, RowBytes(g.width), row, col / 8);
      }
      var data' := if col % 8 == 0 then RowByte(g, row, col / 8) else data;
      ScanRowAsWrittenBounds(g, row, col - 1, data', mc);
    }
  }

  /** The remaining rows of the as-written scan keep the same bounds. */
  lemma {:induction false} ScanAsWrittenBounds(g: Glyph, row: int, data: bv8, mc: int)
    requires GlyphOk(g) && 0 <= row <= g.height && 0 <= mc < g.width
    ensures mc <= ScanAsWritten(g, row, data, mc) < g.width
    ensures ZeroBytes(g) && data == 0 ==> ScanAsWritten(g, row, data, mc) == mc
    decreases g.height - row
  {
    if row < g.height {
      var r := ScanRowAsWritten(g, row, g.width - 1, data, mc);
      ScanRowAsWrittenBounds(g, row, g.width - 1, data, mc);
      if r.0 + 1 != g.width {
        ScanAsWrittenBounds(g, row + 1, r.1, r.0);
      }
    }
  }

  /** `_truelen` as written: its result lies in [1, width], and a glyph of
      zero bytes gives 1. */
  method TrueLenAsWritten(g: Glyph) returns (n: int)
    requires GlyphOk(g)
    ensures n == TrueLenAsWrittenSpec(g)
    ensures 1 <= n <= g.width
    ensures ZeroBytes(g) ==> n == 1
  {
    var mc := 0;
    var data := g.bytes[(g.width - 1) / 8];
    assert data == FirstByte(g);
    var row := 0;
    while row < g.height
      invariant 0 <= row <= g.height
      invariant ScanAsWritten(g, row, data, mc) == TrueLenAsWrittenSpec(g) - 1
    {
      mc, data := ScanRowAsWrittenLoop(g, row, data, mc);
      row := row + 1;
      if mc + 1 == g.width {
        break;
      }
    }
    n := mc + 1;
    ByteIndex(g.height, RowBytes(g.width), 0, (g.width - 1) / 8);
    ScanAsWrittenBounds(g, 0, FirstByte(g), 0);
  }

  /** One row of `_truelen` as written. */
  method ScanRowAsWrittenLoop(g: Glyph, row: int, data0: bv8, mc0: int) returns (mc: int, data: bv8)
    requires GlyphOk(g) && 0 <= row < g.height
    ensures (mc, data) == ScanRowAsWritten(g, row, g.width - 1, data0, mc0)
  {
    mc, data := mc0, data0;
    var col := g.width - 1;
    while col >= 0
      invariant -1 <= col < g.width
      invariant ScanRowAsWritten(g, row, col, data, mc) == ScanRowAsWritten(g, row, g.width - 1, data0, mc0)
    {
      if col % 8 == 0 {
        data := RowByte(g, row, col / 8);
      }
      if col <= mc {
        return;
      }
      if Bit(data, col % 8) {
        mc := col;
        return;
      }
      col := col - 1;
    }
  }

  /** A glyph five pixels wide and two high whose only lit pixel is column 3
      of the second row: the as-written scan reports width 1 where the glyph
      prints four columns. */
  lemma TrueLenAsWrittenMissesLowerRow()
    ensures var g := Glyph([0x00, 0x10], 2, 5);
            && GlyphOk(g) && Lit(g, 1, 3)
            && TrueLenAsWrittenSpec(g) == 1 && TrueLenSpec(g) == 4
  {
    var g := Glyph([0x00, 0x10], 2, 5);
    assert RowBytes(5) == 1;
    assert RowByte(g, 0, 0) == 0x00 && RowByte(g, 1, 0) == 0x10;
    assert Lit(g, 1, 3);
    assert ScanRowAsWritten(g, 0, 4, 0x00, 0) == (0, 0x00);
    assert ScanRowAsWritten(g, 1, 4, 0x00, 0) == (0, 0x10);
    assert RowRightmost(g, 0, 4) == 0;
    assert RowRightmost(g, 1, 4) == 3;
  }

  /** A glyph nine pixels wide and one high with no lit pixel, but with a set
      padding bit in its second byte: the as-written scan tests column 7
      against that byte and reports width 8 where the glyph prints one. */
  lemma TrueLenAsWrittenReadsPadding()
    ensures var g := Glyph([0x00, 0x01], 1, 9);
            && GlyphOk(g) && (forall c | 0 <= c < 9 :: !Lit(g, 0, c))
            && TrueLenAsWrittenSpec(g) == 8 && TrueLenSpec(g) == 1
  {
    var g := Glyph([0x00, 0x01], 1, 9);
    assert RowBytes(9) == 2;
    assert RowByte(g, 0, 0) == 0x00 && RowByte(g, 0, 1) == 0x01;
    forall c | 0 <= c < 9
      ensures !Lit(g, 0, c)
    {
      if c < 8 {
        assert RowByte(g, 0, c / 8) == 0x00;
      } else {
        assert c / 8 == 1 && c % 8 == 0;
      }
    }
    assert ScanRowAsWritten(g, 0, 7, 0x01, 0) == (7, 0x01);
    assert ScanRowAsWritten(g, 0, 8, 0x01, 0) == (7, 0x01);
    TrueLenBlank(g);
  }

  // ---------------------------------------------------------------------------
  // The display and the per-display cursor table

  /** The frame buffer formats a horizontally mapped font selects. */
  datatype Format = MonoHLSB | MonoHMSB

  /** A drawing call on a display, in the order it is made. */
  datatype Effect =
    | Scroll(dx: int, dy: int)
    | FillRect(x: int, y: int, w: int, h: int, color: int)
    | Blit(buf: seq<bv8>, width: int, height: int, format: Format, x: int, y: int, key: int)

  /** `Display`: a frame buffer of the given size; its pixels are not
      modelled, the calls that would change them are logged. */
  class Display {
    const width: int
    const height: int
    const mode: int
    var effects: seq<Effect>

    constructor (width: int, height: int, mode: int)
      ensures this.width == width && this.height == height && this.mode == mode
      ensures effects == []
    {
      this.width := width;
      this.height := height;
      this.mode := mode;
      effects := [];
    }

    method Scroll(dx: int, dy: int)
      modifies this
      ensures effects == old(effects) + [Effect.Scroll(dx, dy)]
    {
      effects := effects + [Effect.Scroll(dx, dy)];
    }

    method FillRect(x: int, y: int, w: int, h: int, color: int)
      modifies this
      ensures effects == old(effects) + [Effect.FillRect(x, y, w, h, color)]
    {
      effects := effects + [Effect.FillRect(x, y, w, h, color)];
    }

    method Blit(buf: seq<bv8>, w: int, h: int, format: Format, x: int, y: int, key: int)
      modifies this
      ensures effects == old(effects) + [Effect.Blit(buf, w, h, format, x, y, key)]
    {
      effects := effects + [Effect.Blit(buf, w, h, format, x, y, key)];
    }
  }

  /** What `_get_id` is given: a frame buffer, or some other object. */
  datatype Device = FrameBuffer(display: Display) | OtherObject

  /** `_get_id`: the identity of a frame buffer, `ValueError` for anything
      else. Identity is the object reference itself. */
  function GetId(dev: Device): (r: Result<Display>)
    ensures r.Ok? <==> dev.FrameBuffer?
    ensures r.Ok? ==> r.value == dev.display
    ensures r.Err? ==> r.error == NotAFrameBuffer
  {
    match dev
    case FrameBuffer(d) => Ok(d)
    case OtherObject => Err(NotAFrameBuffer)
  }

  /** `DisplayState`: the text cursor of one display. */
  datatype DisplayState = DisplayState(textRow: int, textCol: int)

  const Origin := DisplayState(0, 0)

  /** The class attribute `Writer.state`: one cursor per display, shared by
      every writer drawing on that display. */
  class StateTable {
    var state: map<Display, DisplayState>

    constructor ()
      ensures state == map[]
    {
      state := map[];
    }
  }

  /** The cursor of a display, created at the origin when first asked for. */
  function CursorOf(state: map<Display, DisplayState>, d: Display): DisplayState
  {
    if d in state then state[d] else Origin
  }

  /** The cursor update of `set_textpos` on a display of the given height and
      width: the row is checked and stored before the column is checked. */
  function TextPos(s: DisplayState, height: int, width: int, row: Option<int>, col: Option<int>)
    : (DisplayState, Result<(int, int)>)
  {
    if row.Some? && (row.value < 0 || row.value >= height) then (s, Err(RowOutOfRange))
    else
      var s1 := if row.Some? then s.(textRow := row.value) else s;
      if col.Some? && (col.value < 0 || col.value >= width) then (s1, Err(ColOutOfRange))
      else
        var s2 := if col.Some? then s1.(textCol := col.value) else s1;
        (s2, Ok((s2.textRow, s2.textCol)))
  }

  /** `set_textpos` succeeds exactly when each given coordinate is on the
      display, and then returns the cursor it leaves; an omitted coordinate
      keeps its value. */
  lemma TextPosOk(s: DisplayState, height: int, width: int, row: Option<int>, col: Option<int>)
    ensures var r := TextPos(s, height, width, row, col);
            && (r.1.Ok? <==> (row.None? || 0 <= row.value < height) && (col.None? || 0 <= col.value < width))
            && (r.1.Ok? ==> r.1.value == (r.0.textRow, r.0.textCol))
            && r.0.textRow == (if row.Some? && 0 <= row.value < height then row.value else s.textRow)
            && (r.1.Ok? ==> r.0.textCol == if col.Some? then col.value else s.textCol)
            && (r.1.Err? ==> r.0.textCol == s.textCol)
  {
  }

  /** A valid row with an invalid column still moves the cursor's row, and
      the error names the column. */
  lemma TextPosRowBeforeCol(s: DisplayState, height: int, width: int, row: int, col: int)
    requires 0 <= row < height && (col < 0 || col >= width)
    ensures TextPos(s, height, width, Some(row), Some(col)) == (DisplayState(row, s.textCol), Err(ColOutOfRange))
  {
  }

  /** `Writer.set_textpos(device, row, col)`. */
  method SetTextPos(table: StateTable, dev: Device, row: Option<int>, col: Option<int>)
    returns (r: Result<(int, int)>)
    modifies table
    ensures dev.OtherObject? ==> r == Err(NotAFrameBuffer) && table.state == old(table.state)
    ensures dev.FrameBuffer? ==>
              var t := TextPos(CursorOf(old(table.state), dev.display), dev.display.height, dev.display.width, row, col);
              r == t.1 && table.state == old(table.state)[dev.display := t.0]
  {
    var id := GetId(dev);
    if id.Err? {
      return Err(id.error);
    }
    var d := id.value;
    if d !in table.state {
      table.state := table.state[d := Origin];
    }
    var s := table.state[d];
    if row.Some? {
      if row.value < 0 || row.value >= d.height {
        return Err(RowOutOfRange);
      }
      s := s.(textRow := row.value);
      table.state := table.state[d := s];
    }
    if col.Some? {
      if col.value < 0 || col.value >= d.width {
        return Err(ColOutOfRange);
      }
      s := s.(textCol := col.value);
      table.state := table.state[d := s];
    }
    r := Ok((s.textRow, s.textCol));
  }

  // ---------------------------------------------------------------------------
  // Layout: what a writer's operations do, as functions of its settings and
  // of the state they change

  /** The background colour `_newline` clears with (`bgcolor`). */
  const Background := 0

  /** The settings the layout reads: the current font, the screen size, the
      clip and wrap flags, the tab size and the blit format. */
  datatype Layout = Layout(font: Font, screenWidth: int, screenHeight: int,
                           rowClip: bool, colClip: bool, wrap: bool, tab: int, format: Format)

  /** What the layout changes: the display's cursor, the tab-stop counter
      `cpos`, the glyph `_get_char` leaves for `_printchar` with its height,
      advance and clipped width, and the display's effect log. */
  datatype Pen = Pen(cursor: DisplayState, cpos: int, glyph: Option<seq<bv8>>,
                     charHeight: int, charWidth: int, clipWidth: int, effects: seq<Effect>)

  /** `_newline`: down by the font height to column 0; when the next line
      would leave the screen and rows are not clipped, scroll up by the
      overflow and clear the strip it uncovers. */
  function NewlineSpec(L: Layout, p: Pen): (q: Pen)
  {
    var h := L.font.height;
    var row := p.cursor.textRow + h;
    var margin := L.screenHeight - (row + h);
    var y := L.screenHeight + margin;
    if margin < 0 && !L.rowClip then
      p.(cursor := DisplayState(row + margin, 0),
         effects := p.effects + [Scroll(0, margin), FillRect(0, y, L.screenWidth, -margin, Background)])
    else p.(cursor := DisplayState(row, 0))
  }

  /** After a newline the cursor is at column 0. Unless rows are clipped, a
      line of the font height fits below it; the row moves down by exactly the
      font height when that line already fits, and otherwise the screen
      scrolls by the overflow. Nothing but the cursor and the log changes. */
  lemma NewlineKeepsLineOnScreen(L: Layout, p: Pen)
    ensures var q := NewlineSpec(L, p);
            && q.cursor.textCol == 0
            && (!L.rowClip ==> q.cursor.textRow + L.font.height <= L.screenHeight)
            && var fits := p.cursor.textRow + 2 * L.font.height <= L.screenHeight;
            && (fits || L.rowClip ==> q.cursor.textRow == p.cursor.textRow + L.font.height && q.effects == p.effects)
            && (!fits && !L.rowClip ==>
                  var overflow := p.cursor.textRow + 2 * L.font.height - L.screenHeight;
                  q.cursor.textRow == L.screenHeight - L.font.height &&
                  q.effects == p.effects + [Scroll(0, -overflow),
                                            FillRect(0, L.screenHeight - overflow, L.screenWidth, overflow, Background)])
            && q.(cursor := p.cursor, effects := p.effects) == p
  {
  }

  lemma SpacesNext(L: Layout, p: Pen, k: nat, q: Pen, r: Pen)
    requires L.tab > 0 && q == Spaces(L, p, k) && r == PrintCharSpec(L, q, ' ', false, true)
    ensures r == Spaces(L, p, k + 1)
  {
  }

  /** The drawing part of `_get_char` (everything after the tab handling):
      clip at the bottom or move to a new line, then clip at the right edge or
      move to a new line, and leave the glyph to draw with its clipped width. */
  function PlaceGlyph(L: Layout, p0: Pen, c: char): (q: Pen)
  {
    var p := p0.(glyph := None);
    if c == '\n' then NewlineSpec(L, p)
    else
      var g := GetCh(L.font, c);
      if p.cursor.textRow + g.height > L.screenHeight && L.rowClip then p
      else
        var p1 := if p.cursor.textRow + g.height > L.screenHeight then NewlineSpec(L, p) else p;
        FitWidth(L, p1, g)
  }

  /** The right-edge part of `_get_char` for glyph g: clip the glyph to the
      columns left on the row (dropping it when none are left), or move to a
      new line, and leave the glyph to draw. */
  function FitWidth(L: Layout, p1: Pen, g: Glyph): (q: Pen)
  {
    var oh := p1.cursor.textCol + g.width - L.screenWidth;
    if oh > 0 && (L.colClip || L.wrap) then
      if g.width - oh <= 0 then p1
      else p1.(glyph := Some(g.bytes), charHeight := g.height, charWidth := g.width, clipWidth := g.width - oh)
    else
      var p2 := if oh > 0 then NewlineSpec(L, p1) else p1;
      p2.(glyph := Some(g.bytes), charHeight := g.height, charWidth := g.width, clipWidth := g.width)
  }

  /** At the bottom edge with rows clipped nothing is drawn and nothing moves. */
  lemma ClipAtBottom(L: Layout, p: Pen, c: char)
    requires c != '\n' && p.cursor.textRow + GetCh(L.font, c).height > L.screenHeight && L.rowClip
    ensures PlaceGlyph(L, p, c) == p.(glyph := None)
  {
  }

  /** A glyph overhanging the right edge, with columns clipped or lines
      wrapped, is cut to the columns left on the row, and dropped when none
      are left; the cursor stays put. */
  lemma ClipAtRightEdge(L: Layout, p: Pen, c: char)
    requires c != '\n' && p.cursor.textRow + GetCh(L.font, c).height <= L.screenHeight
    requires p.cursor.textCol + GetCh(L.font, c).width > L.screenWidth && (L.colClip || L.wrap)
    ensures var q := PlaceGlyph(L, p, c);
            && q.cursor == p.cursor && q.effects == p.effects
            && (q.glyph.Some? <==> L.screenWidth - p.cursor.textCol > 0)
            && (q.glyph.Some? ==> q.clipWidth == L.screenWidth - p.cursor.textCol && q.charWidth == GetCh(L.font, c).width)
  {
  }

  /** A glyph that fits is drawn whole where the cursor is. */
  lemma GlyphFits(L: Layout, p: Pen, c: char)
    requires c != '\n' && p.cursor.textRow + GetCh(L.font, c).height <= L.screenHeight
    requires p.cursor.textCol + GetCh(L.font, c).width <= L.screenWidth
    ensures var g := GetCh(L.font, c);
            PlaceGlyph(L, p, c) == p.(glyph := Some(g.bytes), charHeight := g.height, charWidth := g.width, clipWidth := g.width)
  {
  }

  /** The number of spaces a tab expands to: up to the next multiple of the
      tab size. */
  function TabSpaces(tab: int, cpos: int): (n: int)
    requires tab > 0
    ensures 1 <= n <= tab && cpos % tab + n == tab
  {
    var n := tab - cpos % tab;
    if n == 0 then tab else n
  }

  /** Python's `%`, whose result takes the sign of the divisor. */
  function PyMod(a: int, b: int): (m: int)
    requires b != 0
    ensures b > 0 ==> 0 <= m < b
    ensures b < 0 ==> b < m <= 0
  {
    if b > 0 then a % b else -((-a) % (-b))
  }

  /** A negative tab size (which `tabsize` accepts) gives a negative
      `nspaces`, and `while nspaces:` counting down from it never reaches 0:
      after any number k of iterations the counter is still negative. This is
      why the printing operations below require a positive tab size. */
  lemma NegativeTabNeverStops(tab: int, cpos: int, k: nat)
    requires tab < 0
    ensures var nspaces := tab - PyMod(cpos, tab);
            nspaces < 0 && nspaces - k < 0
  {
  }

  /** `0xFF & ~v` for every byte of the glyph. */
  function Inverted(b: seq<bv8>): (r: seq<bv8>)
    ensures |r| == |b| && forall i | 0 <= i < |b| :: r[i] == !b[i]
  {
    seq(|b|, i requires 0 <= i < |b| => !b[i])
  }

  /** Inverting twice gives the glyph back. */
  lemma InvertedTwice(b: seq<bv8>)
    ensures Inverted(Inverted(b)) == b
  {
  }

  /** The drawing part of `_printchar`: blit the glyph left by `_get_char`
      (inverted if asked) at the cursor, advance the cursor by the glyph's full
      width and count the character for the tab stops. */
  function Draw(L: Layout, q: Pen, invert: bool): Pen
  {
    if q.glyph.None? then q
    else
      var buf := if invert then Inverted(q.glyph.value) else q.glyph.value;
      q.(effects := q.effects + [Blit(buf, q.clipWidth, q.charHeight, L.format, q.cursor.textCol, q.cursor.textRow, 0)],
         cursor := q.cursor.(textCol := q.cursor.textCol + q.charWidth),
         cpos := q.cpos + 1)
  }

  /** The first n spaces of a tab, each printed with `recurse=True`. */
  function Spaces(L: Layout, p: Pen, n: nat): (q: Pen)
    requires L.tab > 0
    ensures p.cpos <= q.cpos <= p.cpos + n
    decreases 0, n, 2
  {
    if n == 0 then p
    else PrintCharSpec(L, Spaces(L, p, n - 1), ' ', false, true)
  }

  /** `_get_char`: unless called from a tab's expansion, a newline resets the
      tab-stop counter and a tab prints spaces up to the next tab stop. */
  function GetCharSpec(L: Layout, p: Pen, c: char, recurse: bool): Pen
    requires L.tab > 0
    decreases if recurse then 0 else 1, 0, 0
  {
    if !recurse && c == '\t' then Spaces(L, p, TabSpaces(L.tab, p.cpos)).(glyph := None)
    else PlaceGlyph(L, if !recurse && c == '\n' then p.(cpos := 0) else p, c)
  }

  /** `_printchar`. */
  function PrintCharSpec(L: Layout, p: Pen, c: char, invert: bool, recurse: bool): Pen
    requires L.tab > 0
    decreases if recurse then 0 else 1, 0, 1
  {
    Draw(L, GetCharSpec(L, p, c, recurse), invert)
  }

  /** A character that is drawn adds exactly one blit, at the cursor, and
      moves the cursor right by the glyph's width. */
  lemma PrintCharAdvances(L: Layout, p: Pen, c: char, invert: bool, recurse: bool)
    requires L.tab > 0 && (recurse || c != '\t')
    requires GetCharSpec(L, p, c, recurse).glyph.Some?
    ensures var q := GetCharSpec(L, p, c, recurse);
            var r := PrintCharSpec(L, p, c, invert, recurse);
            && r.cursor == DisplayState(q.cursor.textRow, q.cursor.textCol + GetCh(L.font, c).width)
            && r.cpos == q.cpos + 1
            && |r.effects| == |q.effects| + 1 && r.effects[..|q.effects|] == q.effects
            && r.effects[|q.effects|].Blit? && r.effects[|q.effects|].x == q.cursor.textCol
            && r.effects[|q.effects|].buf == (if invert then Inverted(GetCh(L.font, c).bytes) else GetCh(L.font, c).bytes)
  {
    var q := GetCharSpec(L, p, c, recurse);
    var r := PrintCharSpec(L, p, c, invert, recurse);
    assert r.effects[..|q.effects|] == q.effects;
  }

  /** A newline character resets the tab-stop counter and starts a new line;
      it draws nothing. */
  lemma PrintNewlineChar(L: Layout, p: Pen, invert: bool)
    requires L.tab > 0
    ensures PrintCharSpec(L, p, '\n', invert, false) == NewlineSpec(L, p.(cpos := 0, glyph := None))
  {
  }

  /** A tab prints between 1 and `tab` spaces, ending on a tab stop when none
      of them is clipped, and leaves no glyph. */
  lemma TabToNextStop(L: Layout, p: Pen, invert: bool)
    requires L.tab > 0
    ensures var n := TabSpaces(L.tab, p.cpos);
            var q := PrintCharSpec(L, p, '\t', invert, false);
            && 1 <= n <= L.tab && p.cpos % L.tab + n == L.tab
            && q == Spaces(L, p, n).(glyph := None)
            && p.cpos <= q.cpos <= p.cpos + n
  {
  }

  // ---------------------------------------------------------------------------
  // String width and word wrap

  /** The sum of the `get_ch` widths of the characters of s. */
  function SumWidths(f: Font, s: string): int
  {
    if s == [] then 0 else SumWidths(f, s[..|s| - 1]) + GetCh(f, s[|s| - 1]).width
  }

  /** Widths are positive, so a longer prefix is at least as wide. */
  lemma {:induction false} SumWidthsPrefix(f: Font, s: string, i: int)
    requires FontOk(f) && 0 <= i <= |s|
    ensures SumWidths(f, s[..i]) <= SumWidths(f, s)
    ensures SumWidths(f, s) >= |s| - i
    decreases |s|
  {
    if s != [] {
      var s' := s[..|s| - 1];
      assert GlyphOk(GetCh(f, s[|s| - 1]));
      if i < |s| {
        assert s'[..i] == s[..i];
        SumWidthsPrefix(f, s', i);
      } else {
        assert s[..i] == s;
        SumWidthsPrefix(f, s', |s'|);
      }
    }
  }

  /** What `stringlen` returns: a width, or for `oh=True` on a non-empty
      string whether it overhangs the screen. */
  datatype StrLen = Width(n: int) | Overhang(b: bool)

  /** Python truth: the width 0 is false. */
  predicate Truthy(r: StrLen)
  {
    if r.Width? then r.n != 0 else r.b
  }

  /** `stringlen(string, oh)` with the cursor at column `sc` of a screen `wd`
      wide: the total width, or whether the string's printed width (the last
      glyph counted without its blank right columns) runs past the screen. */
  function StringLenSpec(f: Font, s: string, sc: int, wd: int, oh: bool): StrLen
    requires FontOk(f)
  {
    if |s| == 0 then Width(0)
    else if !oh then Width(SumWidths(f, s))
    else Overhang(SumWidths(f, s[..|s| - 1]) + TrueLenSpec(GetCh(f, s[|s| - 1])) + sc > wd)
  }

  /** The empty string never overhangs; a string overhangs at most when its
      full width does, and exactly then when its last glyph has no blank
      columns on the right. */
  lemma OverhangBounds(f: Font, s: string, sc: int, wd: int)
    requires FontOk(f)
    ensures s == [] ==> !Truthy(StringLenSpec(f, s, sc, wd, true))
    ensures Truthy(StringLenSpec(f, s, sc, wd, true)) ==> SumWidths(f, s) + sc > wd
    ensures s != [] && SumWidths(f, s) + sc > wd &&
            TrueLenSpec(GetCh(f, s[|s| - 1])) == GetCh(f, s[|s| - 1]).width ==>
              Truthy(StringLenSpec(f, s, sc, wd, true))
  {
    if s != [] {
      TrueLenIsRightmostLit(GetCh(f, s[|s| - 1]));
    }
  }

  /** `stringlen` as written: the last glyph's printed width comes from the
      as-written `_truelen` (see README, Findings). It still never reports an
      overhang the full width does not have. */
  function StringLenAsWrittenSpec(f: Font, s: string, sc: int, wd: int, oh: bool): (r: StrLen)
    requires FontOk(f)
    ensures oh && |s| > 0 ==> r.Overhang? && (r.b ==> SumWidths(f, s) + sc > wd)
  {
    if |s| == 0 then Width(0)
    else if !oh then Width(SumWidths(f, s))
    else
      var g := GetCh(f, s[|s| - 1]);
      ScanAsWrittenBounds(g, 0, FirstByte(g), 0);
      Overhang(SumWidths(f, s[..|s| - 1]) + TrueLenAsWrittenSpec(g) + sc > wd)
  }

  predicate IsSpace(c: char)
  {
    c == ' ' || c == '\t' || c == '\n' || c == '\r' || c as int == 11 || c as int == 12
  }

  /** `s.rfind(c)`: the last index of c, or -1. */
  function RFind(s: string, c: char): (i: int)
    ensures -1 <= i < |s|
    ensures i >= 0 ==> s[i] == c
    ensures forall k | i < k < |s| :: s[k] != c
  {
    if |s| == 0 then -1
    else if s[|s| - 1] == c then |s| - 1
    else RFind(s[..|s| - 1], c)
  }

  /** `s.rstrip()`: s without its trailing white space. */
  function RStrip(s: string): (r: string)
    ensures r <= s && (r == [] || !IsSpace(r[|r| - 1]))
    ensures forall k | |r| <= k < |s| :: IsSpace(s[k])
  {
    if |s| > 0 && IsSpace(s[|s| - 1]) then RStrip(s[..|s| - 1]) else s
  }

  /** The end of the slice `s[:pos]` for a string of length n. */
  function SliceEnd(pos: int, n: int): (e: int)
    requires n >= 0
    ensures 0 <= e <= n
  {
    if pos < 0 then Max(n + pos, 0) else Min(pos, n)
  }

  /** The shrinking loop of `_printline`: while the candidate overhangs, cut
      it at its last space (or, with no space, drop its last character) and
      strip trailing blanks. The result is the final candidate and the last
      cut position. */
  function Shrink(f: Font, sc: int, wd: int, lstr: string, pos: int): (r: (string, int))
    requires FontOk(f)
    ensures r.0 <= lstr
    ensures r.1 == pos || -1 <= r.1 < |lstr|
    ensures !Truthy(StringLenSpec(f, r.0, sc, wd, true))
    decreases |lstr|
  {
    if Truthy(StringLenSpec(f, lstr, sc, wd, true)) then
      var pos' := RFind(lstr, ' ');
      var next := RStrip(lstr[..SliceEnd(pos', |lstr|)]);
      ShrinkStep(lstr, pos', next);
      Shrink(f, sc, wd, next, pos')
    else (lstr, pos)
  }

  lemma ShrinkStep(lstr: string, pos: int, next: string)
    requires |lstr| > 0 && -1 <= pos < |lstr| && next <= lstr[..SliceEnd(pos, |lstr|)]
    ensures next <= lstr && |next| < |lstr|
  {
  }

  /** The word-wrap decision of `_printline`: the part to print on this line
      and the rest to print on the next, if any. */
  function WrapSplit(L: Layout, sc: int, s: string): (r: (string, Option<string>))
    requires FontOk(L.font)
    ensures r.1.None? ==> r.0 == s
    ensures r.1.Some? ==> r.0 <= s && |r.1.value| < |s| && s == s[..|s| - |r.1.value| - 1] + [' '] + r.1.value
  {
    if L.wrap && Truthy(StringLenSpec(L.font, s, sc, L.screenWidth, true)) then
      var sh := Shrink(L.font, sc, L.screenWidth, s, 0);
      if sh.1 > 0 then
        RFindSpace(L.font, sc, L.screenWidth, s, sh);
        CutAt(s, sh.1);
        (sh.0, Some(s[sh.1 + 1..]))
      else (s, None)
    else (s, None)
  }

  /** A split happens at a space of the original string. */
  lemma RFindSpace(f: Font, sc: int, wd: int, s: string, sh: (string, int))
    requires FontOk(f) && Truthy(StringLenSpec(f, s, sc, wd, true)) && sh == Shrink(f, sc, wd, s, 0) && sh.1 > 0
    ensures sh.1 < |s| && s[sh.1] == ' '
  {
    ShrinkCutsAtSpace(f, sc, wd, s, s, 0);
  }

  /** Every cut the shrinking loop makes is at a space of the string it
      started from. */
  lemma {:induction false} ShrinkCutsAtSpace(f: Font, sc: int, wd: int, s: string, lstr: string, pos: int)
    requires FontOk(f) && lstr <= s && (pos <= 0 || (pos < |s| && s[pos] == ' '))
    ensures var r := Shrink(f, sc, wd, lstr, pos);
            r.1 <= 0 || (r.1 < |s| && s[r.1] == ' ')
    decreases |lstr|
  {
    if Truthy(StringLenSpec(f, lstr, sc, wd, true)) {
      var pos' := RFind(lstr, ' ');
      var next := RStrip(lstr[..SliceEnd(pos', |lstr|)]);
      ShrinkStep(lstr, pos', next);
      assert pos' >= 0 ==> s[pos'] == lstr[pos'];
      ShrinkCutsAtSpace(f, sc, wd, s, next, pos');
    }
  }

  /** `for char in string: self._printchar(char, invert)`. */
  function PrintCharsSpec(L: Layout, p: Pen, s: string, invert: bool): Pen
    requires L.tab > 0
  {
    if s == [] then p else PrintCharSpec(L, PrintCharsSpec(L, p, s[..|s| - 1], invert), s[|s| - 1], invert, false)
  }

  /** `_printline`: print the part that fits, then a newline and the rest. */
  function PrintLineSpec(L: Layout, p: Pen, s: string, invert: bool): Pen
    requires L.tab > 0 && FontOk(L.font)
    decreases |s|
  {
    var w := WrapSplit(L, p.cursor.textCol, s);
    var q := PrintCharsSpec(L, p, w.0, invert);
    if w.1.Some? then PrintLineSpec(L, PrintCharSpec(L, q, '\n', false, false), w.1.value, invert)
    else q
  }

  /** Glyphs five wide and two high: a blank one, and the one of
      TrueLenAsWrittenMissesLowerRow. */
  function BlankGlyph(): Glyph { Glyph([0x00, 0x00], 2, 5) }
  function LowerRowGlyph(): Glyph { Glyph([0x00, 0x10], 2, 5) }

  /** A font where 'a' and ' ' are blank and 'x' is LowerRowGlyph. */
  function SampleFont(): Font
  {
    Font(2, 5, true, false, map['a' := BlankGlyph(), ' ' := BlankGlyph(), 'x' := LowerRowGlyph()], BlankGlyph())
  }

  lemma SampleGlyphs()
    ensures GlyphOk(BlankGlyph()) && GlyphOk(LowerRowGlyph()) && FontOk(SampleFont())
    ensures GetCh(SampleFont(), 'a') == BlankGlyph() && GetCh(SampleFont(), ' ') == BlankGlyph()
    ensures GetCh(SampleFont(), 'x') == LowerRowGlyph()
  {
    assert RowBytes(5) == 1;
  }

  /** The printed widths of "a x" in a font with those glyphs. */
  lemma SampleWidths(f: Font, s: string)
    requires FontOk(f) && GetCh(f, 'a') == BlankGlyph() && GetCh(f, ' ') == BlankGlyph()
    requires |s| == 3 && s[0] == 'a' && s[1] == ' '
    ensures SumWidths(f, s[..2]) == 10
  {
    var t := s[..2];
    assert t[..1] == s[..1] && t[1] == ' ';
    assert s[..1][..0] == [] && s[..1][0] == 'a';
    assert SumWidths(f, s[..1]) == 5;
  }

  lemma SampleTrueLens()
    ensures GlyphOk(BlankGlyph()) && GlyphOk(LowerRowGlyph())
    ensures TrueLenSpec(BlankGlyph()) == 1 && TrueLenSpec(LowerRowGlyph()) == 4
    ensures TrueLenAsWrittenSpec(LowerRowGlyph()) == 1
  {
    BlankGlyphWidth();
    assert LowerRowGlyph() == Glyph([0x00, 0x10], 2, 5);
    TrueLenAsWrittenMissesLowerRow();
  }

  lemma BlankGlyphWidth()
    ensures GlyphOk(BlankGlyph()) && TrueLenSpec(BlankGlyph()) == 1
  {
    var g := BlankGlyph();
    assert RowBytes(5) == 1;
    forall r, c | 0 <= r < g.height && 0 <= c < g.width
      ensures !Lit(g, r, c)
    {
      assert c / 8 == 0 && RowByte(g, r, 0) == 0;
    }
    TrueLenBlank(g);
  }

  /** The wrap decision differs on a line ending in LowerRowGlyph: with
      wrap on, the cursor at column 0 and a screen 12 wide, "a x" with 'a'
      and ' ' five wide does not overhang as written, so `_printline` prints
      it on one line, while the corrected width 4 makes it overhang and the
      model wraps "x" onto the next line. SampleGlyphs shows such a font
      exists. */
  lemma WrapAsWrittenKeepsLine(L: Layout, s: string)
    requires FontOk(L.font) && L.wrap && L.screenWidth == 12
    requires GetCh(L.font, 'a') == BlankGlyph() && GetCh(L.font, ' ') == BlankGlyph()
    requires GetCh(L.font, 'x') == LowerRowGlyph()
    requires |s| == 3 && s[0] == 'a' && s[1] == ' ' && s[2] == 'x'
    ensures StringLenAsWrittenSpec(L.font, s, 0, L.screenWidth, true) == Overhang(false)
    ensures StringLenSpec(L.font, s, 0, L.screenWidth, true) == Overhang(true)
    ensures WrapSplit(L, 0, s) == (s[..1], Some(s[2..]))
  {
    SampleOverhangs(L.font, s);
    SampleWraps(L, s);
  }

  lemma SampleWraps(L: Layout, s: string)
    requires FontOk(L.font) && L.wrap && L.screenWidth == 12
    requires GetCh(L.font, 'a') == BlankGlyph() && GetCh(L.font, ' ') == BlankGlyph()
    requires GetCh(L.font, 'x') == LowerRowGlyph()
    requires |s| == 3 && s[0] == 'a' && s[1] == ' ' && s[2] == 'x'
    ensures WrapSplit(L, 0, s) == (s[..1], Some(s[2..]))
  {
    SampleOverhangs(L.font, s);
    SampleShrink(L.font, s);
  }

  lemma SampleOverhangs(f: Font, s: string)
    requires FontOk(f) && GetCh(f, 'a') == BlankGlyph() && GetCh(f, ' ') == BlankGlyph()
    requires GetCh(f, 'x') == LowerRowGlyph()
    requires |s| == 3 && s[0] == 'a' && s[1] == ' ' && s[2] == 'x'
    ensures StringLenAsWrittenSpec(f, s, 0, 12, true) == Overhang(false)
    ensures StringLenSpec(f, s, 0, 12, true) == Overhang(true)
  {
    SampleWidths(f, s);
    SampleTrueLens();
    assert s[..|s| - 1] == s[..2] && s[|s| - 1] == 'x';
  }

  /** Shrinking "a x" cuts at its space and keeps "a". */
  lemma SampleShrink(f: Font, s: string)
    requires FontOk(f) && GetCh(f, 'a') == BlankGlyph() && GetCh(f, ' ') == BlankGlyph()
    requires GetCh(f, 'x') == LowerRowGlyph()
    requires |s| == 3 && s[0] == 'a' && s[1] == ' ' && s[2] == 'x'
    ensures Shrink(f, 0, 12, s, 0) == (s[..1], 1)
  {
    SampleOverhangs(f, s);
    SampleRFind(s);
    var a := s[..1];
    SampleHeadFits(f, a);
    assert a[|a| - 1] == 'a';
    RStripKeeps(a);
    assert Shrink(f, 0, 12, a, 1) == (a, 1);
  }

  lemma SampleHeadFits(f: Font, a: string)
    requires FontOk(f) && GetCh(f, 'a') == BlankGlyph()
    requires |a| == 1 && a[0] == 'a'
    ensures StringLenSpec(f, a, 0, 12, true) == Overhang(false)
  {
    assert a[..0] == [];
    BlankGlyphWidth();
  }

  lemma RStripKeeps(t: string)
    requires |t| > 0 && t[|t| - 1] == 'a'
    ensures RStrip(t) == t
  {
  }

  lemma SampleRFind(s: string)
    requires |s| == 3 && s[0] == 'a' && s[1] == ' ' && s[2] == 'x'
    ensures RFind(s, ' ') == 1 && s[..SliceEnd(1, 3)] == s[..1]
  {
    var t := s[..2];
    assert |t| == 2 && t[1] == ' ';
    assert RFind(t, ' ') == 1;
    assert s[..|s| - 1] == t;
  }

  /** One line of `_printline`: after the part that fits, the newline and
      the rest of the line. */
  lemma PrintLineStep(L: Layout, p: Pen, s: string, invert: bool, q: Pen, q': Pen, r: Pen)
    requires L.tab > 0 && FontOk(L.font)
    requires var w := WrapSplit(L, p.cursor.textCol, s);
             && q == PrintCharsSpec(L, p, w.0, invert)
             && (w.1.Some? ==> q' == PrintCharSpec(L, q, '\n', false, false) && r == PrintLineSpec(L, q', w.1.value, invert))
             && (w.1.None? ==> r == q)
    ensures PrintLineSpec(L, p, s, invert) == r
  {
  }

  /** Without word wrap, or when the line fits, `_printline` prints every
      character of the line and nothing else. */
  lemma PrintLineNoWrap(L: Layout, p: Pen, s: string, invert: bool)
    requires L.tab > 0 && FontOk(L.font)
    requires !L.wrap || !Truthy(StringLenSpec(L.font, s, p.cursor.textCol, L.screenWidth, true))
    ensures PrintLineSpec(L, p, s, invert) == PrintCharsSpec(L, p, s, invert)
  {
  }

  // ---------------------------------------------------------------------------
  // `printstring`: segments between newlines

  /** The index of the first newline in s, or |s|. */
  function NewlineIndex(s: string): (i: int)
    ensures 0 <= i <= |s| && (i < |s| ==> s[i] == '\n')
    ensures forall k | 0 <= k < i :: s[k] != '\n'
  {
    if |s| == 0 || s[0] == '\n' then 0 else NewlineIndex(s[1..]) + 1
  }

  /** `s.split('\n')`. */
  function Split(s: string): (parts: seq<string>)
    ensures |parts| >= 1
    decreases |s|
  {
    var i := NewlineIndex(s);
    if i == |s| then [s] else [s[..i]] + Split(s[i + 1..])
  }

  /** `'\\n'.join(parts)`. */
  function Join(parts: seq<string>): string
    requires |parts| >= 1
  {
    if |parts| == 1 then parts[0] else Join(parts[..|parts| - 1]) + "\n" + parts[|parts| - 1]
  }

  /** The number of newlines in s. */
  function NewlineCount(s: string): nat
  {
    if s == [] then 0 else NewlineCount(s[..|s| - 1]) + (if s[|s| - 1] == '\n' then 1 else 0)
  }

  lemma {:induction false} NewlineCountAppend(a: string, b: string)
    ensures NewlineCount(a + b) == NewlineCount(a) + NewlineCount(b)
    decreases |b|
  {
    if b != [] {
      var b' := b[..|b| - 1];
      assert (a + b)[..|a + b| - 1] == a + b';
      assert (a + b)[|a + b| - 1] == b[|b| - 1];
      NewlineCountAppend(a, b');
    } else {
      assert a + b == a;
    }
  }

  lemma {:induction false} NewlineCountNone(s: string)
    requires forall k | 0 <= k < |s| :: s[k] != '\n'
    ensures NewlineCount(s) == 0
    decreases |s|
  {
    if s != [] {
      NewlineCountNone(s[..|s| - 1]);
    }
  }

  /** The first split: the part before the first newline, then the split
      of the rest. */
  lemma SplitFirst(s: string)
    requires NewlineIndex(s) < |s|
    ensures var i := NewlineIndex(s);
            && Split(s) == [s[..i]] + Split(s[i + 1..])
            && s == s[..i] + "\n" + s[i + 1..]
  {
    CutAtNewline(s, NewlineIndex(s));
  }

  lemma CutAtNewline(s: string, i: int)
    requires 0 <= i < |s| && s[i] == '\n'
    ensures s == s[..i] + "\n" + s[i + 1..]
  {
    CutAt(s, i);
  }

  /** A string is its part before index i, the character at i, and its part
      after i. */
  lemma CutAt<T>(s: seq<T>, i: int)
    requires 0 <= i < |s|
    ensures s == s[..i] + [s[i]] + s[i + 1..]
  {
    assert s[..i] + [s[i]] == s[..i + 1];
  }

  /** Splitting at newlines and joining with newlines gives the string back. */
  lemma {:induction false} SplitJoin(s: string)
    ensures Join(Split(s)) == s
    decreases |s|
  {
    var i := NewlineIndex(s);
    if i == |s| {
      assert s[..i] == s;
    } else {
      SplitFirst(s);
      SplitJoin(s[i + 1..]);
      JoinCons(s[..i], Split(s[i + 1..]));
    }
  }

  /** No part of a split holds a newline. */
  lemma {:induction false} SplitNoNewline(s: string)
    ensures forall j, k | 0 <= j < |Split(s)| && 0 <= k < |Split(s)[j]| :: Split(s)[j][k] != '\n'
    decreases |s|
  {
    var i := NewlineIndex(s);
    if i == |s| {
      assert s[..i] == s;
    } else {
      SplitFirst(s);
      SplitNoNewline(s[i + 1..]);
      var parts := Split(s);
      forall j, k | 0 <= j < |parts| && 0 <= k < |parts[j]|
        ensures parts[j][k] != '\n'
      {
        if j > 0 {
          assert parts[j] == Split(s[i + 1..])[j - 1];
        }
      }
    }
  }

  /** A split has one more part than the string has newlines. */
  lemma {:induction false} SplitCount(s: string)
    ensures |Split(s)| == NewlineCount(s) + 1
    decreases |s|
  {
    var i := NewlineIndex(s);
    if i == |s| {
      assert s[..i] == s;
      NewlineCountNone(s);
    } else {
      SplitFirst(s);
      SplitCount(s[i + 1..]);
      NewlineCountNone(s[..i]);
      NewlineCountAppend(s[..i] + "\n", s[i + 1..]);
      NewlineCountAppend(s[..i], "\n");
    }
  }

  /** A step of `printstring`: a non-empty segment printed as a line, or the
      newline between two segments. */
  datatype Action = Line(text: string) | Break

  /** The steps `printstring` takes for the first n segments of q. */
  function Plan(q: seq<string>, n: nat): seq<Action>
    requires n <= |q|
  {
    if n == 0 then []
    else Plan(q, n - 1) + (if q[n - 1] != "" then [Line(q[n - 1])] else []) + (if n - 1 != |q| - 1 then [Break] else [])
  }

  /** The text the steps print: each line's text, a newline for each break. */
  function Flatten(acts: seq<Action>): string
  {
    if acts == [] then ""
    else Flatten(acts[..|acts| - 1]) + (match acts[|acts| - 1] case Line(t) => t case Break => "\n")
  }

  function BreakCount(acts: seq<Action>): nat
  {
    if acts == [] then 0 else BreakCount(acts[..|acts| - 1]) + (if acts[|acts| - 1].Break? then 1 else 0)
  }

  lemma {:induction false} FlattenAppend(a: seq<Action>, b: seq<Action>)
    ensures Flatten(a + b) == Flatten(a) + Flatten(b)
    ensures BreakCount(a + b) == BreakCount(a) + BreakCount(b)
    decreases |b|
  {
    if b != [] {
      var b' := b[..|b| - 1];
      assert (a + b)[..|a + b| - 1] == a + b';
      assert (a + b)[|a + b| - 1] == b[|b| - 1];
      FlattenAppend(a, b');
    } else {
      assert a + b == a;
    }
  }

  lemma {:induction false} JoinCons(x: string, parts: seq<string>)
    requires |parts| >= 1
    ensures Join([x] + parts) == x + "\n" + Join(parts)
    decreases |parts|
  {
    var xs := [x] + parts;
    if |parts| > 1 {
      assert xs[..|xs| - 1] == [x] + parts[..|parts| - 1];
      JoinCons(x, parts[..|parts| - 1]);
    } else {
      assert xs[..1] == [x];
    }
  }

  /** The steps segment n adds: its line unless it is empty, then a break
      unless it is the last. */
  function Step(q: seq<string>, n: nat): seq<Action>
    requires 1 <= n <= |q|
  {
    (if q[n - 1] != "" then [Line(q[n - 1])] else []) + (if n - 1 != |q| - 1 then [Break] else [])
  }

  lemma StepFacts(q: seq<string>, n: nat)
    requires 1 <= n <= |q|
    ensures Plan(q, n) == Plan(q, n - 1) + Step(q, n)
    ensures Flatten(Step(q, n)) == q[n - 1] + (if n < |q| then "\n" else "")
    ensures BreakCount(Step(q, n)) == if n < |q| then 1 else 0
    ensures forall k | 0 <= k < |Step(q, n)| :: Step(q, n)[k] != Line("")
  {
    var mid := if q[n - 1] != "" then [Line(q[n - 1])] else [];
    var tail := if n - 1 != |q| - 1 then [Break] else [];
    assert Flatten(mid) == q[n - 1] && BreakCount(mid) == 0 by {
      if mid != [] {
        assert mid[..0] == [];
      }
    }
    assert Flatten(tail) == (if n < |q| then "\n" else "") && BreakCount(tail) == (if n < |q| then 1 else 0) by {
      if tail != [] {
        assert tail[..0] == [];
      }
    }
    FlattenAppend(mid, tail);
  }

  /** The steps print the segments joined by newlines, followed by one more
      newline while segments remain. */
  lemma {:induction false} PlanFlatten(q: seq<string>, n: nat)
    requires 1 <= n <= |q|
    ensures Flatten(Plan(q, n)) == Join(q[..n]) + (if n < |q| then "\n" else "")
    decreases n
  {
    var rest := if n < |q| then "\n" else "";
    assert Flatten(Plan(q, n)) == Flatten(Plan(q, n - 1)) + (q[n - 1] + rest) by {
      StepFacts(q, n);
      FlattenAppend(Plan(q, n - 1), Step(q, n));
    }
    if n == 1 {
      assert Flatten(Plan(q, 0)) == "";
      assert q[..1] == [q[0]];
    } else {
      var j := Join(q[..n - 1]);
      assert Flatten(Plan(q, n - 1)) == j + "\n" by {
        PlanFlatten(q, n - 1);
      }
      assert Join(q[..n]) == j + "\n" + q[n - 1] by {
        assert q[..n][..n - 1] == q[..n - 1];
      }
      ConcatAssoc(j + "\n", q[n - 1], rest);
    }
  }

  lemma ConcatAssoc<T>(a: seq<T>, b: seq<T>, c: seq<T>)
    ensures a + (b + c) == (a + b) + c
  {
  }

  /** One break per newline printed. */
  lemma {:induction false} PlanBreaks(q: seq<string>, n: nat)
    requires 1 <= n <= |q|
    ensures BreakCount(Plan(q, n)) == if n < |q| then n else n - 1
    decreases n
  {
    StepFacts(q, n);
    FlattenAppend(Plan(q, n - 1), Step(q, n));
    if n > 1 {
      PlanBreaks(q, n - 1);
    }
  }

  /** No step prints an empty line. */
  lemma {:induction false} PlanNoEmptyLine(q: seq<string>, n: nat)
    requires n <= |q|
    ensures forall k | 0 <= k < |Plan(q, n)| :: Plan(q, n)[k] != Line("")
    decreases n
  {
    if n > 0 {
      StepFacts(q, n);
      PlanNoEmptyLine(q, n - 1);
    }
  }

  /** `printstring` prints exactly its input, one break per newline in it, and
      never an empty line. */
  lemma PrintStringPlan(s: string)
    ensures var q := Split(s);
            && Flatten(Plan(q, |q|)) == s
            && BreakCount(Plan(q, |q|)) == NewlineCount(s)
            && forall k | 0 <= k < |Plan(q, |q|)| :: Plan(q, |q|)[k] != Line("")
  {
    var q := Split(s);
    SplitJoin(s);
    SplitCount(s);
    PlanFlatten(q, |q|);
    PlanBreaks(q, |q|);
    PlanNoEmptyLine(q, |q|);
    assert q[..|q|] == q;
  }

  /** Carry out the steps: a line with `_printline`, a break with
      `_printchar('\\n')`. */
  function Perform(L: Layout, p: Pen, acts: seq<Action>, invert: bool): Pen
    requires L.tab > 0 && FontOk(L.font)
  {
    if acts == [] then p
    else
      var q := Perform(L, p, acts[..|acts| - 1], invert);
      match acts[|acts| - 1]
      case Line(t) => PrintLineSpec(L, q, t, invert)
      case Break => PrintCharSpec(L, q, '\n', false, false)
  }

  lemma {:induction false} PerformAppend(L: Layout, p: Pen, a: seq<Action>, b: seq<Action>, invert: bool)
    requires L.tab > 0 && FontOk(L.font)
    ensures Perform(L, p, a + b, invert) == Perform(L, Perform(L, p, a, invert), b, invert)
    decreases |b|
  {
    if b != [] {
      var b' := b[..|b| - 1];
      assert (a + b)[..|a + b| - 1] == a + b';
      assert (a + b)[|a + b| - 1] == b[|b| - 1];
      PerformAppend(L, p, a, b', invert);
    } else {
      assert a + b == a;
    }
  }

  /** `printstring`. */
  function PrintStringSpec(L: Layout, p: Pen, s: string, invert: bool): Pen
    requires L.tab > 0 && FontOk(L.font)
  {
    var q := Split(s);
    Perform(L, p, Plan(q, |q|), invert)
  }

  /** Each segment of `printstring`: its line unless empty, then the newline
      unless it is the last segment. */
  lemma PerformStep(L: Layout, p: Pen, q: seq<string>, n: nat, invert: bool, r: Pen, r': Pen)
    requires L.tab > 0 && FontOk(L.font) && n < |q|
    requires r == Perform(L, p, Plan(q, n), invert)
    requires var r1 := if q[n] != "" then PrintLineSpec(L, r, q[n], invert) else r;
             r' == if n != |q| - 1 then PrintCharSpec(L, r1, '\n', false, false) else r1
    ensures Perform(L, p, Plan(q, n + 1), invert) == r'
  {
    var mid := if q[n] != "" then [Line(q[n])] else [];
    var tail := if n != |q| - 1 then [Break] else [];
    var r1 := if q[n] != "" then PrintLineSpec(L, r, q[n], invert) else r;
    assert Perform(L, r, mid, invert) == r1 by {
      if mid != [] {
        assert mid[..0] == [];
      }
    }
    assert Perform(L, r1, tail, invert) == r' by {
      if tail != [] {
        assert tail[..0] == [];
      }
    }
    assert Perform(L, r, Step(q, n + 1), invert) == r' by {
      PerformAppend(L, r, mid, tail, invert);
    }
    assert Plan(q, n + 1) == Plan(q, n) + Step(q, n + 1) by {
      StepFacts(q, n + 1);
    }
    PerformAppend(L, p, Plan(q, n), Step(q, n + 1), invert);
  }

  lemma UpdateSame<K, V>(m: map<K, V>, k: K)
    requires k in m
    ensures m[k := m[k]] == m
  {
  }

  lemma UpdateTwice<K, V>(m: map<K, V>, k: K, a: V, b: V)
    ensures m[k := a][k := b] == m[k := b]
  {
  }

  /** `0xFF & ~v` for each byte of the buffer, in place. */
  method InvertBytes(buf: array<bv8>)
    modifies buf
    ensures buf[..] == Inverted(old(buf[..]))
  {
    for i := 0 to buf.Length
      invariant forall k | 0 <= k < i :: buf[k] == !old(buf[k])
      invariant forall k | i <= k < buf.Length :: buf[k] == old(buf[k])
    {
      buf[i] := 0xFF & !buf[i];
    }
  }

  // ---------------------------------------------------------------------------
  // Writer

  /** A writer renders one font on one display. The display's cursor lives in
      the shared table, so writers on the same display share it. */
  class Writer {
    const device: Display
    const table: StateTable
    const fontFamily: string
    /** The font modules `_change_font_size` imports, by family, size and
        boldness. */
    const fonts: (string, int, bool) -> Font
    const format: Format
    const screenWidth: int
    const screenHeight: int
    var fontSize: int
    var font: Font
    var rowClip: bool
    var colClip: bool
    var wrap: bool
    var cpos: int
    var tab: int
    var glyph: Option<seq<bv8>>
    var charHeight: int
    var charWidth: int
    var clipWidth: int

    predicate Valid()
      reads this, table
    {
      device in table.state && FontOk(font)
    }

    function LayoutOf(): Layout
      reads this
    {
      Layout(font, screenWidth, screenHeight, rowClip, colClip, wrap, tab, format)
    }

    function PenOf(): Pen
      reads this, table, device
      requires device in table.state
    {
      Pen(table.state[device], cpos, glyph, charHeight, charWidth, clipWidth, device.effects)
    }

    /** The state `__init__` leaves once its checks pass. */
    constructor (device: Display, table: StateTable, fontFamily: string, fonts: (string, int, bool) -> Font)
      requires device in table.state && FontOk(fonts(fontFamily, 24, false))
      ensures this.device == device && this.table == table && this.fontFamily == fontFamily && this.fonts == fonts
      ensures fontSize == 24 && font == fonts(fontFamily, 24, false)
      ensures LayoutOf() == Layout(font, device.width, device.height, false, false, true, 4,
                                   if font.reverse then MonoHMSB else MonoHLSB)
      ensures cpos == 0 && glyph == None && charHeight == 0 && charWidth == 0 && clipWidth == 0
      ensures Valid()
    {
      this.device := device;
      this.table := table;
      this.fontFamily := fontFamily;
      this.fonts := fonts;
      fontSize := 24;
      var f := fonts(fontFamily, 24, false);
      font := f;
      format := if f.reverse then MonoHMSB else MonoHLSB;
      screenWidth := device.width;
      screenHeight := device.height;
      rowClip := false;
      colClip := false;
      wrap := true;
      cpos := 0;
      tab := 4;
      glyph := None;
      charHeight := 0;
      charWidth := 0;
      clipWidth := 0;
    }

    /** `_change_font_size`: a new size loads that font; the same size keeps
        the current font, whatever `bold` asks for. */
    method ChangeFontSize(size: int, bold: bool)
      modifies this
      ensures if old(fontSize) == size then font == old(font) else font == fonts(fontFamily, size, bold)
      ensures fontSize == size
      ensures LayoutOf() == old(LayoutOf()).(font := font)
      ensures cpos == old(cpos) && glyph == old(glyph) && charHeight == old(charHeight)
      ensures charWidth == old(charWidth) && clipWidth == old(clipWidth)
    {
      if fontSize == size {
        return;
      }
      fontSize := size;
      font := fonts(fontFamily, size, bold);
    }

    /** `_newline`. */
    method Newline()
      requires Valid()
      modifies table, device
      ensures Valid()
      ensures PenOf() == NewlineSpec(LayoutOf(), old(PenOf()))
      ensures table.state == old(table.state)[device := PenOf().cursor]
    {
      var s := table.state[device];
      var height := font.height;
      var row := s.textRow + height;
      table.state := table.state[device := DisplayState(row, 0)];
      var margin := screenHeight - (row + height);
      var y := screenHeight + margin;
      if margin < 0 {
        if !rowClip {
          device.Scroll(0, margin);
          device.FillRect(0, y, screenWidth, -margin, Background);
          table.state := table.state[device := DisplayState(row + margin, 0)];
        }
      }
    }

    /** `set_clip`: each given flag is set; all three are returned. */
    method SetClip(rowClip: Option<bool>, colClip: Option<bool>, wrap: Option<bool>) returns (flags: (bool, bool, bool))
      modifies this
      ensures this.rowClip == (if rowClip.Some? then rowClip.value else old(this.rowClip))
      ensures this.colClip == (if colClip.Some? then colClip.value else old(this.colClip))
      ensures this.wrap == (if wrap.Some? then wrap.value else old(this.wrap))
      ensures flags == (this.rowClip, this.colClip, this.wrap)
      ensures LayoutOf() == old(LayoutOf()).(rowClip := this.rowClip, colClip := this.colClip, wrap := this.wrap)
      ensures fontSize == old(fontSize) && cpos == old(cpos) && glyph == old(glyph)
      ensures charHeight == old(charHeight) && charWidth == old(charWidth) && clipWidth == old(clipWidth)
    {
      if rowClip.Some? {
        this.rowClip := rowClip.value;
      }
      if colClip.Some? {
        this.colClip := colClip.value;
      }
      if wrap.Some? {
        this.wrap := wrap.value;
      }
      flags := (this.rowClip, this.colClip, this.wrap);
    }

    /** `tabsize`: set the tab size if given; return it. */
    method TabSize(value: Option<int>) returns (t: int)
      modifies this
      ensures tab == (if value.Some? then value.value else old(tab)) && t == tab
      ensures LayoutOf() == old(LayoutOf()).(tab := tab)
      ensures fontSize == old(fontSize) && cpos == old(cpos) && glyph == old(glyph)
      ensures charHeight == old(charHeight) && charWidth == old(charWidth) && clipWidth == old(clipWidth)
    {
      if value.Some? {
        tab := value.value;
      }
      t := tab;
    }

    /** `_get_char`. */
    method GetChar(c: char, recurse: bool)
      requires Valid() && tab > 0
      modifies this, table, device
      ensures Valid() && LayoutOf() == old(LayoutOf()) && fontSize == old(fontSize)
      ensures PenOf() == GetCharSpec(old(LayoutOf()), old(PenOf()), c, recurse)
      ensures table.state == old(table.state)[device := PenOf().cursor]
      decreases if recurse then 0 else 1, 1
    {
      if !recurse {
        if c == '\n' {
          cpos := 0;
        } else if c == '\t' {
          ExpandTab();
          return;
        }
      }
      PlaceChar(c);
    }

    /** The tab case of `_get_char`: print spaces up to the next tab stop. */
    method ExpandTab()
      requires Valid() && tab > 0
      modifies this, table, device
      ensures Valid() && LayoutOf() == old(LayoutOf()) && fontSize == old(fontSize)
      ensures PenOf() == Spaces(old(LayoutOf()), old(PenOf()), TabSpaces(old(tab), old(cpos))).(glyph := None)
      ensures table.state == old(table.state)[device := PenOf().cursor]
      decreases 1, 0
    {
      var nspaces := tab - cpos % tab;
      if nspaces == 0 {
        nspaces := tab;
      }
      assert nspaces == TabSpaces(tab, cpos);
      PrintSpaces(nspaces);
      glyph := None;
    }

    /** The `while nspaces:` loop of a tab: n spaces with `recurse=True`. */
    method PrintSpaces(n: int)
      requires Valid() && tab > 0 && n >= 0
      modifies this, table, device
      ensures Valid() && LayoutOf() == old(LayoutOf()) && fontSize == old(fontSize)
      ensures PenOf() == Spaces(old(LayoutOf()), old(PenOf()), n)
      ensures table.state == old(table.state)[device := PenOf().cursor]
      decreases 0, 4
    {
      var nspaces := n;
      ghost var L, p0 := LayoutOf(), PenOf();
      UpdateSame(table.state, device);
      while nspaces != 0
        invariant 0 <= nspaces <= n
        invariant Valid() && LayoutOf() == L && fontSize == old(fontSize)
        invariant PenOf() == Spaces(L, p0, n - nspaces)
        invariant table.state == old(table.state)[device := PenOf().cursor]
      {
        nspaces := nspaces - 1;
        ghost var s := table.state[device];
        TabSpace(L, p0, n - nspaces - 1);
        UpdateTwice(old(table.state), device, s, table.state[device]);
      }
    }

    /** One space of a tab: `_printchar(' ', recurse=True)`. */
    method TabSpace(ghost L: Layout, ghost p0: Pen, ghost k: nat)
      requires Valid() && LayoutOf() == L && L.tab > 0 && PenOf() == Spaces(L, p0, k)
      modifies this, table, device
      ensures Valid() && LayoutOf() == L && fontSize == old(fontSize)
      ensures PenOf() == Spaces(L, p0, k + 1)
      ensures table.state == old(table.state)[device := PenOf().cursor]
      decreases 0, 3
    {
      ghost var q := PenOf();
      PrintChar(' ', false, true);
      SpacesNext(L, p0, k, q, PenOf());
    }

    /** The rest of `_get_char`: clip at the bottom or start a new line, clip
        at the right edge or start a new line, and leave the glyph to draw. */
    method PlaceChar(c: char)
      requires Valid()
      modifies this, table, device
      ensures Valid() && LayoutOf() == old(LayoutOf()) && fontSize == old(fontSize)
      ensures PenOf() == PlaceGlyph(old(LayoutOf()), old(PenOf()), c)
      ensures table.state == old(table.state)[device := PenOf().cursor]
    {
      UpdateSame(table.state, device);
      glyph := None;
      if c == '\n' {
        Newline();
        return;
      }
      var g := GetCh(font, c);
      if table.state[device].textRow + g.height > screenHeight {
        if rowClip {
          return;
        }
        ghost var s := table.state[device];
        Newline();
        UpdateTwice(old(table.state), device, s, table.state[device]);
      }
      ghost var s := table.state[device];
      FitGlyph(g);
      UpdateTwice(old(table.state), device, s, table.state[device]);
    }

    /** The right-edge part of `_get_char`. */
    method FitGlyph(g: Glyph)
      requires Valid()
      modifies this, table, device
      ensures Valid() && LayoutOf() == old(LayoutOf()) && fontSize == old(fontSize)
      ensures PenOf() == FitWidth(old(LayoutOf()), old(PenOf()), g)
      ensures table.state == old(table.state)[device := PenOf().cursor]
    {
      UpdateSame(table.state, device);
      var oh := table.state[device].textCol + g.width - screenWidth;
      var np: Option<int> := None;
      if oh > 0 {
        if colClip || wrap {
          np := Some(g.width - oh);
          if np.value <= 0 {
            return;
          }
        } else {
          Newline();
        }
      }
      glyph := Some(g.bytes);
      charHeight := g.height;
      charWidth := g.width;
      clipWidth := if np.None? then g.width else np.value;
    }

    /** `_printchar`. */
    method PrintChar(c: char, invert: bool, recurse: bool)
      requires Valid() && tab > 0
      modifies this, table, device
      ensures Valid() && LayoutOf() == old(LayoutOf()) && fontSize == old(fontSize)
      ensures PenOf() == PrintCharSpec(old(LayoutOf()), old(PenOf()), c, invert, recurse)
      ensures table.state == old(table.state)[device := PenOf().cursor]
      decreases if recurse then 0 else 1, 2
    {
      GetChar(c, recurse);
      ghost var s := table.state[device];
      DrawGlyph(invert);
      UpdateTwice(old(table.state), device, s, table.state[device]);
    }

    /** The drawing part of `_printchar`: blit the glyph `_get_char` left,
        inverted if asked, at the cursor, and advance the cursor. */
    method DrawGlyph(invert: bool)
      requires Valid()
      modifies this, table, device
      ensures Valid() && LayoutOf() == old(LayoutOf()) && fontSize == old(fontSize)
      ensures PenOf() == Draw(old(LayoutOf()), old(PenOf()), invert)
      ensures table.state == old(table.state)[device := PenOf().cursor]
    {
      UpdateSame(table.state, device);
      if glyph.None? {
        return;
      }
      ghost var s0 := table.state[device];
      var bytes := glyph.value;
      var buf := new bv8[|bytes|](i requires 0 <= i < |bytes| => bytes[i]);
      assert buf[..] == bytes;
      if invert {
        InvertBytes(buf);
      }
      var s := table.state[device];
      device.Blit(buf[..], clipWidth, charHeight, format, s.textCol, s.textRow, 0);
      table.state := table.state[device := s.(textCol := s.textCol + charWidth)];
      UpdateTwice(old(table.state), device, s0, table.state[device]);
      cpos := cpos + 1;
    }

    /** `stringlen(string, oh)`: the widths of the characters summed from the
        cursor's column; with `oh`, stop as soon as the sum runs past the
        screen and measure the last glyph without its blank right columns. */
    method StringLen(s: string, oh: bool) returns (r: StrLen)
      requires Valid()
      ensures r == StringLenSpec(font, s, table.state[device].textCol, screenWidth, oh)
    {
      if |s| == 0 {
        return Width(0);
      }
      var sc := table.state[device].textCol;
      var wd := screenWidth;
      var init := s[..|s| - 1];
      var l, over := InitWidth(init, oh);
      if over {
        TrueLenBounds(GetCh(font, s[|s| - 1]));
        return Overhang(true);
      }
      var g := GetCh(font, s[|s| - 1]);
      if oh && l + sc + g.width > wd {
        var t := TrueLen(g);
        l := l + t;
      } else {
        TrueLenBounds(g);
        l := l + g.width;
      }
      r := if oh then Overhang(l + sc > wd) else Width(l);
    }

    /** The loop of `stringlen` over all characters but the last: their
        total width, or, with `oh`, an early stop once a prefix runs past
        the screen. */
    method InitWidth(init: string, oh: bool) returns (l: int, over: bool)
      requires Valid()
      ensures !over ==> l == SumWidths(font, init)
      ensures over ==> oh && l + table.state[device].textCol > screenWidth && l <= SumWidths(font, init)
    {
      var sc := table.state[device].textCol;
      l := 0;
      for i := 0 to |init|
        invariant l == SumWidths(font, init[..i])
      {
        assert init[..i + 1][..i] == init[..i];
        l := l + GetCh(font, init[i]).width;
        if oh && l + sc > screenWidth {
          SumWidthsPrefix(font, init, i + 1);
          return l, true;
        }
      }
      assert init[..|init|] == init;
      over := false;
    }

    /** The word-wrap decision of `_printline`: the part of the line to print
        now and the rest for the next line, if any. */
    method WrapLine(str: string) returns (line: string, rest: Option<string>)
      requires Valid()
      ensures (line, rest) == WrapSplit(LayoutOf(), table.state[device].textCol, str)
    {
      line, rest := str, None;
      var t := StringLen(str, true);
      if wrap && Truthy(t) {
        ghost var sc := table.state[device].textCol;
        var pos := 0;
        var lstr := str;
        while Truthy(t)
          invariant t == StringLenSpec(font, lstr, sc, screenWidth, true)
          invariant Shrink(font, sc, screenWidth, lstr, pos) == Shrink(font, sc, screenWidth, str, 0)
          decreases |lstr|
        {
          pos := RFind(lstr, ' ');
          var next := RStrip(lstr[..SliceEnd(pos, |lstr|)]);
          ShrinkStep(lstr, pos, next);
          lstr := next;
          t := StringLen(lstr, true);
        }
        if pos > 0 {
          rest := Some(str[pos + 1..]);
          line := lstr;
        }
      }
    }

    /** `for char in string: self._printchar(char, invert)`. */
    method PrintChars(s: string, invert: bool)
      requires Valid() && tab > 0
      modifies this, table, device
      ensures Valid() && LayoutOf() == old(LayoutOf()) && fontSize == old(fontSize)
      ensures PenOf() == PrintCharsSpec(old(LayoutOf()), old(PenOf()), s, invert)
      ensures table.state == old(table.state)[device := PenOf().cursor]
    {
      ghost var L, p0 := LayoutOf(), PenOf();
      for i := 0 to |s|
        invariant Valid() && LayoutOf() == L && fontSize == old(fontSize)
        invariant PenOf() == PrintCharsSpec(L, p0, s[..i], invert)
        invariant table.state == old(table.state)[device := PenOf().cursor]
      {
        assert s[..i + 1][..i] == s[..i];
        PrintChar(s[i], invert, false);
      }
      assert s[..|s|] == s;
    }

    /** `_printline`: print what fits on this line, then a newline and the
        rest of the line. */
    method PrintLine(str: string, invert: bool)
      requires Valid() && tab > 0
      modifies this, table, device
      ensures Valid() && LayoutOf() == old(LayoutOf()) && fontSize == old(fontSize)
      ensures PenOf() == PrintLineSpec(old(LayoutOf()), old(PenOf()), str, invert)
      ensures table.state == old(table.state)[device := PenOf().cursor]
      decreases |str|
    {
      ghost var L, p0, m0 := LayoutOf(), PenOf(), table.state;
      var line, rest := WrapLine(str);
      PrintChars(line, invert);
      ghost var q := PenOf();
      if rest.Some? {
        PrintChar('\n', false, false);
        ghost var q' := PenOf();
        UpdateTwice(m0, device, q.cursor, q'.cursor);
        PrintLine(rest.value, invert);
        UpdateTwice(m0, device, q'.cursor, PenOf().cursor);
        PrintLineStep(L, p0, str, invert, q, q', PenOf());
      } else {
        PrintLineStep(L, p0, str, invert, q, q, q);
      }
    }

    /** `printstring`: each segment between newlines as a line, unless it is
        empty; a newline between segments. */
    method PrintString(str: string, invert: bool)
      requires Valid() && tab > 0
      modifies this, table, device
      ensures Valid() && LayoutOf() == old(LayoutOf()) && fontSize == old(fontSize)
      ensures PenOf() == PrintStringSpec(old(LayoutOf()), old(PenOf()), str, invert)
      ensures table.state == old(table.state)[device := PenOf().cursor]
    {
      var q := Split(str);
      PrintParts(q, invert);
    }

    /** The loop of `printstring` over the segments q. */
    method PrintParts(q: seq<string>, invert: bool)
      requires Valid() && tab > 0
      modifies this, table, device
      ensures Valid() && LayoutOf() == old(LayoutOf()) && fontSize == old(fontSize)
      ensures PenOf() == Perform(old(LayoutOf()), old(PenOf()), Plan(q, |q|), invert)
      ensures table.state == old(table.state)[device := PenOf().cursor]
    {
      ghost var L, p0 := LayoutOf(), PenOf();
      UpdateSame(table.state, device);
      for n := 0 to |q|
        invariant Valid() && LayoutOf() == L && fontSize == old(fontSize)
        invariant PenOf() == Perform(L, p0, Plan(q, n), invert)
        invariant table.state == old(table.state)[device := PenOf().cursor]
      {
        ghost var c := PenOf().cursor;
        PrintPart(L, p0, q, n, invert);
        UpdateTwice(old(table.state), device, c, PenOf().cursor);
      }
    }

    /** Iteration n of the `printstring` loop extends the printed plan by
        part n. */
    method PrintPart(ghost L: Layout, ghost p0: Pen, q: seq<string>, n: nat, invert: bool)
      requires Valid() && LayoutOf() == L && L.tab > 0 && n < |q|
      requires PenOf() == Perform(L, p0, Plan(q, n), invert)
      modifies this, table, device
      ensures Valid() && LayoutOf() == L && fontSize == old(fontSize)
      ensures PenOf() == Perform(L, p0, Plan(q, n + 1), invert)
      ensures table.state == old(table.state)[device := PenOf().cursor]
    {
      ghost var r := PenOf();
      PrintSegment(q[n], n != |q| - 1, invert);
      PerformStep(L, p0, q, n, invert, r, PenOf());
    }

    /** One segment of `printstring`: the line unless it is empty, then a
        newline unless it is the last segment. */
    method PrintSegment(seg: string, more: bool, invert: bool)
      requires Valid() && tab > 0
      modifies this, table, device
      ensures Valid() && LayoutOf() == old(LayoutOf()) && fontSize == old(fontSize)
      ensures var r := if seg != "" then PrintLineSpec(old(LayoutOf()), old(PenOf()), seg, invert) else old(PenOf());
              PenOf() == if more then PrintCharSpec(old(LayoutOf()), r, '\n', false, false) else r
      ensures table.state == old(table.state)[device := PenOf().cursor]
    {
      UpdateSame(table.state, device);
      if seg != "" {
        PrintLine(seg, invert);
      }
      ghost var r := PenOf();
      if more {
        PrintChar('\n', false, false);
        UpdateTwice(old(table.state), device, r.cursor, PenOf().cursor);
      }
    }

    /** `text`: switch to the font size asked for, move the cursor to (x, y)
        and print the string. */
    method Text(text: string, x: int, y: int, size: int, bold: bool)
      requires Valid() && tab > 0
      requires size == fontSize || FontOk(fonts(fontFamily, size, bold))
      modifies this, table, device
      ensures fontSize == size
      ensures font == if old(fontSize) == size then old(font) else fonts(fontFamily, size, bold)
      ensures Valid() && LayoutOf() == old(LayoutOf()).(font := font)
      ensures PenOf() == PrintStringSpec(LayoutOf(), old(PenOf()).(cursor := DisplayState(y, x)), text, false)
      ensures table.state == old(table.state)[device := PenOf().cursor]
    {
      ChangeFontSize(size, bold);
      table.state := table.state[device := DisplayState(y, x)];
      PrintString(text, false);
      UpdateTwice(old(table.state), device, DisplayState(y, x), PenOf().cursor);
    }
  }

  /** `Writer(device, fontFamily)`: register the display's cursor, load the
      24-point font, and refuse a font too large for the display or one that
      is not horizontally mapped. The cursor is registered before the checks,
      so it stays registered when they fail. */
  method NewWriter(dev: Device, table: StateTable, fontFamily: string, fonts: (string, int, bool) -> Font)
    returns (r: Result<Writer>)
    requires FontOk(fonts(fontFamily, 24, false))
    modifies table
    ensures dev.OtherObject? ==> r == Err(NotAFrameBuffer) && table.state == old(table.state)
    ensures dev.FrameBuffer? ==>
              var d, f := dev.display, fonts(fontFamily, 24, false);
              && table.state == old(table.state)[d := CursorOf(old(table.state), d)]
              && (f.height >= d.height || f.maxWidth >= d.width ==> r == Err(FontTooLarge))
              && (f.height < d.height && f.maxWidth < d.width && !f.hmap ==> r == Err(NotHorizontallyMapped))
              && (f.height < d.height && f.maxWidth < d.width && f.hmap ==>
                    && r.Ok? && fresh(r.value) && r.value.Valid()
                    && r.value.device == d && r.value.table == table && r.value.font == f && r.value.fontSize == 24
                    && r.value.LayoutOf() == Layout(f, d.width, d.height, false, false, true, 4,
                                                    if f.reverse then MonoHMSB else MonoHLSB)
                    && r.value.cpos == 0 && r.value.glyph == None)
  {
    var id := GetId(dev);
    if id.Err? {
      return Err(id.error);
    }
    var d := id.value;
    if d !in table.state {
      table.state := table.state[d := Origin];
    }
    var f := fonts(fontFamily, 24, false);
    if f.height >= d.height || f.maxWidth >= d.width {
      return Err(FontTooLarge);
    }
    if !f.hmap {
      return Err(NotHorizontallyMapped);
    }
    var w := new Writer(d, table, fontFamily, fonts);
    r := Ok(w);
  }
}
