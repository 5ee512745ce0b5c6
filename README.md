# epaper_temp — a Dafny model of the logger's data, graph and text layers

epaper_temp is a MicroPython program for a Raspberry Pi Pico with a 7.5" three-colour
e-paper panel (800×480). It samples two sensors, folds the samples into a bounded history
of averages, and draws both histories as a graph with a grid, value labels and hour labels.
The model covers its three sequential layers:

- `data_collection.dfy` (module `DataCollection`) models `dataCollector.py`: `GetScale` and
  the class `DataCollector`. `add` keeps a running window mean, lifetime extrema and the last
  value. `commit` pushes the window mean onto a history capped at 100 entries, updates the
  running whole-period mean and derives the decimal scale of that mean. The class has ghost
  fields (the current window, every sample, every committed value). Its invariant ties the
  real fields to them: `average` is the window mean, `max`/`min` bound every sample, and
  `commited_data` is the last 100 commits. While no entry has been evicted, `average_whole`
  is the mean of the history.
- `graph_pager.dfy` (module `GraphPager`) models `graphPager.py`: the value-to-row scaling of
  `GraphData`, the geometry and density of `GraphPaper`, `plot`/`plot_series`, `draw_frame`,
  and the `circle`/`line_w` span generators. Drawing is a log of commands (marker, segment,
  horizontal line, vertical line, labels) on a black surface and a red surface. Pixels are
  not modelled.
- `text_writer.dfy` (module `TextWriter`) models `font/writer.py`:
  - the per-device cursor table `Writer.state`, as a class holding a map from display to
    `DisplayState`;
  - `_get_id` and `set_textpos`;
  - the checks in `Writer.__init__`;
  - newline with scrolling, the clip and wrap flags, and tab expansion;
  - glyph placement with the right-edge and bottom-edge rules, and byte inversion;
  - `stringlen` and `_truelen`, word wrapping in `_printline`, and `printstring`.

  A font is a value with an abstract `get_ch` (glyph bytes, height, width). The display
  records `scroll`, `fill_rect` and `blit` in an effect log. Every printing method is proved
  against a specification function on a "pen": the cursor, `cpos`, the current glyph and
  the effect log.

## Model

| member | source | states |
|---|---|---|
| DataCollection.CeilLog10 | dataCollector.py:6-7 | for a > 1 the result n ≥ 1 satisfies 10^(n-1) < a ≤ 10^n, i.e. it is the ceiling of log10 a |
| DataCollection.FloorLog10 | dataCollector.py:8-9 | for 0 < a < 10 the result n ≤ 0 satisfies 10^n ≤ a < 10^(n+1), i.e. it is the floor of log10 a |
| DataCollection.GetScale | dataCollector.py:4-9 | a domain error exactly when x = 0 (log10 of 0); for \|x\| > 1 the smallest n with \|x\| ≤ 10^n (and 10^(n-1) < \|x\|); for 0 < \|x\| ≤ 1 the largest n ≤ 0 with 10^n ≤ \|x\| |
| DataCollection.GetScaleIsLeast | dataCollector.py:6-7 | for \|x\| > 1, every n with \|x\| ≤ 10^n is at least GetScale(x) |
| DataCollection.GetScaleIsGreatest | dataCollector.py:8-9 | for 0 < \|x\| ≤ 1, every n with 10^n ≤ \|x\| is at most GetScale(x) |
| DataCollection.MeanAppend | dataCollector.py:29-30 | the recurrence (n·avg + v)/(n+1), applied to the mean of n values, gives the mean of the n+1 values |
| DataCollection.Pushed | dataCollector.py:38-40 | appending to a history of at most 100 keeps it at most 100 and puts v last; below the cap the result is h + [v], at the cap it is h[1..] + [v] |
| DataCollection.PushedKeepsLastN | dataCollector.py:38-40 | pushing onto the last-100 window of all commits gives the last-100 window of the commits with v appended |
| DataCollection.CommitTwiceRepeats | dataCollector.py:36-38 | two pushes of the same average (no add between) end the history with that value twice |
| DataCollection.WindowAdd | dataCollector.py:29-31 | the add recurrence keeps `average` the mean of the window and `data_count` its length |
| DataCollection.ExtremaAdd | dataCollector.py:32-33 | the max/min updates keep every sample within [min, max] |
| DataCollection.HistoryPush | dataCollector.py:38-44 | the push and the average_whole recurrence keep the history the last 100 commits, and keep average_whole the history mean while nothing is evicted |
| DataCollection.DataCollector.constructor | dataCollector.py:13-25 | empty history, zero counters, averages, scale and last value; max starts at the sentinel -10000 and min at 10000 |
| DataCollection.DataCollector.Add | dataCollector.py:27-34 | the new average is the blend of the old one with the value (the window mean); data_count grows by one; max/min are the running extrema, so min ≤ value ≤ max, max never decreases and min never increases; last_value = value; nothing else changes |
| DataCollection.DataCollector.Commit | dataCollector.py:36-46 | data_count reset but average kept; history = Pushed(old history, average); average_whole updated by the length-weighted recurrence; fails exactly when average_whole is 0, after those updates and with scale unchanged; otherwise scale = GetScale(average_whole) |
| DataCollection.DataCollector.GetData | dataCollector.py:48-49 | the history has at most 100 entries and is the last 100 committed averages |
| DataCollection.AddThreeAndCommit | dataCollector.py:60-63 | three adds and a commit push the mean of the three samples |
| DataCollection.ReferenceScenario | dataCollector.py:52-64 | adding 1..9 three at a time with a commit after each three gives [2.0, 5.0, 8.0] |
| DataCollection.MeanOfThree | dataCollector.py:29-31 | a worked instance used by ReferenceScenario: the mean of three samples is their sum over 3 |
| GraphPager.TruncBounds | graphPager.py:35 | `int()` truncates toward zero: within one below a non-negative value and within one above a negative one |
| GraphPager.Ceil | graphPager.py:29 | `math.ceil`: the least integer ≥ r |
| GraphPager.TruncMonotone | graphPager.py:39 | truncation is monotone |
| GraphPager.ScaleOf | graphPager.py:26-36 | unit = (max-min)/2; the top value is the ceiling of max + unit and so ≥ the data max when unit ≥ 0; unit = 0 gives no division, height_per_unit = 0 and zero_y = 0; unit > 0 gives a positive height per unit |
| GraphPager.RowMonotone | graphPager.py:38-40 | with a non-negative height per unit, a larger value is drawn on the same or a higher row (smaller y) |
| GraphPager.FlatSeriesRow | graphPager.py:30-32 | a series with max = min is drawn on row 0 whatever the value |
| GraphPager.YLabelsDecrease | graphPager.py:124-128 | the Y labels `max - i*unit` start at or above the data maximum and strictly decrease down the axis when unit > 0 |
| GraphPager.LabelOnGridLine | graphPager.py:33-35 | the row of the i-th Y label value lies within one pixel of the i-th horizontal grid line |
| GraphPager.GraphData.constructor | graphPager.py:26-36 | the series' unit, max, height per unit and zero row are ScaleOf of its collector's extrema; last_pos = (0, 0) |
| GraphPager.GraphData.GetPos | graphPager.py:38-40 | returns (x, int(zero_y - height_per_unit·value)) and stores it in last_pos |
| GraphPager.PerHour | graphPager.py:60 | `int(3600/d)` is 0 exactly for \|d\| > 3600, at least 1 for 0 < d ≤ 3600, and exact for divisors of 3600 |
| GraphPager.CellDensity | graphPager.py:59-62 | fails (division by zero) exactly when the interval is 0 or beyond ±3600 s; otherwise per-cell = 2·per-hour and width per sample × per-cell = the cell width |
| GraphPager.XPosMonotone | graphPager.py:91 | the x position of sample slot i is non-decreasing in i |
| GraphPager.XPosNow | graphPager.py:91 | slot now_pos·dcpc lands exactly on the "now" column |
| GraphPager.XPosBounds | graphPager.py:88-91 | every plotted slot lies between the left margin and the "now" column |
| GraphPager.PolylineShape | graphPager.py:108-112 | a run of n points draws a marker first and then, for every later point, a marker and a segment from the previous point (2n-1 commands) |
| GraphPager.PlotStepShape | graphPager.py:96-112 | one iteration draws nothing when the slot is skipped or the entry is missing, otherwise a marker (and a segment when last_pos.x ≠ 0) at the slot's point |
| GraphPager.PlottedPointsRightOfMargin | graphPager.py:91 | every plotted point is at or right of the left margin, so its x is never 0 |
| GraphPager.SeriesRunIsPolyline | graphPager.py:88-112 | starting from last_pos = (0, 0), the commands of the first k slots are the polyline of the points plotted so far |
| GraphPager.PlottedPointsSkip | graphPager.py:105-106 | a slot whose history entry is missing adds no point (no padding) |
| GraphPager.PlottedPointsCount | graphPager.py:88-107 | after k slots the number of points is the number of slots in range that have a history entry |
| GraphPager.PlottedPointsAt | graphPager.py:88-107 | the j-th point comes from the j-th slot that has an entry |
| GraphPager.PlotPassPoint | graphPager.py:88-107 | the j-th marker of a full pass shows history entry len-m+j at slot FirstPlotted+j, within the drawing area |
| GraphPager.PlotPass | graphPager.py:86-112 | a full pass draws exactly min(len(data), now_pos·dcpc+1) markers, oldest first, with non-decreasing x, as one polyline; the last marker is the newest value on the "now" column |
| GraphPager.PlotPassPoints | graphPager.py:88-107 | a full pass has min(len(data), now_pos·dcpc+1) points, each the entry it indexes from the newest end, inside the drawing area |
| GraphPager.PlotPassOrdered | graphPager.py:88-91 | the points of a full pass have non-decreasing x |
| GraphPager.PlotPassNewest | graphPager.py:92-107 | the last point of a non-empty pass is the newest entry on the "now" column |
| GraphPager.HLinesInPanel | graphPager.py:116-118 | a fact about the constant geometry: the grid function yields row_count+1 horizontal lines at margin_top + cell_height·i, all inside the 800×480 panel |
| GraphPager.VLinesInPanel | graphPager.py:120-122 | a fact about the constant geometry: column_count+1 vertical lines at margin_left + cell_width·i, all inside the panel |
| GraphPager.HourValue | graphPager.py:134-139 | for a clock hour and a column in range the value is in [0, 24], equals the unreduced value modulo 24, and equals the hour exactly on the "now" column |
| GraphPager.HourValueNotWrapped | graphPager.py:136-139 | a worked instance of HourValue's contract: the single fix-up leaves 24 as 24 (hour 22, last column) |
| GraphPager.TimeAxisLabels | graphPager.py:134-146 | the red surface gets exactly one HH:MM label, on the "now" column, and the black surface an hour label for each other column |
| GraphPager.IntSqrt | graphPager.py:12 | the integer square root: a·a ≤ n < (a+1)·(a+1) |
| GraphPager.RowSpans | graphPager.py:12-14 | the two spans drawn for row offset ±i have half-width a with a² ≤ r² - i² < (a+1)² |
| GraphPager.Circle | graphPager.py:8-14 | a centre span of width 2r, then for each i in 1..r-1 an upper and a lower span whose half-width is the integer square root of r² - i² (2r-1 spans in all) |
| GraphPager.LineWAppendRow | graphPager.py:20-22 | one more row of the offset loop keeps the segment list the full grid of offsets so far |
| GraphPager.LineW | graphPager.py:17-22 | (2h)² copies of the segment, h = int(w/2), each shifted by an offset in [-h, h) in both axes with the original direction and colour, in row-major order |
| GraphPager.DrawFrameAsWritten | graphPager.py:114-130 | `draw_frame` as written: the grid, then the first left label, and then the `TypeError`, unless `rightFit` were a keyword of `Writer.text` (its properties are stated by DrawFrameAsWrittenRaises) |
| GraphPager.PlotAsWritten | graphPager.py:86-87 | `plot` as written ends with its first statement, `draw_frame`, raising, so its result is the as-written frame (its properties are stated by PlotAsWrittenDrawsNoSeries) |
| GraphPager.DrawFrameAsWrittenRaises | graphPager.py:124-130 | the frame as written raises at the first right-hand Y label; by then no hour label and no red label has been drawn |
| GraphPager.PlotAsWrittenDrawsNoSeries | graphPager.py:86-94 | `plot` as written raises inside `draw_frame` before its loop, so neither series gets a marker or a segment and the red surface stays empty |
| GraphPager.GridOnlyLines | graphPager.py:115-122 | the grid consists of horizontal and vertical lines only |
| GraphPager.DrawGrid | graphPager.py:115-122 | the loop emits exactly the grid: the horizontal lines, then the vertical lines |
| GraphPager.DrawTimeLabels | graphPager.py:131-146 | the loop emits the hour labels on black and the clock label on red, column by column |
| GraphPager.GraphPaper.constructor | graphPager.py:59-65 | per-hour, per-cell and width-per-sample are the CellDensity of the interval |
| GraphPager.GraphPaper.BuildSeries | graphPager.py:69-72 | two fresh, distinct series scaled from data1 and data2 with last_pos = (0, 0) |
| GraphPager.GraphPaper.DrawFrame | graphPager.py:114-146 | black = grid + the Y labels of both series + the black hour labels; red = the HH:MM label |
| GraphPager.GraphPaper.DrawValueLabels | graphPager.py:124-130 | the left and right Y labels for each row; the right one is right-aligned, and both use series 1's rounding (intended; see Findings) |
| GraphPager.GraphPaper.PlotSeries | graphPager.py:96-112 | commands and the new last_pos are the SeriesPoint step of the series at that index and x |
| GraphPager.GraphPaper.PlotPosition | graphPager.py:88-94 | one slot updates both series by PlotStep, red for series 1 and black for series 2 |
| GraphPager.GraphPaper.PlotRuns | graphPager.py:88-94 | the slot loop produces, for each series, SeriesRun over every slot |
| GraphPager.GraphPaper.Plot | graphPager.py:86-94 | black = frame + series 2's run; red = clock label + series 1's run; each last_pos is where its run ends |
| TextWriter.RowBytes | font/writer.py:207-208 | bytes per glyph row: the least n with width ≤ 8n |
| TextWriter.GetCh | font/writer.py:192 | a well-formed font yields well-formed glyphs; a missing character gets the font's fallback glyph |
| TextWriter.RowRightmost | font/writer.py:211-220 | the rightmost lit column of a row up to column c (0 when none), with no lit column to its right |
| TextWriter.LitMaxCovers | font/writer.py:211-222 | every lit pixel's column is ≤ the maximum over the rows scanned |
| TextWriter.LitMaxAttained | font/writer.py:211-222 | a positive maximum is attained by a lit pixel of some scanned row |
| TextWriter.LitMaxSaturates | font/writer.py:221-222 | once the maximum reaches the last column, scanning more rows keeps it there, so the early exit is sound |
| TextWriter.TrueLenIsRightmostLit | font/writer.py:204-224 | the printable width is one past the rightmost lit column of the whole glyph (1 for a blank glyph), in [1, width] |
| TextWriter.TrueLenBounds | font/writer.py:204-224 | a corollary of TrueLenIsRightmostLit, kept as a cheap step for StringLen: the printable width is between 1 and the glyph width |
| TextWriter.TrueLenBlank | font/writer.py:204-224 | an all-blank glyph has printable width 1 (corrected `_truelen`; see Findings) |
| TextWriter.TrueLen | font/writer.py:205-224 | the row-by-row scan with early exits computes the printable width (corrected byte loading) |
| TextWriter.ScanRow | font/writer.py:212-220 | scanning one row from the right raises mc to that row's rightmost lit column, stopping at mc (intended; see Findings) |
| TextWriter.TrueLenAsWritten | font/writer.py:205-224 | the scan exactly as written, with the byte reloaded only at bit 0; its result lies in [1, width], and a glyph whose bytes are all zero gives 1 |
| TextWriter.ScanRowAsWrittenLoop | font/writer.py:212-220 | the inner loop as written, including the carried `data` byte |
| TextWriter.TrueLenAsWrittenMissesLowerRow | font/writer.py:210-215 | for a 5×2 glyph lit only at row 1, column 3, the as-written scan gives 1 where the printable width is 4 |
| TextWriter.ScanRowAsWrittenBounds | font/writer.py:212-220 | one row of the as-written scan keeps mc in [mc, width-1]; over zero bytes it finds nothing and holds a zero byte |
| TextWriter.ScanAsWrittenBounds | font/writer.py:211-222 | the remaining rows of the as-written scan keep the same bounds, and over zero bytes they leave mc unchanged |
| TextWriter.TrueLenAsWrittenReadsPadding | font/writer.py:210-218 | for a blank 9×1 glyph with a set padding bit in its second byte, the as-written scan gives 8 where the printable width is 1 |
| TextWriter.WrapAsWrittenKeepsLine | font/writer.py:169-177 | with the last glyph of TrueLenAsWrittenMissesLowerRow, the line "a x" on a screen 12 wide does not overhang by the as-written `stringlen`, but it does by the corrected one, and the model wraps "x" onto the next line |
| TextWriter.Display.constructor | font/writer.py:30-35 | the display has the given width, height and mode and an empty effect log |
| TextWriter.Display.Scroll | font/writer.py:131 | records one scroll effect |
| TextWriter.Display.FillRect | font/writer.py:132-133 | records one fill_rect effect |
| TextWriter.Display.Blit | font/writer.py:275-277 | records one blit effect |
| TextWriter.GetId | font/writer.py:47-50 | succeeds exactly for a frame buffer, which identifies the display; otherwise the not-a-frame-buffer error |
| TextWriter.StateTable.constructor | font/writer.py:57 | the class-level state dictionary starts empty |
| TextWriter.TextPosOk | font/writer.py:61-74 | set_textpos succeeds exactly when each given coordinate is on the display and then returns (row, col); a valid row is stored even when the column fails; an omitted coordinate is kept |
| TextWriter.TextPosRowBeforeCol | font/writer.py:66-73 | a valid row with an invalid column still updates text_row and raises the column error |
| TextWriter.SetTextPos | font/writer.py:61-74 | a non-frame-buffer leaves the table unchanged with an error; otherwise the display's entry (created at the origin if absent) is the TextPos update and the result is TextPos's |
| TextWriter.NewlineKeepsLineOnScreen | font/writer.py:122-134 | after a newline text_col = 0; without row clipping a line of the font height fits; the row moves down by one font height when that fits, otherwise to screen height minus font height, with a scroll and a fill of the uncovered strip |
| TextWriter.ClipAtBottom | font/writer.py:247-249 | at the bottom with row clipping, nothing is drawn and nothing moves |
| TextWriter.ClipAtRightEdge | font/writer.py:251-256 | an overhanging glyph with col_clip or wrap is drawn exactly when screenwidth - text_col > 0, with that many printable columns, and the cursor does not move |
| TextWriter.GlyphFits | font/writer.py:244-262 | a glyph that fits on both axes is drawn with its full width |
| TextWriter.TabSpaces | font/writer.py:231-233 | for tab > 0 a tab emits between 1 and tab spaces, reaching the next multiple of tab |
| TextWriter.PyMod | font/writer.py:231 | Python's `%`, whose result has the sign of the divisor: in [0, b) for b > 0 and in (b, 0] for b < 0 |
| TextWriter.NegativeTabNeverStops | font/writer.py:231-236 | for tab < 0, `nspaces` starts negative and stays negative after any number of decrements, so `while nspaces:` never ends |
| TextWriter.Inverted | font/writer.py:272-274 | the inverted buffer has the same length and each byte is the complement |
| TextWriter.InvertedTwice | font/writer.py:272-274 | inverting twice restores the glyph |
| TextWriter.Spaces | font/writer.py:234-236 | n recursive spaces advance cpos by at most n |
| TextWriter.PrintCharAdvances | font/writer.py:266-279 | a drawn glyph appends one blit at the old column with the (possibly inverted) bytes, advances text_col by char_width and cpos by one |
| TextWriter.PrintNewlineChar | font/writer.py:228-243 | printing '\n' resets cpos to 0 and performs a newline |
| TextWriter.TabToNextStop | font/writer.py:230-238 | a tab prints TabSpaces(tab, cpos) spaces and leaves no glyph pending |
| TextWriter.SumWidthsPrefix | font/writer.py:191-193 | a prefix is no wider than the string, and a string is at least as wide as its length |
| TextWriter.StringLenAsWrittenSpec | font/writer.py:185-202 | `stringlen` with the as-written `_truelen`: with oh on a non-empty string it reports an overhang only when the full width runs past the screen |
| TextWriter.OverhangBounds | font/writer.py:185-202 | the empty string never overhangs; overhang implies the full width runs past the screen; and when the last glyph has no blank right columns the two coincide (corrected `_truelen`; see Findings) |
| TextWriter.RFind | font/writer.py:173 | `rfind`: -1 or the index of the last occurrence |
| TextWriter.RStrip | font/writer.py:174 | `rstrip`: a prefix without trailing whitespace, having dropped only whitespace |
| TextWriter.SliceEnd | font/writer.py:174 | Python's `lstr[:pos]` end index, including pos = -1 |
| TextWriter.Shrink | font/writer.py:172-174 | the shrink loop ends with a prefix of the line that no longer overhangs, and pos is an index into the last string it cut; the overhang test uses the corrected `_truelen` (see Left out) |
| TextWriter.WrapSplit | font/writer.py:169-177 | without a split the line prints whole; with one, the printed part is a prefix and the rest is the strictly shorter text after the space at the split point; the overhang test uses the corrected `_truelen` (see Left out) |
| TextWriter.RFindSpace | font/writer.py:173-176 | a positive final pos is a space inside the original line |
| TextWriter.ShrinkCutsAtSpace | font/writer.py:172-176 | every cut the loop makes is at a space of the original line |
| TextWriter.PrintLineStep | font/writer.py:166-183 | printing a line is printing its wrapped head, then a newline and the rest when there is one; the overhang test uses the corrected `_truelen` (see Left out) |
| TextWriter.PrintLineNoWrap | font/writer.py:169-180 | without wrap, or when the line does not overhang, it is printed character by character (corrected `_truelen`; see Findings) |
| TextWriter.NewlineIndex | font/writer.py:158 | the index of the first '\n' (or the length) |
| TextWriter.Split | font/writer.py:158 | `split('\n')` yields at least one part |
| TextWriter.SplitJoin | font/writer.py:158 | joining the parts with '\n' gives back the string |
| TextWriter.SplitNoNewline | font/writer.py:158 | no part contains '\n' |
| TextWriter.SplitCount | font/writer.py:158-159 | there is one more part than the number of newlines |
| TextWriter.NewlineCountAppend | font/writer.py:158 | newline counts add over concatenation |
| TextWriter.StepFacts | font/writer.py:160-164 | one loop iteration prints the part, then '\n' unless it is the last part |
| TextWriter.PlanFlatten | font/writer.py:160-164 | the first n iterations print exactly the first n parts joined by '\n' |
| TextWriter.PlanBreaks | font/writer.py:163-164 | the first n iterations emit n newlines, one fewer once the last part is reached |
| TextWriter.PlanNoEmptyLine | font/writer.py:161-162 | empty parts are never printed as lines |
| TextWriter.PrintStringPlan | font/writer.py:156-164 | printstring prints the string's text, emits one '\n' per newline of the input, and prints no empty line |
| TextWriter.PerformAppend | font/writer.py:160-164 | printing two plans in sequence is printing their concatenation |
| TextWriter.PerformStep | font/writer.py:160-164 | one more iteration of the loop extends the printed plan by one part |
| TextWriter.InvertBytes | font/writer.py:271-274 | the buffer is complemented in place |
| TextWriter.Writer.constructor | font/writer.py:76-108 | the writer takes the device, table, family and the size-24 font; clipping off, wrap on, tab 4, cpos 0, no glyph |
| TextWriter.Writer.ChangeFontSize | font/writer.py:110-117 | the same size keeps the font; a different size loads the family's font for it (bold or not); nothing else changes |
| TextWriter.Writer.Newline | font/writer.py:122-134 | the pen is NewlineSpec of the old one and the display's entry in the table is that cursor |
| TextWriter.Writer.SetClip | font/writer.py:136-143 | each given flag is set, each omitted one kept, and the three flags are returned |
| TextWriter.Writer.TabSize | font/writer.py:281-284 | a given value becomes the tab width; the tab width is returned |
| TextWriter.Writer.GetChar | font/writer.py:226-262 | the pen is GetCharSpec: '\n' resets cpos, a tab expands, anything else is placed |
| TextWriter.Writer.ExpandTab | font/writer.py:231-238 | prints TabSpaces(tab, cpos) recursive spaces and clears the glyph |
| TextWriter.Writer.TabSpace | font/writer.py:234-236 | one iteration of the nspaces loop prints one more space |
| TextWriter.Writer.PrintSpaces | font/writer.py:234-236 | the `while nspaces:` loop prints n recursive spaces: the pen is Spaces(n) of the old one |
| TextWriter.Writer.PlaceChar | font/writer.py:240-262 | the pen is PlaceGlyph of the old one |
| TextWriter.Writer.FitGlyph | font/writer.py:251-262 | the pen is FitWidth of the old one |
| TextWriter.Writer.PrintChar | font/writer.py:266-279 | the pen is PrintCharSpec of the old one |
| TextWriter.Writer.DrawGlyph | font/writer.py:269-279 | nothing when there is no glyph; otherwise one blit with the (inverted) bytes and clip width, text_col + char_width and cpos + 1 |
| TextWriter.Writer.StringLen | font/writer.py:185-202 | the result is StringLenSpec: 0 for the empty string, the sum of widths without oh, and with oh whether the printed width runs past the screen |
| TextWriter.Writer.InitWidth | font/writer.py:190-195 | without an early exit the width of all but the last character; an early exit only with oh, when the partial width already runs past the screen |
| TextWriter.Writer.WrapLine | font/writer.py:167-177 | the head and rest are WrapSplit of the line at the current column; the overhang test uses the corrected `_truelen` (see Left out) |
| TextWriter.Writer.PrintChars | font/writer.py:179-180 | the pen is PrintCharsSpec of the old one |
| TextWriter.Writer.PrintLine | font/writer.py:166-183 | the pen is PrintLineSpec of the old one; the recursion is on a strictly shorter string |
| TextWriter.Writer.PrintSegment | font/writer.py:161-164 | a non-empty part is printed as a line, then '\n' unless it is the last part |
| TextWriter.Writer.PrintString | font/writer.py:156-164 | the pen is PrintStringSpec of the old one |
| TextWriter.Writer.PrintParts | font/writer.py:159-163 | the loop over the segments performs the whole plan of printstring for them |
| TextWriter.Writer.PrintPart | font/writer.py:160-163 | one iteration extends the performed plan by one segment |
| TextWriter.Writer.Text | font/writer.py:149-154 | changes the font size, moves the cursor to (y, x) and prints the text: the pen is PrintStringSpec from there |
| TextWriter.NewWriter | font/writer.py:76-108 | a non-frame-buffer is refused; otherwise the display gets a cursor entry; the font-too-large check comes first, then the horizontal-mapping check, then a fresh valid writer with the defaults and MONO_HMSB/MONO_HLSB from the font's reversal |

## Left out

- The panel driver `epaper75B.py` (SPI, GPIO, busy-wait), `battery.py`, `thermometer.py`, the threaded sampling loop in `main.py` and the prototype `code.py` are not part of this model. The panel size 800×480 is taken from epaper75B.py:18-19.
- `GraphPaper.display`, `utime.localtime` and the panel calls are left out; `draw_frame`'s clock hour and minute are parameters.
- `GraphData.round` (float `round` with a negative digit count) and `str`/`format` of labels are left out; labels carry the value and the digit count. The digit count is series 1's for both sides, as written.
- Samples and averages are exact reals, not IEEE floats; `int()` is truncation toward zero and `math.ceil` the ceiling, both on reals.
- Pixels are left out: `circle`, `line_w`, `hline`, `vline`, `line`, `blit`, `scroll` and `fill_rect` are commands or effects, and the frame buffer's memory is not modelled. `math.sqrt` followed by `int()` is the exact integer square root.
- `DataCollector.add` takes the sample as a parameter instead of calling `fn_get_value`. The name is kept, the callback is not.
- `_change_font_size` loads a font with `__import__`; here the fonts are a function from (family, size, bold) to a font value, and a missing font module (ImportError) is not modelled.
- Font data is assumed well formed (`GlyphOk`: positive height and width, enough bytes per row); a malformed font module is not modelled.
- Verbose prints, `Display.show`, `setcolor`, the `height` property and the colour fields are left out.
- `rstrip` strips the six ASCII whitespace characters only, not the other Unicode whitespace Python strips.
- `DisplayState` objects are values in the table's map: aliasing of a state object obtained before a call is not modelled. The model looks the entry up again after each change.
- TextWriter.Writer.GetChar: requires tab > 0 for every character. `tabsize` accepts any value; in the source only a printed '\t' misbehaves with a non-positive tab: tab = 0 raises ZeroDivisionError at `cpos % tab`, and tab < 0 makes `while nspaces:` loop forever (NegativeTabNeverStops). Printing other characters with such a tab is not modelled.
- TextWriter.Writer.ExpandTab: requires tab > 0; with tab = 0 the source raises ZeroDivisionError and with tab < 0 it never terminates, as on the GetChar line.
- TextWriter.Writer.TabSpace: requires tab > 0, as on the GetChar line.
- TextWriter.Writer.PrintSpaces: requires tab > 0, as on the GetChar line.
- TextWriter.Writer.PrintChar: requires tab > 0 for every character, as on the GetChar line.
- TextWriter.Writer.PrintChars: requires tab > 0, as on the GetChar line.
- TextWriter.Writer.PrintLine: requires tab > 0, as on the GetChar line, and decides wrapping on the corrected `_truelen`, as on the Shrink line.
- TextWriter.Writer.PrintString: requires tab > 0, as on the GetChar line, and inherits the wrap decision on the corrected `_truelen`, as on the Shrink line.
- TextWriter.Writer.PrintSegment: requires tab > 0, as on the GetChar line, and inherits the wrap decision on the corrected `_truelen`, as on the Shrink line.
- TextWriter.Writer.PrintParts: requires tab > 0, as on the GetChar line, and inherits the wrap decision on the corrected `_truelen`, as on the Shrink line.
- TextWriter.Writer.PrintPart: requires tab > 0, as on the GetChar line, and inherits the wrap decision on the corrected `_truelen`, as on the Shrink line.
- TextWriter.Writer.Text: requires tab > 0, as on the GetChar line, and requires the requested font to be well formed; it inherits the wrap decision on the corrected `_truelen`, as on the Shrink line.
- GraphPager.GraphPaper.constructor: requires a data interval with a valid density. Python raises ZeroDivisionError otherwise; CellDensity models that error case.
- TextWriter.Writer.StringLen: uses the corrected `_truelen` (TrueLen); the as-written byte loading is modelled separately (TrueLenAsWritten, and StringLenAsWrittenSpec for `stringlen`), see Findings.
- TextWriter.TrueLenBlank: states the corrected `_truelen`; as written a glyph with no lit pixel can report more than 1 when a padding bit is set (TrueLenAsWrittenReadsPadding), see Findings. TrueLenAsWritten gives 1 for a glyph whose bytes are all zero.
- TextWriter.OverhangBounds: its third clause, that a string whose last glyph has no blank right columns overhangs exactly when its full width does, holds for the corrected `_truelen` only; as written that glyph's width can be under-reported (TrueLenAsWrittenMissesLowerRow), see Findings. The first two clauses hold as written too (StringLenAsWrittenSpec).
- TextWriter.PrintLineNoWrap: "does not overhang" is measured with the corrected `_truelen`, as on the Shrink line; where the as-written `_truelen` over-reports the last glyph (TrueLenAsWrittenReadsPadding) the source wraps a line this lemma prints whole.
- TextWriter.Shrink: its overhang test is `stringlen` on the corrected `_truelen`, so where the as-written `_truelen` under-reports the last glyph the model cuts a line the source leaves whole (WrapAsWrittenKeepsLine), see Findings.
- TextWriter.WrapSplit: decides whether to split on the corrected `_truelen`, as on the Shrink line; on the input of WrapAsWrittenKeepsLine it splits "a x" where the source does not.
- TextWriter.PrintLineStep: the wrapped head it prints is WrapSplit's, so on the corrected `_truelen`, as on the Shrink line.
- TextWriter.Writer.WrapLine: the head and rest are WrapSplit's, so they are decided on the corrected `_truelen`, as on the Shrink line.
- GraphPager.GraphPaper.DrawFrame: draws the right-hand Y labels right-aligned instead of raising; the as-written call is modelled separately (DrawFrameAsWritten), see Findings.
- GraphPager.GraphPaper.Plot: is built on the corrected DrawFrame and so promises both series' runs. As written, `plot` raises inside `draw_frame` (graphPager.py:87, 129-130) before its loop, so no series is ever drawn (PlotAsWritten, PlotAsWrittenDrawsNoSeries), see Findings.

## Findings

| source | as written | input that shows it | evidently intended | confidence | as-written member | corrected member |
|---|---|---|---|---|---|---|
| font/writer.py:210-215 | `_truelen` loads glyph byte `row*gbytes + col//8` only when `col % 8 == 0`, but the scan runs from the right, so columns 7..1 of a byte are tested against the byte loaded last (the next byte of the same row, the first row's last byte, or whatever byte the previous row loaded before it broke off). Through `stringlen` the wrong width also changes the word-wrap decision of `_printline` | glyph width 5, height 2, bytes [0x00, 0x10] (row 1 lit at column 3): the result is 1; a blank glyph of width 9 with bytes [0x00, 0x01] gives 8; with 'a' and ' ' five wide and 'x' the first glyph, "a x" on a screen 12 wide is not wrapped | one past the rightmost lit column over all rows, here 4 and 1, and "a x" wrapped before "x" | not executed | TextWriter.TrueLenAsWritten, TextWriter.TrueLenAsWrittenMissesLowerRow, TextWriter.TrueLenAsWrittenReadsPadding, TextWriter.WrapAsWrittenKeepsLine | TextWriter.TrueLen, TextWriter.TrueLenIsRightmostLit, TextWriter.WrapSplit |
| graphPager.py:129-130 | `draw_frame` calls `writer_black.text(..., rightFit=True)`, but `Writer.text` (font/writer.py:149) has no `rightFit` parameter, so the call raises TypeError at the first right-hand label. The rest of the frame (the other Y labels, the hour labels and the red clock label) is never drawn, and because `plot` calls `draw_frame` before its loop (graphPager.py:87), no marker or segment of either series is ever drawn; nothing catches the exception, so `display` ends there | any call of `draw_frame` or `plot` | a right-aligned label for series 2, after which the frame is completed and both series are plotted | not executed | GraphPager.DrawFrameAsWrittenRaises, GraphPager.PlotAsWrittenDrawsNoSeries | GraphPager.GraphPaper.DrawFrame, GraphPager.GraphPaper.Plot |
