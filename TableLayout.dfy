/**
 * The table-layout program of ch6-exercise2.js: cells that report a minimum
 * width and height and draw themselves at a requested size, a measuring
 * pass over a grid of cells, a renderer that joins the drawn blocks, and the
 * builder that turns records into a grid.
 *
 * The prototype family TextCell / RTextCell / UnderlinedCell becomes the
 * datatype `Cell`; the functions `MinWidth`, `MinHeight` and `Draw` are the
 * specification of the three interface methods. The loops of `repeat` and
 * of the two `draw` methods are the methods `Repeat`, `DrawTextLines` and
 * `DrawRTextLines`, each proved equal to the function it implements.
 */
module TableLayout {
  import opened Wrappers
  import opened Strings

  /** A table cell. `Stretch` follows the exercise text only: the source leaves it unimplemented. */
  datatype Cell =
    | Text(lines: seq<string>)                        // TextCell: left-aligned
    | RText(lines: seq<string>)                       // RTextCell: right-aligned
    | Underlined(inner: Cell)                         // UnderlinedCell
    | Stretch(inner: Cell, width: int, height: int)   // StretchCell (exercise statement)

  /** A grid: rows of cells. */
  type Grid = seq<seq<Cell>>

  /** `Math.max` on integers. */
  function Max(a: int, b: int): int
  {
    if a >= b then a else b
  }

  /** `xs.reduce(function(max, x) { return Math.max(max, x); }, 0)`. */
  function MaxFrom0(xs: seq<int>): (m: int)
    ensures m >= 0
    ensures forall i :: 0 <= i < |xs| ==> xs[i] <= m
    ensures m == 0 || exists i :: 0 <= i < |xs| && xs[i] == m
  {
    if |xs| == 0 then 0
    else
      var m' := MaxFrom0(xs[..|xs| - 1]);
      assert forall i :: 0 <= i < |xs| - 1 ==> xs[..|xs| - 1][i] == xs[i];
      Max(m', xs[|xs| - 1])
  }

  // ---------------------------------------------------------------------------
  // Cells
  // ---------------------------------------------------------------------------

  /** Lines that a text cell can hold once its constructor has split them. */
  predicate LinesWellFormed(lines: seq<string>)
  {
    |lines| >= 1 && forall i :: 0 <= i < |lines| ==> '\n' !in lines[i]
  }

  /** A cell whose text cells all come from `text.split("\n")`. */
  predicate WellFormed(c: Cell)
  {
    match c
    case Text(lines) => LinesWellFormed(lines)
    case RText(lines) => LinesWellFormed(lines)
    case Underlined(inner) => WellFormed(inner)
    case Stretch(inner, _, _) => WellFormed(inner)
  }

  /** `new TextCell(text)`: the text cut at every newline. */
  function TextCell(text: string): (c: Cell)
    ensures c.Text? && WellFormed(c)
    ensures Join(c.lines, "\n") == text
  {
    JoinSplit(text, '\n');
    Text(Split(text, '\n'))
  }

  /** `new RTextCell(text)`: the same storage as a TextCell, drawn right-aligned. */
  function RTextCell(text: string): (c: Cell)
    ensures c.RText? && WellFormed(c)
    ensures Join(c.lines, "\n") == text
  {
    JoinSplit(text, '\n');
    RText(Split(text, '\n'))
  }

  /** `cell.minWidth()`. */
  function MinWidth(c: Cell): (w: int)
    ensures w >= 0
  {
    match c
    case Text(lines) => MaxFrom0(Lengths(lines))
    case RText(lines) => MaxFrom0(Lengths(lines))
    case Underlined(inner) => MinWidth(inner)
    case Stretch(inner, width, _) => Max(MinWidth(inner), width)
  }

  /** `cell.minHeight()`. */
  function MinHeight(c: Cell): (h: int)
    ensures h >= 0
    ensures WellFormed(c) ==> h >= 1
  {
    match c
    case Text(lines) => |lines|
    case RText(lines) => |lines|
    case Underlined(inner) => MinHeight(inner) + 1
    case Stretch(inner, _, height) => Max(MinHeight(inner), height)
  }

  /**
   * A text cell is as wide as its longest line (0 when every line is empty)
   * and as high as its number of lines; an RTextCell measures the same.
   */
  lemma TextMeasures(lines: seq<string>)
    ensures forall i :: 0 <= i < |lines| ==> |lines[i]| <= MinWidth(Text(lines))
    ensures MinWidth(Text(lines)) == 0 || exists i :: 0 <= i < |lines| && |lines[i]| == MinWidth(Text(lines))
    ensures MinHeight(Text(lines)) == |lines|
    ensures MinWidth(RText(lines)) == MinWidth(Text(lines)) && MinHeight(RText(lines)) == MinHeight(Text(lines))
  {
    assert forall i :: 0 <= i < |lines| ==> Lengths(lines)[i] == |lines[i]|;
  }

  /** A StretchCell is at least as large as both its inner cell and its given size, and no larger. */
  lemma StretchMeasures(inner: Cell, width: int, height: int)
    ensures var w := MinWidth(Stretch(inner, width, height));
      w >= MinWidth(inner) && w >= width && (w == MinWidth(inner) || w == width)
    ensures var h := MinHeight(Stretch(inner, width, height));
      h >= MinHeight(inner) && h >= height && (h == MinHeight(inner) || h == height)
  {
  }

  /** `repeat(s, n)`: `s` appended to "" once per loop turn; no turn when `n <= 0`. */
  function Repeated(s: string, n: int): string
  {
    if n <= 0 then "" else Repeated(s, n - 1) + s
  }

  /** `this.text[i] || ""`: a stored line, or "" past the end. */
  function LineAt(lines: seq<string>, i: int): string
  {
    if 0 <= i < |lines| then lines[i] else ""
  }

  /** `line + repeat(" ", width - line.length)`. */
  function PadRight(line: string, width: int): string
  {
    line + Repeated(" ", width - |line|)
  }

  /** `repeat(" ", width - line.length) + line`. */
  function PadLeft(line: string, width: int): string
  {
    Repeated(" ", width - |line|) + line
  }

  /** `cell.draw(width, height)`. */
  function Draw(c: Cell, width: int, height: int): seq<string>
  {
    match c
    case Text(lines) =>
      seq(Max(height, 0), i => PadRight(LineAt(lines, i), width))
    case RText(lines) =>
      seq(Max(height, 0), i => PadLeft(LineAt(lines, i), width))
    case Underlined(inner) =>
      Draw(inner, width, height - 1) + [Repeated("-", width)]
    case Stretch(inner, _, _) =>
      Draw(inner, width, height)
  }

  /** `repeat` of one character is that character, `n` times (none when `n <= 0`). */
  lemma {:induction false} RepeatedChar(ch: char, n: int)
    ensures |Repeated([ch], n)| == Max(n, 0)
    ensures forall k :: 0 <= k < |Repeated([ch], n)| ==> Repeated([ch], n)[k] == ch
  {
    if n > 0 {
      RepeatedChar(ch, n - 1);
    }
  }

  /** Every cell draws exactly the requested number of lines once that is at least its minHeight. */
  lemma {:induction false} DrawHeight(c: Cell, width: int, height: int)
    requires height >= MinHeight(c)
    ensures |Draw(c, width, height)| == height
  {
    match c
    case Text(_) =>
    case RText(_) =>
    case Underlined(inner) =>
      DrawHeight(inner, width, height - 1);
    case Stretch(inner, _, _) =>
      DrawHeight(inner, width, height);
  }

  /** Every line a cell draws is exactly the requested width once that is at least its minWidth. */
  lemma {:induction false} DrawWidth(c: Cell, width: int, height: int)
    requires width >= MinWidth(c)
    ensures forall i :: 0 <= i < |Draw(c, width, height)| ==> |Draw(c, width, height)[i]| == width
  {
    var d := Draw(c, width, height);
    match c
    case Text(lines) =>
      forall i | 0 <= i < |d|
        ensures |d[i]| == width
      {
        var line := LineAt(lines, i);
        if 0 <= i < |lines| {
          assert Lengths(lines)[i] == |line|;
        }
        RepeatedChar(' ', width - |line|);
      }
    case RText(lines) =>
      forall i | 0 <= i < |d|
        ensures |d[i]| == width
      {
        var line := LineAt(lines, i);
        if 0 <= i < |lines| {
          assert Lengths(lines)[i] == |line|;
        }
        RepeatedChar(' ', width - |line|);
      }
    case Underlined(inner) =>
      DrawWidth(inner, width, height - 1);
      RepeatedChar('-', width);
    case Stretch(inner, _, _) =>
      DrawWidth(inner, width, height);
  }

  /** A well-formed cell draws no line holding a newline. */
  lemma {:induction false} DrawAvoidsNewline(c: Cell, width: int, height: int)
    requires WellFormed(c)
    ensures forall i :: 0 <= i < |Draw(c, width, height)| ==> '\n' !in Draw(c, width, height)[i]
  {
    var d := Draw(c, width, height);
    match c
    case Text(lines) =>
      forall i | 0 <= i < |d|
        ensures '\n' !in d[i]
      {
        RepeatedChar(' ', width - |LineAt(lines, i)|);
      }
    case RText(lines) =>
      forall i | 0 <= i < |d|
        ensures '\n' !in d[i]
      {
        RepeatedChar(' ', width - |LineAt(lines, i)|);
      }
    case Underlined(inner) =>
      DrawAvoidsNewline(inner, width, height - 1);
      RepeatedChar('-', width);
    case Stretch(inner, _, _) =>
      DrawAvoidsNewline(inner, width, height);
  }

  /**
   * Line `i` of a TextCell drawing is stored line `i` (or "") followed by
   * spaces up to the width; a line wider than the width is kept whole.
   */
  lemma TextDrawLine(lines: seq<string>, width: int, height: int, i: int)
    requires 0 <= i < height
    ensures var line, d := LineAt(lines, i), Draw(Text(lines), width, height)[i];
      |d| == Max(width, |line|) && d[..|line|] == line &&
      forall k :: |line| <= k < |d| ==> d[k] == ' '
  {
    RepeatedChar(' ', width - |LineAt(lines, i)|);
  }

  /**
   * Line `i` of an RTextCell drawing is spaces up to the width followed by
   * stored line `i` (or ""); a line wider than the width is kept whole.
   */
  lemma RTextDrawLine(lines: seq<string>, width: int, height: int, i: int)
    requires 0 <= i < height
    ensures var line, d := LineAt(lines, i), Draw(RText(lines), width, height)[i];
      |d| == Max(width, |line|) && d[|d| - |line|..] == line &&
      forall k :: 0 <= k < |d| - |line| ==> d[k] == ' '
  {
    RepeatedChar(' ', width - |LineAt(lines, i)|);
  }

  /**
   * The two `draw` loops run exactly `height` times whatever the cell holds:
   * a height below the number of stored lines cuts the later lines off, and a
   * height above it pads with blank lines.
   */
  lemma TextDrawHeight(lines: seq<string>, width: int, height: int)
    ensures |Draw(Text(lines), width, height)| == Max(height, 0)
    ensures |Draw(RText(lines), width, height)| == Max(height, 0)
    ensures forall i :: 0 <= i < Max(height, 0) ==>
      Draw(Text(lines), width, height)[i] == PadRight(LineAt(lines, i), width) &&
      Draw(RText(lines), width, height)[i] == PadLeft(LineAt(lines, i), width)
  {
  }

  /** An UnderlinedCell draws its inner cell one line shorter, then one line of `width` dashes. */
  lemma UnderlinedDraw(inner: Cell, width: int, height: int)
    ensures var d := Draw(Underlined(inner), width, height);
      |d| >= 1 && d[..|d| - 1] == Draw(inner, width, height - 1) &&
      var last := d[|d| - 1];
      |last| == Max(width, 0) && forall k :: 0 <= k < |last| ==> last[k] == '-'
  {
    RepeatedChar('-', width);
    var d := Draw(Underlined(inner), width, height);
    assert d[..|d| - 1] == Draw(inner, width, height - 1);
  }

  /** `repeat(string, times)`, as the source's counting loop. */
  method Repeat(s: string, times: int) returns (result: string)
    ensures result == Repeated(s, times)
  {
    result := "";
    var i := 0;
    while i < times
      invariant 0 <= i && (i <= times || i == 0)
      invariant result == Repeated(s, i)
    {
      result := result + s;
      i := i + 1;
    }
  }

  /** `TextCell.prototype.draw`: push one padded line per loop turn. */
  method DrawTextLines(lines: seq<string>, width: int, height: int) returns (result: seq<string>)
    ensures result == Draw(Text(lines), width, height)
  {
    result := [];
    var i := 0;
    while i < height
      invariant 0 <= i <= Max(height, 0)
      invariant |result| == i
      invariant forall k :: 0 <= k < i ==> result[k] == PadRight(LineAt(lines, k), width)
    {
      var line := LineAt(lines, i);
      var padding := Repeat(" ", width - |line|);
      result := result + [line + padding];
      i := i + 1;
    }
  }

  /** `RTextCell.prototype.draw`: as TextCell's, with the spaces put first. */
  method DrawRTextLines(lines: seq<string>, width: int, height: int) returns (result: seq<string>)
    ensures result == Draw(RText(lines), width, height)
  {
    result := [];
    var i := 0;
    while i < height
      invariant 0 <= i <= Max(height, 0)
      invariant |result| == i
      invariant forall k :: 0 <= k < i ==> result[k] == PadLeft(LineAt(lines, k), width)
    {
      var line := LineAt(lines, i);
      var padding := Repeat(" ", width - |line|);
      result := result + [padding + line];
      i := i + 1;
    }
  }

  /** `cell.draw(width, height)`, dispatched on the kind of cell as the prototypes do. */
  method DrawCell(c: Cell, width: int, height: int) returns (block: seq<string>)
    ensures block == Draw(c, width, height)
  {
    match c
    case Text(lines) =>
      block := DrawTextLines(lines, width, height);
    case RText(lines) =>
      block := DrawRTextLines(lines, width, height);
    case Underlined(inner) =>
      var above := DrawCell(inner, width, height - 1);
      var underline := Repeat("-", width);
      block := above + [underline];
    case Stretch(inner, _, _) =>
      block := DrawCell(inner, width, height);
  }

  // ---------------------------------------------------------------------------
  // Measuring pass
  // ---------------------------------------------------------------------------

  /** The `reduce` inside `rowHeights`: the largest minHeight of a row's cells, 0 for an empty row. */
  function RowHeight(row: seq<Cell>): (h: int)
    ensures forall c :: 0 <= c < |row| ==> MinHeight(row[c]) <= h
    ensures (h == 0 && |row| == 0) || exists c :: 0 <= c < |row| && MinHeight(row[c]) == h
  {
    var hs := seq(|row|, c requires 0 <= c < |row| => MinHeight(row[c]));
    assert forall c :: 0 <= c < |row| ==> hs[c] == MinHeight(row[c]);
    var h := MaxFrom0(hs);
    assert |row| > 0 ==> hs[0] <= h;
    h
  }

  /** `rowHeights(rows)`: one entry per row, the largest minHeight of its cells (0 for an empty row). */
  function RowHeights(rows: Grid): (heights: seq<int>)
    ensures |heights| == |rows|
    ensures forall r :: 0 <= r < |rows| ==> heights[r] == RowHeight(rows[r])
  {
    seq(|rows|, r requires 0 <= r < |rows| => RowHeight(rows[r]))
  }

  /** What `colWidths` needs of its grid: a first row, and no row shorter than it. */
  predicate HasColumns(rows: Grid)
  {
    |rows| >= 1 && forall r :: 0 <= r < |rows| ==> |rows[r]| >= |rows[0]|
  }

  /** The `reduce` inside `colWidths`: the largest minWidth in column `i`. */
  function ColWidth(rows: Grid, i: int): (w: int)
    requires |rows| >= 1 && 0 <= i
    requires forall r :: 0 <= r < |rows| ==> i < |rows[r]|
    ensures forall r :: 0 <= r < |rows| ==> MinWidth(rows[r][i]) <= w
    ensures exists r :: 0 <= r < |rows| && MinWidth(rows[r][i]) == w
  {
    var ws := seq(|rows|, r requires 0 <= r < |rows| => MinWidth(rows[r][i]));
    assert forall r :: 0 <= r < |rows| ==> ws[r] == MinWidth(rows[r][i]);
    var w := MaxFrom0(ws);
    assert ws[0] <= w;
    w
  }

  /** `colWidths(rows)`: one entry per cell of the first row, the largest minWidth of that column. */
  function ColWidths(rows: Grid): (widths: seq<int>)
    requires HasColumns(rows)
    ensures |widths| == |rows[0]|
    ensures forall i :: 0 <= i < |widths| ==> widths[i] == ColWidth(rows, i)
  {
    seq(|rows[0]|, i requires 0 <= i < |rows[0]| => ColWidth(rows, i))
  }

  // ---------------------------------------------------------------------------
  // Rendering pass
  // ---------------------------------------------------------------------------

  /** Every row has exactly as many cells as the first, and there is at least one of those. */
  predicate Rectangular(rows: Grid)
  {
    |rows| >= 1 && |rows[0]| >= 1 && forall r :: 0 <= r < |rows| ==> |rows[r]| == |rows[0]|
  }

  /** Every cell of the grid is well-formed. */
  predicate AllWellFormed(rows: Grid)
  {
    forall r, c :: 0 <= r < |rows| && 0 <= c < |rows[r]| ==> WellFormed(rows[r][c])
  }

  /**
   * `drawLine(blocks, lineNo)`: line `lineNo` of every block, joined by single
   * spaces. `join` writes "" for a block that has no such line.
   */
  function DrawLine(blocks: seq<seq<string>>, lineNo: int): string
  {
    Join(seq(|blocks|, b requires 0 <= b < |blocks| => LineAt(blocks[b], lineNo)), " ")
  }

  /** The blocks of one row: each cell drawn at its column's width and the row's height. */
  function RowBlocks(row: seq<Cell>, widths: seq<int>, height: int): seq<seq<string>>
    requires |row| <= |widths|
  {
    seq(|row|, c requires 0 <= c < |row| => Draw(row[c], widths[c], height))
  }

  /** The lines of `drawRow`: one per line of the first cell's block. */
  function RowLines(row: seq<Cell>, widths: seq<int>, height: int): seq<string>
    requires 1 <= |row| <= |widths|
  {
    var blocks := RowBlocks(row, widths, height);
    seq(|blocks[0]|, lineNo => DrawLine(blocks, lineNo))
  }

  /** `drawRow(row, rowNum)`: the row's lines joined by newlines. */
  function DrawRow(row: seq<Cell>, widths: seq<int>, height: int): string
    requires 1 <= |row| <= |widths|
  {
    Join(RowLines(row, widths, height), "\n")
  }

  /** Sizes that `drawRow` can be applied with: a height per row, a width per cell of every row. */
  predicate Sized(rows: Grid, widths: seq<int>, heights: seq<int>)
  {
    |heights| == |rows| && forall r :: 0 <= r < |rows| ==> 1 <= |rows[r]| <= |widths|
  }

  /** The lines each row contributes at the given sizes, in row order. */
  function LinesOfRows(rows: Grid, widths: seq<int>, heights: seq<int>): seq<seq<string>>
    requires Sized(rows, widths, heights)
  {
    seq(|rows|, r requires 0 <= r < |rows| => RowLines(rows[r], widths, heights[r]))
  }

  /** `rows.map(drawRow).join("\n")` at the given sizes. */
  function RenderRows(rows: Grid, widths: seq<int>, heights: seq<int>): string
    requires Sized(rows, widths, heights)
  {
    Join(seq(|rows|, r requires 0 <= r < |rows| => DrawRow(rows[r], widths, heights[r])), "\n")
  }

  /** The lines each row of `drawTable` contributes, in row order. */
  function TableLines(rows: Grid): seq<seq<string>>
    requires Rectangular(rows)
  {
    LinesOfRows(rows, ColWidths(rows), RowHeights(rows))
  }

  /** `drawTable(rows)`: measure the grid, then draw every row at the measured sizes. */
  function DrawTable(rows: Grid): string
    requires Rectangular(rows)
  {
    RenderRows(rows, ColWidths(rows), RowHeights(rows))
  }

  /** Rendering is the newline-join of every row's newline-joined lines. */
  lemma RenderRowsJoin(rows: Grid, widths: seq<int>, heights: seq<int>)
    requires Sized(rows, widths, heights)
    ensures var xss := LinesOfRows(rows, widths, heights);
      RenderRows(rows, widths, heights) == Join(seq(|xss|, i requires 0 <= i < |xss| => Join(xss[i], "\n")), "\n")
  {
    var xss := LinesOfRows(rows, widths, heights);
    assert seq(|xss|, i requires 0 <= i < |xss| => Join(xss[i], "\n"))
        == seq(|rows|, r requires 0 <= r < |rows| => DrawRow(rows[r], widths, heights[r]));
  }

  /** A row whose cells all fit the given widths and height draws `height` lines of one common length. */
  lemma RowShape(row: seq<Cell>, widths: seq<int>, height: int)
    requires 1 <= |row| == |widths|
    requires forall c :: 0 <= c < |row| ==> MinHeight(row[c]) <= height && MinWidth(row[c]) <= widths[c]
    ensures |RowLines(row, widths, height)| == height
    ensures forall l :: 0 <= l < height ==> |RowLines(row, widths, height)[l]| == Sum(widths) + |row| - 1
  {
    var blocks := RowBlocks(row, widths, height);
    forall c | 0 <= c < |blocks|
      ensures |blocks[c]| == height
      ensures forall l :: 0 <= l < |blocks[c]| ==> |blocks[c][l]| == widths[c]
    {
      DrawHeight(row[c], widths[c], height);
      DrawWidth(row[c], widths[c], height);
    }
    var lines := RowLines(row, widths, height);
    forall l | 0 <= l < height
      ensures |lines[l]| == Sum(widths) + |row| - 1
    {
      var parts := seq(|blocks|, b requires 0 <= b < |blocks| => LineAt(blocks[b], l));
      assert lines[l] == Join(parts, " ");
      assert Lengths(parts) == widths;
      JoinLength(parts, " ");
    }
  }

  /** A row of well-formed cells draws no line holding a newline. */
  lemma RowAvoidsNewline(row: seq<Cell>, widths: seq<int>, height: int)
    requires 1 <= |row| <= |widths|
    requires forall c :: 0 <= c < |row| ==> WellFormed(row[c])
    ensures forall l :: 0 <= l < |RowLines(row, widths, height)| ==> '\n' !in RowLines(row, widths, height)[l]
  {
    var blocks := RowBlocks(row, widths, height);
    forall c | 0 <= c < |blocks|
      ensures forall l :: 0 <= l < |blocks[c]| ==> '\n' !in blocks[c][l]
    {
      DrawAvoidsNewline(row[c], widths[c], height);
    }
    var lines := RowLines(row, widths, height);
    forall l | 0 <= l < |lines|
      ensures '\n' !in lines[l]
    {
      var parts := seq(|blocks|, b requires 0 <= b < |blocks| => LineAt(blocks[b], l));
      assert lines[l] == Join(parts, " ");
      JoinAvoids(parts, " ", '\n');
    }
  }

  /**
   * Row `r` of a table contributes exactly its row height in lines, and each of
   * them is as long as the column widths plus one separating space per gap.
   */
  lemma RowLinesShape(rows: Grid, r: int)
    requires Rectangular(rows) && 0 <= r < |rows|
    ensures var lines := RowLines(rows[r], ColWidths(rows), RowHeights(rows)[r]);
      |lines| == RowHeights(rows)[r] &&
      forall l :: 0 <= l < |lines| ==> |lines[l]| == Sum(ColWidths(rows)) + |rows[0]| - 1
  {
    var heights, widths := RowHeights(rows), ColWidths(rows);
    assert forall c :: 0 <= c < |rows[r]| ==> MinHeight(rows[r][c]) <= heights[r] && MinWidth(rows[r][c]) <= widths[c];
    RowShape(rows[r], widths, heights[r]);
  }

  /** Entry `r` of TableLines is the row drawn at the measured sizes. */
  lemma TableLinesAt(rows: Grid, r: int)
    requires Rectangular(rows) && 0 <= r < |rows|
    ensures |TableLines(rows)| == |rows|
    ensures TableLines(rows)[r] == RowLines(rows[r], ColWidths(rows), RowHeights(rows)[r])
  {
  }

  /**
   * The text `drawTable` returns, cut at its newlines, is exactly the rows'
   * lines one after another: no blank separator, nothing lost or merged.
   * Together with RowLinesShape this gives the shape of the whole table.
   */
  lemma DrawTableLines(rows: Grid)
    requires Rectangular(rows) && AllWellFormed(rows)
    ensures Split(DrawTable(rows), '\n') == Flatten(TableLines(rows))
  {
    var heights, widths := RowHeights(rows), ColWidths(rows);
    var xss := TableLines(rows);
    forall r | 0 <= r < |xss|
      ensures |xss[r]| >= 1
      ensures forall l :: 0 <= l < |xss[r]| ==> '\n' !in xss[r][l]
    {
      TableLinesAt(rows, r);
      assert MinHeight(rows[r][0]) >= 1;
      RowLinesShape(rows, r);
      RowAvoidsNewline(rows[r], widths, heights[r]);
    }
    JoinFlatten(xss, "\n");
    RenderRowsJoin(rows, widths, heights);
    FlattenAvoids(xss, '\n');
    SplitJoin(Flatten(xss), '\n');
  }

  // ---------------------------------------------------------------------------
  // Building a table from records
  // ---------------------------------------------------------------------------

  /** A record field: `typeof value == "number"` or anything else, given by its string form. */
  datatype Value = Number(n: int) | Str(s: string)

  /** A record: its keys in `Object.keys` order, and its fields. */
  datatype Record = Record(keys: seq<string>, fields: map<string, Value>)

  /**
   * What `Object.keys` gives of a record: each own property name once, and
   * nothing else.
   */
  predicate OwnKeys(r: Record)
  {
    (forall i, j :: 0 <= i < j < |r.keys| ==> r.keys[i] != r.keys[j]) &&
    (forall i :: 0 <= i < |r.keys| ==> r.keys[i] in r.fields) &&
    (forall name :: name in r.fields ==> name in r.keys)
  }

  /** The value of a digit string read in base ten. */
  function DecimalValue(s: string): int
  {
    if |s| == 0 then 0 else DecimalValue(s[..|s| - 1]) * 10 + (s[|s| - 1] as int - '0' as int)
  }

  /**
   * `String(n)` for a non-negative integer: its decimal digits, with no
   * leading zero except for 0 itself, so one digit exactly below 10.
   */
  function NatToString(n: nat): (s: string)
    ensures |s| >= 1
    ensures forall k :: 0 <= k < |s| ==> '0' <= s[k] <= '9'
    ensures s[0] == '0' <==> n == 0
    ensures |s| == 1 <==> n < 10
    ensures DecimalValue(s) == n
  {
    var digit := ('0' as int + n % 10) as char;
    if n < 10 then [digit]
    else
      var prefix := NatToString(n / 10);
      assert (prefix + [digit])[..|prefix|] == prefix;
      prefix + [digit]
  }

  /**
   * `String(n)` for an integer: a minus sign exactly for a negative one, then
   * the decimal digits of its magnitude, with no leading zero.
   */
  function IntToString(n: int): (s: string)
    ensures |s| >= 1
    ensures s[0] == '-' <==> n < 0
    ensures var d := if n < 0 then 1 else 0;
      d < |s| && (forall k :: d <= k < |s| ==> '0' <= s[k] <= '9') &&
      (s[d] == '0' <==> n == 0) && DecimalValue(s[d..]) == if n < 0 then -n else n
  {
    if n < 0 then
      var digits := NatToString(-n);
      assert ("-" + digits)[1..] == digits;
      "-" + digits
    else NatToString(n)
  }

  /** `row[name]`: `None` stands for JavaScript's `undefined`. */
  function Lookup(row: Record, name: string): Option<Value>
  {
    if name in row.fields then Some(row.fields[name]) else None
  }

  /** `String(value)`. */
  function Display(value: Option<Value>): string
  {
    match value
    case Some(Number(n)) => IntToString(n)
    case Some(Str(s)) => s
    case None => "undefined"
  }

  /** The body cell of one field: numbers right-aligned, everything else left-aligned. */
  function BodyCell(value: Option<Value>): (c: Cell)
    ensures c.Text? || c.RText?
    ensures c.RText? <==> value.Some? && value.value.Number?
    ensures WellFormed(c) && Join(c.lines, "\n") == Display(value)
  {
    if value.Some? && value.value.Number? then RTextCell(Display(value)) else TextCell(Display(value))
  }

  /** The header row: each key's name as an underlined text cell. */
  function HeaderRow(keys: seq<string>): (cells: seq<Cell>)
    ensures |cells| == |keys|
    ensures forall k :: 0 <= k < |keys| ==> cells[k] == Underlined(TextCell(keys[k]))
  {
    seq(|keys|, k requires 0 <= k < |keys| => Underlined(TextCell(keys[k])))
  }

  /** The body row of one record: one cell per key, drawn from the record's field of that name. */
  function BodyRow(row: Record, keys: seq<string>): (cells: seq<Cell>)
    ensures |cells| == |keys|
    ensures forall k :: 0 <= k < |keys| ==> cells[k] == BodyCell(Lookup(row, keys[k]))
  {
    seq(|keys|, k requires 0 <= k < |keys| => BodyCell(Lookup(row, keys[k])))
  }

  /** Row `r` of the table built from `data` with the given keys. */
  function TableRow(data: seq<Record>, keys: seq<string>, r: int): seq<Cell>
    requires 0 <= r <= |data|
  {
    if r == 0 then HeaderRow(keys) else BodyRow(data[r - 1], keys)
  }

  /**
   * `dataTable(data)`: a header row of underlined key names, taken from the
   * first record, then one row per record with one cell per key.
   */
  function DataTable(data: seq<Record>): (rows: Grid)
    requires |data| >= 1
    ensures |rows| == |data| + 1
    ensures forall r :: 0 <= r < |rows| ==> |rows[r]| == |data[0].keys|
  {
    seq(|data| + 1, r requires 0 <= r <= |data| => TableRow(data, data[0].keys, r))
  }

  /**
   * When the first record's keys are its own properties, its body row shows
   * a field in every cell: no cell of row 1 reads `undefined` from a missing
   * field.
   */
  lemma FirstRecordComplete(data: seq<Record>, k: int)
    requires |data| >= 1 && OwnKeys(data[0]) && 0 <= k < |data[0].keys|
    ensures data[0].keys[k] in data[0].fields
    ensures DataTable(data)[1][k] == BodyCell(Some(data[0].fields[data[0].keys[k]]))
  {
    assert DataTable(data)[1] == BodyRow(data[0], data[0].keys);
  }

  /** Row 0 of `dataTable` is the header row of the first record's keys. */
  lemma DataTableFirstRow(data: seq<Record>)
    requires |data| >= 1
    ensures DataTable(data)[0] == HeaderRow(data[0].keys)
  {
  }

  /** Row `r` of `dataTable`, past the header, is the body row of record `r - 1`. */
  lemma DataTableRow(data: seq<Record>, r: int)
    requires |data| >= 1 && 1 <= r <= |data|
    ensures DataTable(data)[r] == BodyRow(data[r - 1], data[0].keys)
  {
  }

  /** Cell `k` of a body row shows the record's field named by key `k`. */
  lemma BodyRowCell(row: Record, keys: seq<string>, k: int)
    requires 0 <= k < |keys|
    ensures var c, value := BodyRow(row, keys)[k], Lookup(row, keys[k]);
      WellFormed(c) && (c.Text? || c.RText?) && (c.RText? <==> value.Some? && value.value.Number?) &&
      Join(c.lines, "\n") == Display(value)
  {
  }

  /** Every cell `dataTable` builds comes from a TextCell constructor, so the table can be drawn. */
  lemma DataTableWellFormed(data: seq<Record>)
    requires |data| >= 1
    ensures AllWellFormed(DataTable(data))
  {
    var rows := DataTable(data);
    forall r, c | 0 <= r < |rows| && 0 <= c < |rows[r]|
      ensures WellFormed(rows[r][c])
    {
      if r == 0 {
        DataTableFirstRow(data);
        assert rows[r][c] == Underlined(TextCell(data[0].keys[c]));
      } else {
        DataTableRow(data, r);
        BodyRowCell(data[r - 1], data[0].keys, c);
      }
    }
  }

  /** Header cell `k` of `dataTable` is the first record's key `k`, underlined. */
  lemma DataTableHeader(data: seq<Record>, k: int)
    requires |data| >= 1 && 0 <= k < |data[0].keys|
    ensures var c := DataTable(data)[0][k];
      c.Underlined? && c.inner.Text? && Join(c.inner.lines, "\n") == data[0].keys[k]
  {
    DataTableFirstRow(data);
  }

  /**
   * Body cell `k` of row `r` shows the field of record `r - 1` named by key `k`
   * of the first record: right-aligned exactly when that field is a number.
   */
  lemma DataTableBody(data: seq<Record>, r: int, k: int)
    requires |data| >= 1 && 1 <= r <= |data| && 0 <= k < |data[0].keys|
    ensures var c, value := DataTable(data)[r][k], Lookup(data[r - 1], data[0].keys[k]);
      (c.Text? || c.RText?) && (c.RText? <==> value.Some? && value.value.Number?) &&
      Join(c.lines, "\n") == Display(value)
  {
    DataTableRow(data, r);
    BodyRowCell(data[r - 1], data[0].keys, k);
  }

  // ---------------------------------------------------------------------------
  // The worked examples of the source and of the exercise text
  // ---------------------------------------------------------------------------

  /** `new TextCell("abc")` is 3 wide, 1 high, and draws at 5 x 1 as "abc  ". */
  lemma TextCellExample()
    ensures MinWidth(TextCell("abc")) == 3 && MinHeight(TextCell("abc")) == 1
    ensures Draw(TextCell("abc"), 5, 1) == ["abc  "]
  {
    SplitWithoutSeparator("abc", '\n');
    assert Lengths(["abc"]) == [3];
    assert MaxFrom0([3]) == 3 by { assert [3][..0] == []; }
    assert Repeated(" ", 2) == "  " by { assert Repeated(" ", 1) == " "; }
    var d := Draw(Text(["abc"]), 5, 1);
    assert |d| == 1 && d[0] == PadRight("abc", 5) == "abc" + "  ";
    assert TextCell("abc") == Text(["abc"]);
    assert "abc" + "  " == "abc  ";
    assert d == ["abc  "];
  }

  /** `new RTextCell("5895")` draws at 6 x 1 as "  5895". */
  lemma RTextCellExample()
    ensures Draw(RTextCell("5895"), 6, 1) == ["  5895"]
  {
    SplitWithoutSeparator("5895", '\n');
    assert Repeated(" ", 2) == "  " by { assert Repeated(" ", 1) == " "; }
    var d := Draw(RText(["5895"]), 6, 1);
    assert |d| == 1 && d[0] == PadLeft("5895", 6) == "  " + "5895";
    assert RTextCell("5895") == RText(["5895"]);
    assert "  " + "5895" == "  5895";
    assert d == ["  5895"];
  }

  /** The exercise's `new StretchCell(new TextCell("abc"), 1, 2)`: 3 wide, 2 high, ["abc", "   "]. */
  lemma StretchCellExample()
    ensures var sc := Stretch(TextCell("abc"), 1, 2);
      MinWidth(sc) == 3 && MinHeight(sc) == 2 && Draw(sc, 3, 2) == ["abc", "   "]
  {
    SplitWithoutSeparator("abc", '\n');
    assert Lengths(["abc"]) == [3];
    assert MaxFrom0([3]) == 3 by { assert [3][..0] == []; }
    assert Repeated(" ", 0) == "";
    assert Repeated(" ", 3) == "   " by { assert Repeated(" ", 2) == "  " by { assert Repeated(" ", 1) == " "; } }
    var d := Draw(Text(["abc"]), 3, 2);
    assert |d| == 2 && d[0] == PadRight("abc", 3) == "abc" && d[1] == PadRight("", 3) == "   ";
  }

  /** A one-line text cell drawn one line high is its line padded on the right. */
  lemma DrawOneLine(line: string, width: int)
    ensures Draw(Text([line]), width, 1) == [PadRight(line, width)]
  {
  }

  /** A row of two cells that each draw one line renders as those lines around one space. */
  lemma RowOfTwo(row: seq<Cell>, widths: seq<int>, height: int, a: string, b: string)
    requires |row| == 2 && |widths| >= 2
    requires Draw(row[0], widths[0], height) == [a] && Draw(row[1], widths[1], height) == [b]
    ensures DrawRow(row, widths, height) == a + " " + b
  {
    var blocks := RowBlocks(row, widths, height);
    assert blocks == [[a], [b]];
    var parts := seq(|blocks|, k requires 0 <= k < |blocks| => LineAt(blocks[k], 0));
    assert parts == [a, b];
    assert [a, b][1..] == [b];
    assert DrawLine(blocks, 0) == Join([a, b], " ") == a + " " + b;
    assert RowLines(row, widths, height) == [DrawLine(blocks, 0)];
  }

  /** A grid of two rows of two one-line text cells. */
  function TwoByTwo(a: string, b: string, c: string, d: string): Grid
  {
    [[Text([a]), Text([b])], [Text([c]), Text([d])]]
  }

  /** A one-line text cell is as wide as its line. */
  lemma OneLineWidth(line: string)
    ensures MinWidth(Text([line])) == |line|
  {
    assert Lengths([line]) == [|line|];
    assert [|line|][..0] == [];
  }

  /** A column's width is the one minWidth in it that no other exceeds. */
  lemma ColWidthIs(rows: Grid, i: int, r0: int)
    requires |rows| >= 1 && 0 <= i && forall r :: 0 <= r < |rows| ==> i < |rows[r]|
    requires 0 <= r0 < |rows| && forall r :: 0 <= r < |rows| ==> MinWidth(rows[r][i]) <= MinWidth(rows[r0][i])
    ensures ColWidth(rows, i) == MinWidth(rows[r0][i])
  {
  }

  /** A two-by-two grid of one-line cells is two rows one line high. */
  lemma TwoByTwoHeights(a: string, b: string, c: string, d: string)
    ensures RowHeights(TwoByTwo(a, b, c, d)) == [1, 1]
  {
    var rows := TwoByTwo(a, b, c, d);
    assert RowHeight(rows[0]) == 1;
    assert RowHeight(rows[1]) == 1;
  }

  /** A column of two cells is as wide as the wider of them. */
  lemma TwoRowColWidth(rows: Grid, i: int)
    requires |rows| == 2 && 0 <= i < |rows[0]| && i < |rows[1]|
    ensures ColWidth(rows, i) == Max(MinWidth(rows[0][i]), MinWidth(rows[1][i]))
  {
    ColWidthIs(rows, i, if MinWidth(rows[0][i]) >= MinWidth(rows[1][i]) then 0 else 1);
  }

  /** Columns of a grid two cells wide are listed in order. */
  lemma TwoColWidths(rows: Grid)
    requires |rows| >= 1 && forall r :: 0 <= r < |rows| ==> |rows[r]| == 2
    ensures ColWidths(rows) == [ColWidth(rows, 0), ColWidth(rows, 1)]
  {
  }

  /** The left column of the two-by-two grid is as wide as its longer line. */
  lemma TwoByTwoLeft(a: string, b: string, c: string, d: string)
    ensures ColWidth(TwoByTwo(a, b, c, d), 0) == Max(|a|, |c|)
  {
    OneLineWidth(a);
    OneLineWidth(c);
    TwoRowColWidth(TwoByTwo(a, b, c, d), 0);
  }

  /** The right column of the two-by-two grid is as wide as its longer line. */
  lemma TwoByTwoRight(a: string, b: string, c: string, d: string)
    ensures ColWidth(TwoByTwo(a, b, c, d), 1) == Max(|b|, |d|)
  {
    OneLineWidth(b);
    OneLineWidth(d);
    TwoRowColWidth(TwoByTwo(a, b, c, d), 1);
  }

  /** Its columns are as wide as the longer line in each. */
  lemma TwoByTwoWidths(a: string, b: string, c: string, d: string)
    ensures Rectangular(TwoByTwo(a, b, c, d))
    ensures ColWidths(TwoByTwo(a, b, c, d)) == [Max(|a|, |c|), Max(|b|, |d|)]
  {
    TwoColWidths(TwoByTwo(a, b, c, d));
    TwoByTwoLeft(a, b, c, d);
    TwoByTwoRight(a, b, c, d);
  }

  /** A grid of two rows renders as the two drawn rows around a newline. */
  lemma RenderTwoRows(rows: Grid, widths: seq<int>, heights: seq<int>)
    requires |rows| == 2 && Sized(rows, widths, heights)
    ensures RenderRows(rows, widths, heights) ==
      DrawRow(rows[0], widths, heights[0]) + "\n" + DrawRow(rows[1], widths, heights[1])
  {
    var rendered := seq(|rows|, r requires 0 <= r < |rows| => DrawRow(rows[r], widths, heights[r]));
    assert rendered[1..] == [rendered[1]];
    assert Join(rendered[1..], "\n") == rendered[1];
  }

  /** The two-by-two grid is drawn at its measured sizes. */
  lemma TwoByTwoMeasured(a: string, b: string, c: string, d: string)
    ensures Rectangular(TwoByTwo(a, b, c, d))
    ensures DrawTable(TwoByTwo(a, b, c, d)) == RenderRows(TwoByTwo(a, b, c, d), [Max(|a|, |c|), Max(|b|, |d|)], [1, 1])
  {
    TwoByTwoHeights(a, b, c, d);
    TwoByTwoWidths(a, b, c, d);
  }

  /** It draws as the two rows' lines joined by a newline. */
  lemma TwoByTwoRendered(a: string, b: string, c: string, d: string)
    ensures Rectangular(TwoByTwo(a, b, c, d))
    ensures var w0, w1 := Max(|a|, |c|), Max(|b|, |d|);
      DrawTable(TwoByTwo(a, b, c, d)) ==
        (PadRight(a, w0) + " " + PadRight(b, w1)) + "\n" + (PadRight(c, w0) + " " + PadRight(d, w1))
  {
    var rows := TwoByTwo(a, b, c, d);
    var widths := [Max(|a|, |c|), Max(|b|, |d|)];
    TwoByTwoMeasured(a, b, c, d);
    RenderTwoRows(rows, widths, [1, 1]);
    assert DrawRow(rows[0], widths, 1) == PadRight(a, widths[0]) + " " + PadRight(b, widths[1]) by {
      DrawOneLine(a, widths[0]);
      DrawOneLine(b, widths[1]);
      RowOfTwo(rows[0], widths, 1, PadRight(a, widths[0]), PadRight(b, widths[1]));
    }
    assert DrawRow(rows[1], widths, 1) == PadRight(c, widths[0]) + " " + PadRight(d, widths[1]) by {
      DrawOneLine(c, widths[0]);
      DrawOneLine(d, widths[1]);
      RowOfTwo(rows[1], widths, 1, PadRight(c, widths[0]), PadRight(d, widths[1]));
    }
  }

  /** The four TextCells of the small grid each hold their one line. */
  lemma SmallGridCells()
    ensures [[TextCell("x"), TextCell("yy")], [TextCell("z"), TextCell("w")]] == TwoByTwo("x", "yy", "z", "w")
  {
    SplitWithoutSeparator("x", '\n');
    SplitWithoutSeparator("yy", '\n');
    SplitWithoutSeparator("z", '\n');
    SplitWithoutSeparator("w", '\n');
  }

  /** The padded lines and their concatenation in the small grid. */
  lemma SmallGridStrings()
    ensures (PadRight("x", 1) + " " + PadRight("yy", 2)) + "\n" + (PadRight("z", 1) + " " + PadRight("w", 2)) == "x yy\nz w "
  {
    assert Repeated(" ", 0) == "" && Repeated(" ", 1) == " ";
    assert PadRight("x", 1) == "x" && PadRight("yy", 2) == "yy" && PadRight("z", 1) == "z";
    assert PadRight("w", 2) == "w ";
    assert ("x" + " " + "yy") + "\n" + ("z" + " " + "w ") == "x yy\nz w ";
  }

  /** "x", "yy" over "z", "w": columns 1 and 2 wide, drawn as "x yy" and "z w ". */
  lemma SmallGridExample()
    ensures DrawTable([[TextCell("x"), TextCell("yy")], [TextCell("z"), TextCell("w")]]) == "x yy\nz w "
  {
    SmallGridCells();
    TwoByTwoRendered("x", "yy", "z", "w");
    SmallGridStrings();
  }
}
