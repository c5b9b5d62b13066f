/**
 * `TextTable`: renders rows as a plain-text table. Every column takes the
 * width of its widest entry, cells are padded to that width on the side their
 * alignment says, and optional rules above the header, under the header and
 * under the table are repeated to the table's full width.
 *
 * The rows are a sequence and each column's fetcher a function from a row to
 * an optional cell text; the look of the table (`look.grid`,
 * `look.tableIndent`) is two fields of the table.
 */
module TextTable {
  import opened Wrappers
  import opened StringBuilderFun
  import CharFun

  datatype Align = Left | Right

  /** The rules and separators of a table; `None` leaves that rule out. */
  datatype Grid = Grid(topLine: Option<string>, headLine: Option<string>, bottomLine: Option<string>,
                       cellGap: string, leftLine: string, rightLine: string)

  /** `Grid()` with its defaults. */
  function DefaultGrid(): Grid
  {
    Grid(Some("=="), Some("--"), Some("--"), "  ", "", "")
  }

  /** The width a title gives its column to start with: its length, 0 for none. */
  function TitleWidth(title: Option<string>): nat
  {
    if title.Some? then |title.value| else 0
  }

  class Column<R> {
    const title: Option<string>
    const alignment: Align
    const fetcher: R -> Option<string>
    /** A minimum width the caller may raise; it starts as the title's length. */
    var width: nat

    constructor (title: Option<string>, fetcher: R -> Option<string>, alignment: Align := Left)
      ensures this.title == title && this.alignment == alignment && this.fetcher == fetcher
      ensures width == TitleWidth(title)
    {
      this.title := title;
      this.alignment := alignment;
      this.fetcher := fetcher;
      width := if title.Some? then |title.value| else 0;
    }
  }

  // ---------------------------------------------------------------------------
  // Widths

  function Max(a: nat, b: nat): nat
  {
    if a < b then b else a
  }

  /** `calculateTextWidth`: a cell's width is its length; a null cell has none. */
  function CellWidth<R>(fetcher: R -> Option<string>, row: R): nat
  {
    if fetcher(row).Some? then |fetcher(row).value| else 0
  }

  /** The width of a column that starts at `start`: the largest of `start` and its cells' widths. */
  function ColumnWidth<R>(start: nat, fetcher: R -> Option<string>, rows: seq<R>): (w: nat)
    ensures start <= w
    ensures forall k :: 0 <= k < |rows| ==> CellWidth(fetcher, rows[k]) <= w
    ensures w == start || exists k :: 0 <= k < |rows| && w == CellWidth(fetcher, rows[k])
  {
    if rows == [] then start
    else Max(ColumnWidth(start, fetcher, rows[..|rows| - 1]), CellWidth(fetcher, rows[|rows| - 1]))
  }

  /** The widths the columns have before any row is looked at. */
  ghost function StartWidths<R>(cols: seq<Column<R>>): (ws: seq<nat>)
    reads set c | c in cols
    ensures |ws| == |cols|
    ensures forall i :: 0 <= i < |cols| ==> ws[i] == cols[i].width
  {
    if cols == [] then [] else StartWidths(cols[..|cols| - 1]) + [cols[|cols| - 1].width]
  }

  /** `columnWidths.reduce { m, w -> m + w }`. */
  function Sum(ws: seq<nat>): nat
  {
    if ws == [] then 0 else Sum(ws[..|ws| - 1]) + ws[|ws| - 1]
  }

  /** `columnWidths.reduce { m, w -> max(m, w) }`: the widest column. */
  function Longest(ws: seq<nat>): (m: nat)
    requires ws != []
    ensures forall i :: 0 <= i < |ws| ==> ws[i] <= m
    ensures exists i :: 0 <= i < |ws| && m == ws[i]
  {
    if |ws| == 1 then ws[0]
    else
      var m := Longest(ws[..|ws| - 1]);
      assert forall i :: 0 <= i < |ws| - 1 ==> ws[..|ws| - 1][i] == ws[i];
      Max(m, ws[|ws| - 1])
  }

  /** The widths of the columns, the gaps between them and the side lines. */
  function TableWidth(grid: Grid, ws: seq<nat>): nat
    requires ws != []
  {
    Sum(ws) + (|ws| - 1) * |grid.cellGap| + |grid.leftLine| + |grid.rightLine|
  }

  // ---------------------------------------------------------------------------
  // Rules

  /** The rule pattern `p` repeated to `width` characters; `p` whole when it is at least that long. */
  function TillWidth(p: string, width: nat): (r: string)
    requires p != [] || width == 0
    ensures |p| >= width ==> r == p
    ensures |p| < width ==> |r| == width && forall i :: 0 <= i < width ==> r[i] == p[i % |p|]
  {
    if |p| >= width then p else seq(width, i requires 0 <= i < width => p[i % |p|])
  }

  /** Within the `k`-th block of `m` positions, the remainder is the offset into the block. */
  lemma ModInBlock(i: int, k: nat, m: int)
    requires m > 0 && k * m <= i < k * m + m
    ensures i % m == i - k * m
  {
    var q, r := i / m, i % m;
    assert i == q * m + r;
    assert (k - q) * m == r - (i - k * m);
    assert (q - k) * m == (i - k * m) - r;
    if k > q {
      MulAtLeast(k - q, m);
    } else if k < q {
      MulAtLeast(q - k, m);
    }
  }

  lemma {:induction false} MulAtLeast(d: int, m: int)
    requires d >= 1 && m > 0
    ensures d * m >= m
    decreases d
  {
    if d > 1 {
      MulAtLeast(d - 1, m);
      assert d * m == (d - 1) * m + m;
    }
  }

  /** A rule can be drawn: its pattern is not empty, or it needs no characters at all. */
  predicate Drawable(rule: Option<string>, width: nat)
  {
    rule.Some? ==> rule.value != [] || width == 0
  }

  /**
   * `replicateTillWidth`: appends the pattern to a builder until the width is
   * reached, then cuts the builder back to the width. A pattern that is not
   * shorter than the width comes back whole. An empty pattern would loop
   * forever for a positive width, so it is excluded.
   */
  method ReplicateTillWidth(p: string, width: nat) returns (r: string)
    requires p != [] || width == 0
    ensures |p| >= width ==> r == p
    ensures |p| < width ==> |r| == width && forall i :: 0 <= i < width ==> r[i] == p[i % |p|]
    ensures r == TillWidth(p, width)
  {
    var pl := |p|;
    if pl == width {
      return p;
    }
    if pl > width {
      return p[0..pl];
    }
    var b := new StringBuilder();
    ghost var k: nat := 0;
    while |b.content| < width
      invariant |b.content| == k * pl
      invariant forall i :: 0 <= i < |b.content| ==> b.content[i] == p[i % pl]
      decreases width - |b.content|
    {
      ghost var before := b.content;
      var self := b.Append(p);
      forall i | |before| <= i < |b.content|
        ensures b.content[i] == p[i % pl]
      {
        ModInBlock(i, k, pl);
      }
      k := k + 1;
    }
    if |b.content| > width {
      var self := b.Delete(width, |b.content|);
    }
    r := b.content;
  }

  /** `rule?.replicateTillWidth(width)`: the drawn rule, or null when the grid has none. */
  method DrawRule(rule: Option<string>, width: nat) returns (line: Option<string>)
    requires Drawable(rule, width)
    ensures line == if rule.Some? then Some(TillWidth(rule.value, width)) else None
  {
    line := None;
    if rule.Some? {
      var drawn := ReplicateTillWidth(rule.value, width);
      line := Some(drawn);
    }
  }

  // ---------------------------------------------------------------------------
  // Cells and lines

  /** `n` spaces. */
  function Spaces(n: nat): (s: string)
    ensures |s| == n
    ensures forall i :: 0 <= i < n ==> s[i] == ' '
  {
    CharFun.Copies(' ', n)
  }

  /** `padEnd(width)` for LEFT and `padStart(width)` for RIGHT. */
  function Pad(h: string, width: nat, alignment: Align): string
  {
    if |h| >= width then h
    else if alignment == Left then h + Spaces(width - |h|)
    else Spaces(width - |h|) + h
  }

  /** Padding never cuts: it adds spaces on the side away from the alignment, up to `width`. */
  lemma PadShape(h: string, width: nat, alignment: Align)
    ensures var r := Pad(h, width, alignment);
            && |r| == (if |h| < width then width else |h|)
            && (alignment == Left ==> r[..|h|] == h && forall i :: |h| <= i < |r| ==> r[i] == ' ')
            && (alignment == Right ==> r[|r| - |h|..] == h && forall i :: 0 <= i < |r| - |h| ==> r[i] == ' ')
  {
  }

  /**
   * A data cell: the spaces of the alignment side, the text, the spaces of the
   * other side; the first `width` characters of a text that is too wide; and
   * `width` spaces for a null cell.
   */
  function Cell(x: Option<string>, width: nat, alignment: Align): string
  {
    if x.None? then Spaces(width)
    else
      var w := |x.value|;
      if w < width then
        (if alignment == Right then Spaces(width - w) else "") + x.value
        + (if alignment == Left then Spaces(width - w) else "")
      else if w == width then x.value
      else x.value[..width]
  }

  /**
   * Every cell is exactly as wide as its column: a null cell is all spaces, a
   * text that fits is padded as a title is, a longer one is cut.
   */
  lemma CellShape(x: Option<string>, width: nat, alignment: Align)
    ensures |Cell(x, width, alignment)| == width
    ensures x.None? ==> forall i :: 0 <= i < width ==> Cell(x, width, alignment)[i] == ' '
    ensures x.Some? && |x.value| <= width ==> Cell(x, width, alignment) == Pad(x.value, width, alignment)
    ensures x.Some? && |x.value| > width ==> Cell(x, width, alignment) == x.value[..width]
  {
  }

  /** The title shown in the header: a single space when there is none. */
  function HeaderText(title: Option<string>): string
  {
    if title.Some? then title.value else " "
  }

  /** The cells of the first `k` columns of a data row, with the gap between neighbours. */
  function RowBody<R>(cols: seq<Column<R>>, ws: seq<nat>, gap: string, row: R, k: nat): string
    requires k <= |cols| == |ws|
  {
    if k == 0 then ""
    else RowBody(cols, ws, gap, row, k - 1) + (if k > 1 then gap else "")
         + Cell(cols[k - 1].fetcher(row), ws[k - 1], cols[k - 1].alignment)
  }

  /** The titles of the first `k` columns, padded, with the gap between neighbours. */
  function HeaderBody<R>(cols: seq<Column<R>>, ws: seq<nat>, gap: string, k: nat): string
    requires k <= |cols| == |ws|
  {
    if k == 0 then ""
    else HeaderBody(cols, ws, gap, k - 1) + (if k > 1 then gap else "")
         + Pad(HeaderText(cols[k - 1].title), ws[k - 1], cols[k - 1].alignment)
  }

  /** `columns.any { it.title != null }`. */
  function HasHeader<R>(cols: seq<Column<R>>): (b: bool)
    ensures b <==> exists i :: 0 <= i < |cols| && cols[i].title.Some?
  {
    if cols == [] then false
    else cols[0].title.Some? || (assert forall i :: 0 <= i < |cols| - 1 ==> cols[1..][i] == cols[i + 1]; HasHeader(cols[1..]))
  }

  function IndentText(indent: Option<string>): string
  {
    if indent.Some? then indent.value else ""
  }

  /** The line of one data row, without its line feed. */
  function RowLine<R>(cols: seq<Column<R>>, ws: seq<nat>, grid: Grid, indent: Option<string>, row: R): string
    requires |cols| == |ws|
  {
    IndentText(indent) + grid.leftLine + RowBody(cols, ws, grid.cellGap, row, |cols|) + grid.rightLine
  }

  /** The lines of the data rows, in order. */
  function DataLines<R>(cols: seq<Column<R>>, ws: seq<nat>, grid: Grid, indent: Option<string>, rows: seq<R>): (ls: seq<string>)
    requires |cols| == |ws|
    ensures |ls| == |rows|
  {
    if rows == [] then []
    else DataLines(cols, ws, grid, indent, rows[..|rows| - 1]) + [RowLine(cols, ws, grid, indent, rows[|rows| - 1])]
  }

  /** The `k`-th data line is the line of the `k`-th row. */
  lemma {:induction false} DataLineAt<R>(cols: seq<Column<R>>, ws: seq<nat>, grid: Grid, indent: Option<string>,
                                         rows: seq<R>, k: nat)
    requires |cols| == |ws| && k < |rows|
    ensures DataLines(cols, ws, grid, indent, rows)[k] == RowLine(cols, ws, grid, indent, rows[k])
    decreases |rows|
  {
    if k < |rows| - 1 {
      var init := rows[..|rows| - 1];
      DataLineAt(cols, ws, grid, indent, init, k);
      assert init[k] == rows[k];
    }
  }

  /** A rule line, when the rule is present. */
  function RuleLines(rule: Option<string>, indent: Option<string>, width: nat): seq<string>
    requires Drawable(rule, width)
  {
    if rule.Some? then [IndentText(indent) + TillWidth(rule.value, width)] else []
  }

  /** The header line: the titles padded to their columns, between the side lines. */
  function HeaderLine<R>(cols: seq<Column<R>>, ws: seq<nat>, grid: Grid, indent: Option<string>): string
    requires |cols| == |ws|
  {
    IndentText(indent) + grid.leftLine + HeaderBody(cols, ws, grid.cellGap, |cols|) + grid.rightLine
  }

  /** The line under the header: the head rule, when there is one, after the indent. */
  function UnderLine(indent: Option<string>, headLine: Option<string>): string
  {
    IndentText(indent) + (if headLine.Some? then headLine.value else "")
  }

  /** The header and the line under it, when some column has a title. */
  function HeaderLines<R>(cols: seq<Column<R>>, ws: seq<nat>, grid: Grid, indent: Option<string>): seq<string>
    requires |cols| == |ws| > 0 && Drawable(grid.headLine, TableWidth(grid, ws))
  {
    if HasHeader(cols) then
      [HeaderLine(cols, ws, grid, indent),
       UnderLine(indent, if grid.headLine.Some? then Some(TillWidth(grid.headLine.value, TableWidth(grid, ws))) else None)]
    else []
  }

  ghost predicate AllDrawable(grid: Grid, width: nat)
  {
    Drawable(grid.topLine, width) && Drawable(grid.headLine, width) && Drawable(grid.bottomLine, width)
  }

  /** The lines of the whole table: top rule, header, rows, bottom rule. */
  function Layout<R>(cols: seq<Column<R>>, ws: seq<nat>, grid: Grid, indent: Option<string>, rows: seq<R>): seq<string>
    requires |cols| == |ws| > 0 && AllDrawable(grid, TableWidth(grid, ws))
  {
    var width := TableWidth(grid, ws);
    RuleLines(grid.topLine, indent, width) + HeaderLines(cols, ws, grid, indent)
    + DataLines(cols, ws, grid, indent, rows) + RuleLines(grid.bottomLine, indent, width)
  }

  /** Lines joined into one text, each followed by a line feed. */
  function Text(lines: seq<string>): string
  {
    if lines == [] then "" else Text(lines[..|lines| - 1]) + lines[|lines| - 1] + "\n"
  }

  lemma Assoc(a: string, b: string, c: string)
    ensures a + b + c == a + (b + c)
  {
  }

  lemma Regroup(a: string, b: string, c: string, d: string)
    ensures a + b + c + d == a + (b + c + d)
  {
  }

  lemma TextAppendLine(lines: seq<string>, line: string)
    ensures Text(lines + [line]) == Text(lines) + line + "\n"
  {
    assert (lines + [line])[..|lines|] == lines;
  }

  /** Joining two runs of lines is joining their texts. */
  lemma {:induction false} TextConcat(a: seq<string>, b: seq<string>)
    ensures Text(a + b) == Text(a) + Text(b)
    decreases |b|
  {
    if b == [] {
      assert a + b == a;
    } else {
      var init, last := b[..|b| - 1], b[|b| - 1];
      assert a + b == (a + init) + [last];
      TextAppendLine(a + init, last);
      TextConcat(a, init);
      Regroup(Text(a), Text(init), last, "\n");
    }
  }

  lemma TextOfOne(line: string)
    ensures Text([line]) == line + "\n"
  {
    assert [line][..0] == [];
  }

  lemma TextOfTwo(first: string, second: string)
    ensures Text([first, second]) == first + "\n" + second + "\n"
  {
    assert [first, second] == [first] + [second];
    TextAppendLine([first], second);
    TextOfOne(first);
  }

  lemma LineRegroup(a: string, i: string, l: string, m: string, r: string)
    ensures a + i + l + m + r + "\n" == a + (i + l + m + r + "\n")
  {
    Regroup(a, i, l, m);
    Regroup(a, i + l + m, r, "\n");
  }

  // ---------------------------------------------------------------------------
  // Properties of the layout

  lemma {:induction false} SumPrefix(ws: seq<nat>, k: nat)
    requires 0 < k <= |ws|
    ensures Sum(ws[..k]) == Sum(ws[..k - 1]) + ws[k - 1]
  {
    assert ws[..k][..k - 1] == ws[..k - 1];
  }

  /** A data row's cells and gaps take the columns' widths plus one gap between neighbours. */
  lemma {:induction false} RowBodyLength<R>(cols: seq<Column<R>>, ws: seq<nat>, gap: string, row: R, k: nat)
    requires 0 < k <= |cols| == |ws|
    ensures |RowBody(cols, ws, gap, row, k)| == Sum(ws[..k]) + (k - 1) * |gap|
  {
    SumPrefix(ws, k);
    CellShape(cols[k - 1].fetcher(row), ws[k - 1], cols[k - 1].alignment);
    if k > 1 {
      RowBodyLength(cols, ws, gap, row, k - 1);
      assert (k - 1) * |gap| == (k - 2) * |gap| + |gap|;
    } else {
      assert ws[..0] == [];
    }
  }

  /** Every data line is exactly as wide as the table, after the indent, whatever the fetchers return. */
  lemma RowLineWidth<R>(cols: seq<Column<R>>, ws: seq<nat>, grid: Grid, indent: Option<string>, row: R)
    requires |cols| == |ws| > 0
    ensures |RowLine(cols, ws, grid, indent, row)| == |IndentText(indent)| + TableWidth(grid, ws)
  {
    RowBodyLength(cols, ws, grid.cellGap, row, |cols|);
    assert ws[..|ws|] == ws;
  }

  /**
   * The header's titles and gaps take the columns' widths plus one gap between
   * neighbours, provided no header text is wider than its column.
   */
  lemma {:induction false} HeaderBodyLength<R>(cols: seq<Column<R>>, ws: seq<nat>, gap: string, k: nat)
    requires 0 < k <= |cols| == |ws|
    requires forall i :: 0 <= i < k ==> |HeaderText(cols[i].title)| <= ws[i]
    ensures |HeaderBody(cols, ws, gap, k)| == Sum(ws[..k]) + (k - 1) * |gap|
  {
    SumPrefix(ws, k);
    PadShape(HeaderText(cols[k - 1].title), ws[k - 1], cols[k - 1].alignment);
    if k > 1 {
      HeaderBodyLength(cols, ws, gap, k - 1);
      assert (k - 1) * |gap| == (k - 2) * |gap| + |gap|;
    } else {
      assert ws[..0] == [];
    }
  }

  /**
   * The header line is as wide as the table when every column is at least as
   * wide as its header text; a column with no title is 0 wide when none of its
   * cells has text, and its header cell, a single space, then sticks out.
   */
  lemma HeaderLineWidth<R>(cols: seq<Column<R>>, ws: seq<nat>, grid: Grid, indent: Option<string>)
    requires |cols| == |ws| > 0
    requires forall i :: 0 <= i < |cols| ==> |HeaderText(cols[i].title)| <= ws[i]
    ensures |HeaderLine(cols, ws, grid, indent)| == |IndentText(indent)| + TableWidth(grid, ws)
  {
    HeaderBodyLength(cols, ws, grid.cellGap, |cols|);
    assert ws[..|ws|] == ws;
  }

  /** The cells of the first `k` columns of a data row, each padded and none cut, when no cell is wider than its column. */
  lemma {:induction false} RowBodyPadded<R>(cols: seq<Column<R>>, ws: seq<nat>, gap: string, row: R, k: nat)
    requires k <= |cols| == |ws|
    requires forall i :: 0 <= i < k ==> CellWidth(cols[i].fetcher, row) <= ws[i]
    ensures RowBody(cols, ws, gap, row, k) == PaddedBody(cols, ws, gap, row, k)
  {
    if k > 0 {
      RowBodyPadded(cols, ws, gap, row, k - 1);
      CellShape(cols[k - 1].fetcher(row), ws[k - 1], cols[k - 1].alignment);
    }
  }

  /** A data row as it would be if every cell were only padded: the null cell as spaces, the others padded to the width. */
  function PaddedBody<R>(cols: seq<Column<R>>, ws: seq<nat>, gap: string, row: R, k: nat): string
    requires k <= |cols| == |ws|
  {
    if k == 0 then ""
    else
      var x := cols[k - 1].fetcher(row);
      PaddedBody(cols, ws, gap, row, k - 1) + (if k > 1 then gap else "")
      + Pad(if x.Some? then x.value else "", ws[k - 1], cols[k - 1].alignment)
  }

  /**
   * With the widths the table computes from its rows, no cell of those rows is
   * cut: every cell is its text padded to the column's width.
   */
  lemma NoCellIsCut<R>(cols: seq<Column<R>>, starts: seq<nat>, gap: string, rows: seq<R>, k: nat)
    requires |starts| == |cols| && k < |rows|
    ensures var ws := Widths(cols, starts, rows);
            RowBody(cols, ws, gap, rows[k], |cols|) == PaddedBody(cols, ws, gap, rows[k], |cols|)
  {
    RowBodyPadded(cols, Widths(cols, starts, rows), gap, rows[k], |cols|);
  }

  /** The width of every column: its start width widened to its widest cell. */
  function Widths<R>(cols: seq<Column<R>>, starts: seq<nat>, rows: seq<R>): (ws: seq<nat>)
    requires |starts| == |cols|
    ensures |ws| == |cols|
  {
    seq(|cols|, i requires 0 <= i < |cols| => ColumnWidth(starts[i], cols[i].fetcher, rows))
  }

  /**
   * How many lines a table has: one per row, one per rule present, and two
   * for the header when some column has a title. With the default grid and a
   * titled column that is the number of rows plus four.
   */
  lemma LineCount<R>(cols: seq<Column<R>>, ws: seq<nat>, grid: Grid, indent: Option<string>, rows: seq<R>)
    requires |cols| == |ws| > 0 && AllDrawable(grid, TableWidth(grid, ws))
    ensures |Layout(cols, ws, grid, indent, rows)|
            == |rows| + (if grid.topLine.Some? then 1 else 0) + (if HasHeader(cols) then 2 else 0)
               + (if grid.bottomLine.Some? then 1 else 0)
    ensures grid == DefaultGrid() && HasHeader(cols) ==> |Layout(cols, ws, grid, indent, rows)| == |rows| + 4
  {
  }

  /** Every line starts with the indent. */
  ghost predicate Indented(lines: seq<string>, ind: string)
  {
    forall n :: 0 <= n < |lines| ==> |ind| <= |lines[n]| && lines[n][..|ind|] == ind
  }

  lemma IndentedConcat(a: seq<string>, b: seq<string>, ind: string)
    requires Indented(a, ind) && Indented(b, ind)
    ensures Indented(a + b, ind)
  {
    forall n | 0 <= n < |a + b|
      ensures |ind| <= |(a + b)[n]| && (a + b)[n][..|ind|] == ind
    {
      if n >= |a| {
        assert (a + b)[n] == b[n - |a|];
      }
    }
  }

  lemma StartsWith(ind: string, rest: string)
    ensures (ind + rest)[..|ind|] == ind
  {
  }

  /**
   * Every line of the table, the rules, the header, the line under it and the
   * rows, begins with the table's indent.
   */
  lemma EveryLineIndented<R>(cols: seq<Column<R>>, ws: seq<nat>, grid: Grid, indent: Option<string>, rows: seq<R>)
    requires |cols| == |ws| > 0 && AllDrawable(grid, TableWidth(grid, ws))
    ensures Indented(Layout(cols, ws, grid, indent, rows), IndentText(indent))
  {
    var ind := IndentText(indent);
    var width := TableWidth(grid, ws);
    var top := RuleLines(grid.topLine, indent, width);
    var head := HeaderLines(cols, ws, grid, indent);
    var data := DataLines(cols, ws, grid, indent, rows);
    var bottom := RuleLines(grid.bottomLine, indent, width);
    RuleIndented(grid.topLine, indent, width);
    RuleIndented(grid.bottomLine, indent, width);
    if HasHeader(cols) {
      var h := HeaderLine(cols, ws, grid, indent);
      var u := UnderLine(indent, if grid.headLine.Some? then Some(TillWidth(grid.headLine.value, width)) else None);
      Regroup(ind, grid.leftLine, HeaderBody(cols, ws, grid.cellGap, |cols|), grid.rightLine);
      StartsWith(ind, grid.leftLine + HeaderBody(cols, ws, grid.cellGap, |cols|) + grid.rightLine);
      StartsWith(ind, if grid.headLine.Some? then TillWidth(grid.headLine.value, width) else "");
      assert head == [h, u];
    }
    DataIndented(cols, ws, grid, indent, rows);
    IndentedConcat(top, head, ind);
    IndentedConcat(top + head, data, ind);
    IndentedConcat(top + head + data, bottom, ind);
  }

  lemma RuleIndented(rule: Option<string>, indent: Option<string>, width: nat)
    requires Drawable(rule, width)
    ensures Indented(RuleLines(rule, indent, width), IndentText(indent))
  {
    if rule.Some? {
      StartsWith(IndentText(indent), TillWidth(rule.value, width));
    }
  }

  lemma {:induction false} DataIndented<R>(cols: seq<Column<R>>, ws: seq<nat>, grid: Grid, indent: Option<string>, rows: seq<R>)
    requires |cols| == |ws|
    ensures Indented(DataLines(cols, ws, grid, indent, rows), IndentText(indent))
    decreases |rows|
  {
    if rows != [] {
      var ind := IndentText(indent);
      var last := rows[|rows| - 1];
      DataIndented(cols, ws, grid, indent, rows[..|rows| - 1]);
      Regroup(ind, grid.leftLine, RowBody(cols, ws, grid.cellGap, last, |cols|), grid.rightLine);
      StartsWith(ind, grid.leftLine + RowBody(cols, ws, grid.cellGap, last, |cols|) + grid.rightLine);
      IndentedConcat(DataLines(cols, ws, grid, indent, rows[..|rows| - 1]),
                     [RowLine(cols, ws, grid, indent, last)], ind);
    }
  }

  /** The top, head and bottom rules span the table: exactly its width, unless the pattern alone is wider. */
  lemma RulesSpanTable(rule: string, indent: Option<string>, width: nat)
    requires rule != []
    ensures var line := RuleLines(Some(rule), indent, width)[0];
            |line| == |IndentText(indent)| + (if |rule| < width then width else |rule|)
    ensures |UnderLine(indent, Some(TillWidth(rule, width)))| == |IndentText(indent)| + (if |rule| < width then width else |rule|)
  {
  }

  // ---------------------------------------------------------------------------
  // The table

  /**
   * One row's pass over the column widths: a column whose cell is wider than
   * its current width takes the cell's width.
   */
  method WidenByRow<R>(cols: seq<Column<R>>, widths: array<nat>, row: R)
    requires widths.Length == |cols|
    modifies widths
    ensures forall j :: 0 <= j < |cols| ==> widths[j] == Max(old(widths[j]), CellWidth(cols[j].fetcher, row))
  {
    for i := 0 to |cols|
      invariant forall j :: 0 <= j < i ==> widths[j] == Max(old(widths[j]), CellWidth(cols[j].fetcher, row))
      invariant forall j :: i <= j < |cols| ==> widths[j] == old(widths[j])
    {
      var cellStr := cols[i].fetcher(row);
      if cellStr.Some? {
        var w := |cellStr.value|;
        if widths[i] < w {
          widths[i] := w;
        }
      }
    }
  }

  /**
   * One data cell: padding taken from `spaces` on the side away from the
   * alignment, the text itself, or the first `width` characters of a text
   * that is too wide; `width` spaces for a null cell.
   */
  method AppendCell(b: StringBuilder, x: Option<string>, width: nat, alignment: Align, spaces: string)
    requires width <= |spaces|
    requires forall i :: 0 <= i < |spaces| ==> spaces[i] == ' '
    modifies b
    ensures b.content == old(b.content) + Cell(x, width, alignment)
  {
    var self;
    if x.Some? {
      var w := |x.value|;
      if w < width {
        assert spaces[w..width] == Spaces(width - w);
        self := AppendRangeIf(b, alignment == Right, spaces, w, width);
        self := b.Append(x.value);
        self := AppendRangeIf(b, alignment == Left, spaces, w, width);
      } else if w == width {
        self := b.Append(x.value);
      } else {
        self := b.AppendRange(x.value, 0, width);
      }
    } else {
      assert spaces[0..width] == Spaces(width);
      self := b.AppendRange(spaces, 0, width);
    }
  }

  class TextTable<R> {
    const columns: seq<Column<R>>
    var grid: Grid
    var tableIndent: Option<string>

    constructor (columns: seq<Column<R>>)
      ensures this.columns == columns && grid == DefaultGrid() && tableIndent == None
    {
      this.columns := columns;
      grid := DefaultGrid();
      tableIndent := None;
    }

    /** `indent()`: the table indent, when there is one. */
    method Indent(b: StringBuilder) returns (self: StringBuilder)
      modifies b
      ensures self == b && b.content == old(b.content) + IndentText(tableIndent)
    {
      self := AppendIfNotNull(b, tableIndent);
    }

    /**
     * The first loop of `processContent`: each column starts at its own
     * width and widens to every non-null cell of every row.
     */
    method ComputeWidths(content: seq<R>) returns (ws: seq<nat>, rowCnt: nat)
      ensures |ws| == |columns| && rowCnt == |content|
      ensures forall i :: 0 <= i < |columns| ==> ws[i] == ColumnWidth(columns[i].width, columns[i].fetcher, content)
    {
      var columnWidths := new nat[|columns|];
      for i := 0 to |columns|
        invariant forall j :: 0 <= j < i ==> columnWidths[j] == columns[j].width
      {
        columnWidths[i] := columns[i].width;
      }
      rowCnt := 0;
      for k := 0 to |content|
        invariant rowCnt == k
        invariant forall j :: 0 <= j < |columns| ==>
                    columnWidths[j] == ColumnWidth(columns[j].width, columns[j].fetcher, content[..k])
      {
        var row := content[k];
        rowCnt := rowCnt + 1;
        assert content[..k + 1][..k] == content[..k];
        WidenByRow(columns, columnWidths, row);
      }
      assert content[..|content|] == content;
      ws := columnWidths[..];
    }

    /**
     * The header of `processContent`: the titles padded to their columns, then
     * the line under them (`headLine`, or nothing when the grid has none).
     */
    method AppendHeader(b: StringBuilder, ws: seq<nat>, headLine: Option<string>)
      requires |ws| == |columns|
      modifies b
      ensures b.content == old(b.content) + Text([HeaderLine(columns, ws, grid, tableIndent),
                                                  UnderLine(tableIndent, headLine)])
    {
      ghost var header := HeaderLine(columns, ws, grid, tableIndent);
      ghost var under := UnderLine(tableIndent, headLine);
      AppendTitles(b, ws);
      AppendUnderLine(b, headLine);
      Assoc(old(b.content), Text([header]), Text([under]));
      assert Text([header]) + Text([under]) == Text([header, under]) by {
        TextConcat([header], [under]);
        assert [header] + [under] == [header, under];
      }
    }

    /** The header line of `processContent`: the titles, each padded to its column. */
    method AppendTitles(b: StringBuilder, ws: seq<nat>)
      requires |ws| == |columns|
      modifies b
      ensures b.content == old(b.content) + Text([HeaderLine(columns, ws, grid, tableIndent)])
    {
      var self := Indent(b);
      self := b.Append(grid.leftLine);
      ghost var start := b.content;
      for i := 0 to |columns|
        invariant b.content == start + HeaderBody(columns, ws, grid.cellGap, i)
      {
        var width := ws[i];
        ghost var gap := if i > 0 then grid.cellGap else "";
        if i > 0 {
          self := AppendIfNotNull(b, Some(grid.cellGap));
        }
        var h := HeaderText(columns[i].title);
        var hp := Pad(h, width, columns[i].alignment);
        self := b.Append(hp);
        Regroup(start, HeaderBody(columns, ws, grid.cellGap, i), gap, hp);
      }
      self := b.Append(grid.rightLine);
      self := b.AppendLine();
      LineRegroup(old(b.content), IndentText(tableIndent), grid.leftLine,
                  HeaderBody(columns, ws, grid.cellGap, |columns|), grid.rightLine);
      TextOfOne(HeaderLine(columns, ws, grid, tableIndent));
    }

    /** The line under the header: the indent, the head rule when there is one, a line feed. */
    method AppendUnderLine(b: StringBuilder, headLine: Option<string>)
      modifies b
      ensures b.content == old(b.content) + Text([UnderLine(tableIndent, headLine)])
    {
      var self := Indent(b);
      self := AppendIfNotNull(b, headLine);
      self := b.AppendLine();
      Regroup(old(b.content), IndentText(tableIndent), if headLine.Some? then headLine.value else "", "\n");
      TextOfOne(UnderLine(tableIndent, headLine));
    }

    /** One data row of `processContent`, with its line feed. `spaces` is at least as long as any column. */
    method AppendRow(b: StringBuilder, ws: seq<nat>, spaces: string, row: R)
      requires |ws| == |columns|
      requires forall i :: 0 <= i < |ws| ==> ws[i] <= |spaces|
      requires forall i :: 0 <= i < |spaces| ==> spaces[i] == ' '
      modifies b
      ensures b.content == old(b.content) + Text([RowLine(columns, ws, grid, tableIndent, row)])
    {
      var self := Indent(b);
      self := b.Append(grid.leftLine);
      ghost var start := b.content;
      for i := 0 to |columns|
        invariant b.content == start + RowBody(columns, ws, grid.cellGap, row, i)
      {
        ghost var gap := if i > 0 then grid.cellGap else "";
        if i > 0 {
          self := AppendIfNotNull(b, Some(grid.cellGap));
        }
        var width := ws[i];
        var x := columns[i].fetcher(row);
        AppendCell(b, x, width, columns[i].alignment, spaces);
        Regroup(start, RowBody(columns, ws, grid.cellGap, row, i), gap, Cell(x, width, columns[i].alignment));
      }
      self := b.Append(grid.rightLine);
      self := b.AppendLine();
      LineRegroup(old(b.content), IndentText(tableIndent), grid.leftLine,
                  RowBody(columns, ws, grid.cellGap, row, |columns|), grid.rightLine);
      TextOfOne(RowLine(columns, ws, grid, tableIndent, row));
    }

    /** The second loop of `processContent`: one line per row, in order. */
    method AppendRows(b: StringBuilder, ws: seq<nat>, spaces: string, rows: seq<R>)
      requires |ws| == |columns|
      requires forall i :: 0 <= i < |ws| ==> ws[i] <= |spaces|
      requires forall i :: 0 <= i < |spaces| ==> spaces[i] == ' '
      modifies b
      ensures b.content == old(b.content) + Text(DataLines(columns, ws, grid, tableIndent, rows))
    {
      for k := 0 to |rows|
        invariant b.content == old(b.content) + Text(DataLines(columns, ws, grid, tableIndent, rows[..k]))
      {
        ghost var done := DataLines(columns, ws, grid, tableIndent, rows[..k]);
        ghost var line := RowLine(columns, ws, grid, tableIndent, rows[k]);
        AppendRow(b, ws, spaces, rows[k]);
        assert DataLines(columns, ws, grid, tableIndent, rows[..k + 1]) == done + [line] by {
          assert rows[..k + 1][..k] == rows[..k];
        }
        assert Text(done + [line]) == Text(done) + Text([line]) by {
          TextConcat(done, [line]);
        }
        Assoc(old(b.content), Text(done), Text([line]));
      }
      assert rows[..|rows|] == rows;
    }

    /** A rule line, when the rule is present: the indent, the rule, a line feed. */
    method AppendRule(b: StringBuilder, rule: Option<string>)
      modifies b
      ensures b.content == old(b.content) + Text(if rule.Some? then [IndentText(tableIndent) + rule.value] else [])
    {
      if rule.Some? {
        var self := Indent(b);
        self := b.Append(rule.value);
        self := b.AppendLine();
        Regroup(old(b.content), IndentText(tableIndent), rule.value, "\n");
        TextOfOne(IndentText(tableIndent) + rule.value);
      }
    }

    /**
     * `processContent`: computes the column widths from the rows, then writes
     * the top rule, the header and the line under it, one line per row and
     * the bottom rule, each line indented and ended by a line feed.
     */
    method ProcessContent(content: seq<R>) returns (r: string)
      requires |columns| > 0
      requires AllDrawable(grid, TableWidth(grid, Widths(columns, StartWidths(columns), content)))
      ensures r == Text(Layout(columns, Widths(columns, StartWidths(columns), content), grid, tableIndent, content))
    {
      ghost var starts := StartWidths(columns);
      var columnWidths, rowCnt := ComputeWidths(content);
      assert columnWidths == Widths(columns, starts, content);
      r := Draw(columnWidths, content);
    }

    /**
     * The second half of `processContent`: from the column widths, the sizes,
     * the rule lines and the spaces, then the text itself.
     */
    method Draw(ws: seq<nat>, content: seq<R>) returns (r: string)
      requires |ws| == |columns| > 0
      requires AllDrawable(grid, TableWidth(grid, ws))
      ensures r == Text(Layout(columns, ws, grid, tableIndent, content))
    {
      var columnWidthSum := Sum(ws);
      var longestCellWidth := Longest(ws);
      var tableWidth := columnWidthSum + (|columns| - 1) * |grid.cellGap| + |grid.leftLine| + |grid.rightLine|;
      var hasHeader := HasHeader(columns);
      assert tableWidth == TableWidth(grid, ws);

      var topLine := DrawRule(grid.topLine, tableWidth);
      var headLine := DrawRule(grid.headLine, tableWidth);
      var bottomLine := DrawRule(grid.bottomLine, tableWidth);

      var spaces := CharFun.Replicate(' ', longestCellWidth);

      var b := new StringBuilder();
      ghost var top := RuleLines(grid.topLine, tableIndent, tableWidth);
      ghost var head := HeaderLines(columns, ws, grid, tableIndent);
      ghost var data := DataLines(columns, ws, grid, tableIndent, content);
      ghost var bottom := RuleLines(grid.bottomLine, tableIndent, tableWidth);
      AppendRule(b, topLine);
      ghost var afterTop := b.content;
      if hasHeader {
        AppendHeader(b, ws, headLine);
        assert head == [HeaderLine(columns, ws, grid, tableIndent), UnderLine(tableIndent, headLine)];
      } else {
        assert head == [];
      }
      ghost var afterHead := b.content;
      AppendRows(b, ws, spaces, content);
      ghost var afterRows := b.content;
      AppendRule(b, bottomLine);
      assert afterTop == Text(top);
      assert afterHead == afterTop + Text(head);
      assert afterRows == afterHead + Text(data);
      assert b.content == afterRows + Text(bottom);
      assert Text(top) + Text(head) + Text(data) + Text(bottom) == Text(top + head + data + bottom) by {
        TextConcat(top, head);
        TextConcat(top + head, data);
        TextConcat(top + head + data, bottom);
      }
      r := b.content;
    }
  }
}
