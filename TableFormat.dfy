/** The ASCII table formatter of `executeSPARQLQuery`
    (CineColombiaManager.java): the query's variables and solutions in, the
    printed lines out.

    A solution row gives, per variable position, the already converted text
    of the bound node, or `None` when the variable is unbound. */
module TableFormat {
  import opened Wrappers
  import opened Text
  import Numeric
  import Labels

  /** `MAX_COL_WIDTH`. */
  const MaxColWidth: nat := 40
  const Ellipsis: string := "..."
  /** The line printed instead of a table when there are no solutions. */
  const NoResults: string := "(sin resultados)"

  // ---------------------------------------------------------------------
  // The display table and the column widths

  /** The text of variable `i` in a solution: "" when unbound (a position
      past the end of the row is unbound too). */
  function CellValue(row: seq<Option<string>>, i: nat): string {
    if i < |row| && row[i].Some? then row[i].value else ""
  }

  /** The display form of a cell: a value longer than the maximum becomes
      its first 37 characters and "...", anything else is kept. */
  function Truncate(val: string): (d: string)
    ensures |d| <= MaxColWidth
    ensures |val| <= MaxColWidth ==> d == val
    ensures |val| > MaxColWidth ==>
      |d| == MaxColWidth && d[..MaxColWidth - 3] == val[..MaxColWidth - 3] &&
      d[MaxColWidth - 3..] == Ellipsis
  {
    if |val| > MaxColWidth then val[..MaxColWidth - 3] + Ellipsis else val
  }

  /** The display cell of variable `i`: "" when unbound, else the value
      truncated. */
  function DisplayCell(row: seq<Option<string>>, i: nat): (d: string)
    ensures |d| <= MaxColWidth
    ensures (i >= |row| || row[i].None?) ==> d == ""
    ensures i < |row| && row[i].Some? ==> d == Truncate(row[i].value)
  {
    Truncate(CellValue(row, i))
  }

  /** `displayRow`: one display cell per variable. */
  function DisplayRow(cols: nat, row: seq<Option<string>>): (r: seq<string>)
    ensures |r| == cols
  {
    seq(cols, i requires 0 <= i < cols => DisplayCell(row, i))
  }

  /** `displayTable`: one display row per solution. */
  function DisplayTable(cols: nat, rows: seq<seq<Option<string>>>): (t: seq<seq<string>>)
    ensures |t| == |rows|
    ensures forall r :: 0 <= r < |t| ==> |t[r]| == cols
  {
    seq(|rows|, r requires 0 <= r < |rows| => DisplayRow(cols, rows[r]))
  }

  /** The width of column `i` once the first `k` solutions are processed:
      the header length capped at the maximum, raised to each display
      cell's length in turn (`Math.max`). */
  function WidthAfter(vars: seq<string>, rows: seq<seq<Option<string>>>, k: nat, i: nat): nat
    requires k <= |rows| && i < |vars|
  {
    if k == 0 then Min(|vars[i]|, MaxColWidth)
    else Max(WidthAfter(vars, rows, k - 1, i), |DisplayCell(rows[k - 1], i)|)
  }

  /** The final `widths` array. */
  function Widths(vars: seq<string>, rows: seq<seq<Option<string>>>): (ws: seq<nat>)
    ensures |ws| == |vars|
  {
    seq(|vars|, i requires 0 <= i < |vars| => WidthAfter(vars, rows, |rows|, i))
  }

  // ---------------------------------------------------------------------
  // The lines

  /** The separator `sep`: "+", then per column `w + 2` dashes and "+". */
  function Separator(ws: seq<nat>): string {
    if ws == [] then "+"
    else Separator(ws[..|ws| - 1]) + Repeat('-', ws[|ws| - 1] + 2) + "+"
  }

  /** A bordered line: "|", then per cell a space, the cell, a space and
      "|". */
  function Framed(cells: seq<string>): string {
    if cells == [] then "|"
    else Framed(cells[..|cells| - 1]) + " " + cells[|cells| - 1] + " |"
  }

  /** The header cells: each variable's nice label, centered in its
      column. */
  function HeaderCells(vars: seq<string>, ws: seq<nat>): (r: seq<string>)
    requires |ws| == |vars|
    ensures |r| == |vars|
  {
    seq(|vars|, i requires 0 <= i < |vars| => Center(Labels.NiceLabel(vars[i]), ws[i]))
  }

  /** The cells of a data line: each display cell formatted in its column,
      right-aligned when it is numeric. */
  function RowCells(cells: seq<string>, ws: seq<nat>): (r: seq<string>)
    requires |ws| == |cells|
    ensures |r| == |cells|
  {
    seq(|cells|, i requires 0 <= i < |cells| =>
      FormatCell(cells[i], ws[i], Numeric.IsNumeric(cells[i])))
  }

  /** The lines the formatter prints, in order. */
  function RenderSpec(vars: seq<string>, rows: seq<seq<Option<string>>>): seq<string> {
    if rows == [] then [NoResults]
    else
      var ws := Widths(vars, rows);
      var sep := Separator(ws);
      TableLines(sep, Framed(HeaderCells(vars, ws)), DataLines(DisplayTable(|vars|, rows), ws))
  }

  /** The layout of a non-empty result: separator, header, separator, the
      data lines, separator. */
  function TableLines(sep: string, header: string, data: seq<string>): (r: seq<string>)
    ensures |r| == |data| + 4
    ensures r[0] == sep && r[1] == header && r[2] == sep && r[|data| + 3] == sep
    ensures forall t :: 0 <= t < |data| ==> r[3 + t] == data[t]
  {
    [sep, header, sep] + data + [sep]
  }

  /** One data line per row of the display table, in order. */
  function DataLines(table: seq<seq<string>>, ws: seq<nat>): (r: seq<string>)
    requires forall t :: 0 <= t < |table| ==> |table[t]| == |ws|
    ensures |r| == |table|
  {
    seq(|table|, t requires 0 <= t < |table| => Framed(RowCells(table[t], ws)))
  }

  // ---------------------------------------------------------------------
  // The formatter as the source runs it

  lemma PrefixSnoc<T>(s: seq<T>, r: nat)
    requires r < |s|
    ensures s[..r + 1] == s[..r] + [s[r]]
  {
  }

  /** The formatting part of `executeSPARQLQuery`: the lines it prints for
      the variables `vars` and the solutions `rows`. */
  method Render(vars: seq<string>, rows: seq<seq<Option<string>>>) returns (lines: seq<string>)
    ensures lines == RenderSpec(vars, rows)
    ensures rows == [] ==> lines == [NoResults]
  {
    if |rows| == 0 {
      lines := [NoResults];
      return;
    }
    var widths, displayTable := FillWidths(vars, rows);
    ghost var ws := Widths(vars, rows);
    var sep := SeparatorOf(widths, ws);
    var header := HeaderOf(vars, widths, ws);

    ghost var data := DataLines(displayTable, ws);
    lines := [sep, header, sep];
    for r := 0 to |displayTable|
      invariant widths[..] == ws
      invariant lines == [sep, header, sep] + data[..r]
    {
      var rb := RowLineOf(displayTable[r], widths, ws);
      assert data[r] == rb;
      PrefixSnoc(data, r);
      lines := lines + [rb];
    }
    assert data[..|displayTable|] == data;
    lines := lines + [sep];
  }

  /** The first pass: the `widths` array, started at the capped header
      lengths, and the display table, widening each column to its display
      cells as it goes. */
  method FillWidths(vars: seq<string>, rows: seq<seq<Option<string>>>)
    returns (widths: array<int>, displayTable: seq<seq<string>>)
    ensures fresh(widths)
    ensures widths[..] == Widths(vars, rows)
    ensures displayTable == DisplayTable(|vars|, rows)
  {
    var cols := |vars|;
    widths := new int[cols];
    for i := 0 to cols
      invariant forall j :: 0 <= j < i ==> widths[j] == WidthAfter(vars, rows, 0, j)
    {
      widths[i] := Min(|vars[i]|, MaxColWidth);
    }
    displayTable := [];
    for k := 0 to |rows|
      invariant |displayTable| == k
      invariant forall r :: 0 <= r < k ==> displayTable[r] == DisplayRow(cols, rows[r])
      invariant forall j :: 0 <= j < cols ==> widths[j] == WidthAfter(vars, rows, k, j)
    {
      var displayRow := FillRow(rows[k], widths);
      displayTable := displayTable + [displayRow];
    }
    assert displayTable == DisplayTable(cols, rows);
  }

  /** One turn of the first pass: the display row of the solution `qs`,
      each column widened (`Math.max`) to its new cell. */
  method FillRow(qs: seq<Option<string>>, widths: array<int>) returns (displayRow: seq<string>)
    modifies widths
    ensures displayRow == DisplayRow(widths.Length, qs)
    ensures forall j :: 0 <= j < widths.Length ==> widths[j] == Max(old(widths[j]), |displayRow[j]|)
  {
    displayRow := [];
    for i := 0 to widths.Length
      invariant |displayRow| == i
      invariant forall j :: 0 <= j < i ==> displayRow[j] == DisplayCell(qs, j)
      invariant forall j :: 0 <= j < i ==> widths[j] == Max(old(widths[j]), |displayRow[j]|)
      invariant forall j :: i <= j < widths.Length ==> widths[j] == old(widths[j])
    {
      var val := "";
      if i < |qs| && qs[i].Some? {
        val := qs[i].value;
      }
      var display := val;
      if |display| > MaxColWidth {
        display := display[..MaxColWidth - 3] + Ellipsis;
      }
      displayRow := displayRow + [display];
      widths[i] := Max(widths[i], |display|);
    }
  }

  /** Building `sep` with a `StringBuilder`. */
  method SeparatorOf(widths: array<int>, ghost ws: seq<nat>) returns (sep: string)
    requires widths[..] == ws
    ensures sep == Separator(ws)
  {
    sep := "+";
    for i := 0 to widths.Length
      invariant sep == Separator(ws[..i])
    {
      assert ws[..i + 1][..i] == ws[..i];
      sep := sep + Repeat('-', widths[i] + 2);
      sep := sep + "+";
    }
    assert ws[..widths.Length] == ws;
  }

  /** Building `header` with a `StringBuilder`. */
  method HeaderOf(vars: seq<string>, widths: array<int>, ghost ws: seq<nat>) returns (header: string)
    requires widths[..] == ws && |vars| == |ws|
    ensures header == Framed(HeaderCells(vars, ws))
  {
    ghost var cells := HeaderCells(vars, ws);
    header := "|";
    for i := 0 to |vars|
      invariant header == Framed(cells[..i])
    {
      assert cells[..i + 1][..i] == cells[..i];
      var niceLabel := Labels.NiceLabel(vars[i]);
      header := header + " " + Center(niceLabel, widths[i]) + " " + "|";
    }
    assert cells[..|vars|] == cells;
  }

  /** Building one data line `rb` with a `StringBuilder`. */
  method RowLineOf(row: seq<string>, widths: array<int>, ghost ws: seq<nat>) returns (rb: string)
    requires widths[..] == ws && |row| == |ws|
    ensures rb == Framed(RowCells(row, ws))
  {
    ghost var cells := RowCells(row, ws);
    rb := "|";
    for i := 0 to |row|
      invariant rb == Framed(cells[..i])
    {
      assert cells[..i + 1][..i] == cells[..i];
      var cell := row[i];
      var rightAlign := Numeric.IsNumeric(cell);
      rb := rb + " " + FormatCell(cell, widths[i], rightAlign) + " " + "|";
    }
    assert cells[..|row|] == cells;
  }
}
