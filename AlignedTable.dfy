/** The table the formatter's comments and names describe: cells and
    headers padded with spaces to the column width, numeric cells
    right-aligned, headers centered. The source pads with
    `"".repeat(n)`, which is always empty (Text), so the lines it prints
    are not aligned; this module states the layout that `" ".repeat(n)`
    would give and proves that then every line has the same length. */
module AlignedTable {
  import opened Wrappers
  import opened Text
  import opened TableFormat
  import opened TableLaws
  import Numeric
  import Labels

  /** `" ".repeat(n)`. */
  function Spaces(n: nat): (r: string)
    ensures |r| == n
    ensures forall k :: 0 <= k < n ==> r[k] == ' '
  {
    var r := RepeatStr(" ", n);
    assert forall k :: 0 <= k < n ==> r[k] in " ";
    r
  }

  /** `center` with space padding: a short label sits in the middle of a
      field exactly `width` wide, the odd space of padding going right. */
  function CenterPadded(s: string, width: nat): (r: string)
    ensures |r| == width
    ensures |s| >= width ==> r == s[..width]
    ensures |s| < width ==>
      var left := (width - |s|) / 2;
      r[left..left + |s|] == s &&
      (forall k :: 0 <= k < left ==> r[k] == ' ') &&
      (forall k :: left + |s| <= k < width ==> r[k] == ' ') &&
      left <= width - |s| - left <= left + 1
  {
    if |s| >= width then s[..width]
    else
      var totalPad := width - |s|;
      var left := totalPad / 2;
      var right := totalPad - left;
      var r := Spaces(left) + s + Spaces(right);
      assert r[left..left + |s|] == s;
      r
  }

  /** `formatCell` with space padding: a cell exactly `width` wide, the
      text flush right when `rightAlign` holds and flush left otherwise. */
  function FormatCellPadded(s: string, width: nat, rightAlign: bool): (r: string)
    ensures |r| == width
    ensures |s| > width ==> r == s[..width]
    ensures |s| <= width && rightAlign ==>
      r[width - |s|..] == s && forall k :: 0 <= k < width - |s| ==> r[k] == ' '
    ensures |s| <= width && !rightAlign ==>
      r[..|s|] == s && forall k :: |s| <= k < width ==> r[k] == ' '
  {
    var cut := if |s| > width then s[..width] else s;
    var pad := width - |cut|;
    if pad <= 0 then cut
    else if rightAlign then
      var r := Spaces(pad) + cut;
      assert r[pad..] == cut;
      r
    else
      var r := cut + Spaces(pad);
      assert r[..|cut|] == cut;
      r
  }

  function AlignedHeaderCells(vars: seq<string>, ws: seq<nat>): (r: seq<string>)
    requires |ws| == |vars|
    ensures Lengths(r) == ws
  {
    var r := seq(|vars|, i requires 0 <= i < |vars| => CenterPadded(Labels.NiceLabel(vars[i]), ws[i]));
    assert Lengths(r) == ws;
    r
  }

  function AlignedRowCells(cells: seq<string>, ws: seq<nat>): (r: seq<string>)
    requires |ws| == |cells|
    ensures Lengths(r) == ws
  {
    var r := seq(|cells|, i requires 0 <= i < |cells| =>
      FormatCellPadded(cells[i], ws[i], Numeric.IsNumeric(cells[i])));
    assert Lengths(r) == ws;
    r
  }

  function AlignedDataLines(table: seq<seq<string>>, ws: seq<nat>): (r: seq<string>)
    requires forall t :: 0 <= t < |table| ==> |table[t]| == |ws|
    ensures |r| == |table|
  {
    seq(|table|, t requires 0 <= t < |table| => Framed(AlignedRowCells(table[t], ws)))
  }

  /** The formatter with space padding: the same widths, separator and
      layout as RenderSpec, with padded header and data cells. */
  function AlignedRender(vars: seq<string>, rows: seq<seq<Option<string>>>): seq<string> {
    if rows == [] then [NoResults]
    else
      var ws := Widths(vars, rows);
      var sep := Separator(ws);
      TableLines(sep, Framed(AlignedHeaderCells(vars, ws)),
                 AlignedDataLines(DisplayTable(|vars|, rows), ws))
  }

  /** With space padding every line of a table, separators, header and data
      lines alike, is `1 + Σ (w_i + 3)` characters long. */
  lemma AlignedLinesSameLength(vars: seq<string>, rows: seq<seq<Option<string>>>)
    requires rows != []
    ensures |AlignedRender(vars, rows)| == |rows| + 4
    ensures forall l :: 0 <= l < |AlignedRender(vars, rows)| ==>
      |AlignedRender(vars, rows)[l]| == LineWidth(Widths(vars, rows))
  {
    var ws := Widths(vars, rows);
    var table := DisplayTable(|vars|, rows);
    var data := AlignedDataLines(table, ws);
    var header := Framed(AlignedHeaderCells(vars, ws));
    SeparatorShape(ws);
    FramedShape(AlignedHeaderCells(vars, ws));
    forall t | 0 <= t < |data| ensures |data[t]| == LineWidth(ws) {
      FramedShape(AlignedRowCells(table[t], ws));
    }
    TableLinesWidth(Separator(ws), header, data, LineWidth(ws));
  }

  /** As written, the formatter does not align: for one column `titulo`
      and one solution binding it to "x", the separator is 10 characters
      long and the data line `| x |` only 5. */
  lemma WrittenLinesDiffer()
    ensures |RenderSpec(["titulo"], [[Some("x")]])[0]| == 10
    ensures |RenderSpec(["titulo"], [[Some("x")]])[3]| == 5
  {
    var vars, rows := ["titulo"], [[Some("x")]];
    RenderLineLengths(vars, rows);
    assert WidthAfter(vars, rows, 1, 0) == 6;
    assert Widths(vars, rows) == [6];
    assert LineWidth([6]) == 10 by { assert [6][..0] == []; }
    assert DisplayTable(1, rows)[0] == ["x"];
    assert Lengths(["x"]) == [1];
    assert LineWidth([1]) == 5 by { assert [1][..0] == []; }
  }

  /** With space padding the same input gives lines of equal length. */
  lemma AlignedLinesAgree()
    ensures |AlignedRender(["titulo"], [[Some("x")]])[0]| == 10
    ensures |AlignedRender(["titulo"], [[Some("x")]])[3]| == 10
  {
    var vars, rows := ["titulo"], [[Some("x")]];
    AlignedLinesSameLength(vars, rows);
    assert WidthAfter(vars, rows, 1, 0) == 6;
    assert Widths(vars, rows) == [6];
    assert LineWidth([6]) == 10 by { assert [6][..0] == []; }
  }
}
