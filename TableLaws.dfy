/** What the formatter's output is, proved about the functions that
    specify it (TableFormat). */
module TableLaws {
  import opened Wrappers
  import opened Text
  import opened TableFormat
  import Labels

  /** `1 + Σ (w + 3)`: the length of a line with one column per entry of
      `ws`, each `w` characters of content wide. */
  function LineWidth(ws: seq<nat>): nat {
    if ws == [] then 1 else LineWidth(ws[..|ws| - 1]) + ws[|ws| - 1] + 3
  }

  function Lengths(cells: seq<string>): (ls: seq<nat>)
    ensures |ls| == |cells|
    ensures forall i :: 0 <= i < |cells| ==> ls[i] == |cells[i]|
  {
    seq(|cells|, i requires 0 <= i < |cells| => |cells[i]|)
  }

  // ---------------------------------------------------------------------
  // Column widths

  /** After `k` solutions, a column is at least as wide as its capped
      header and each of its first `k` display cells, and never wider than
      the maximum. */
  lemma {:induction false} WidthAfterBounds(vars: seq<string>, rows: seq<seq<Option<string>>>, k: nat, i: nat)
    requires k <= |rows| && i < |vars|
    ensures Min(|vars[i]|, MaxColWidth) <= WidthAfter(vars, rows, k, i) <= MaxColWidth
    ensures forall r :: 0 <= r < k ==> |DisplayCell(rows[r], i)| <= WidthAfter(vars, rows, k, i)
  {
    if k > 0 {
      WidthAfterBounds(vars, rows, k - 1, i);
    }
  }

  /** ... and it is exactly as wide as one of them. */
  lemma {:induction false} WidthAfterAttained(vars: seq<string>, rows: seq<seq<Option<string>>>, k: nat, i: nat)
    requires k <= |rows| && i < |vars|
    ensures WidthAfter(vars, rows, k, i) == Min(|vars[i]|, MaxColWidth) ||
      exists r :: 0 <= r < k && WidthAfter(vars, rows, k, i) == |DisplayCell(rows[r], i)|
  {
    if k > 0 {
      WidthAfterAttained(vars, rows, k - 1, i);
      var w := WidthAfter(vars, rows, k, i);
      if w != WidthAfter(vars, rows, k - 1, i) {
        assert w == |DisplayCell(rows[k - 1], i)|;
      } else if w != Min(|vars[i]|, MaxColWidth) {
        var r :| 0 <= r < k - 1 && w == |DisplayCell(rows[r], i)|;
        assert 0 <= r < k;
      }
    }
  }

  /** The final width of column `i` is
      `max(min(|vars[i]|, 40), max over rows of |display cell i|)`: at most
      40, at least the capped header length and every display cell's
      length, and equal to one of them. */
  lemma ColumnWidth(vars: seq<string>, rows: seq<seq<Option<string>>>, i: nat)
    requires i < |vars|
    ensures Min(|vars[i]|, MaxColWidth) <= Widths(vars, rows)[i] <= MaxColWidth
    ensures forall r :: 0 <= r < |rows| ==>
      |DisplayTable(|vars|, rows)[r][i]| <= Widths(vars, rows)[i]
    ensures Widths(vars, rows)[i] == Min(|vars[i]|, MaxColWidth) ||
      exists r :: 0 <= r < |rows| && Widths(vars, rows)[i] == |DisplayTable(|vars|, rows)[r][i]|
  {
    WidthAfterBounds(vars, rows, |rows|, i);
    WidthAfterAttained(vars, rows, |rows|, i);
    var table := DisplayTable(|vars|, rows);
    assert forall r :: 0 <= r < |rows| ==> table[r][i] == DisplayCell(rows[r], i);
  }

  // ---------------------------------------------------------------------
  // Line shapes

  /** The separator is `1 + Σ (w + 3)` long, starts and ends with "+", and
      holds nothing but "+" and "-". */
  lemma {:induction false} SeparatorShape(ws: seq<nat>)
    ensures |Separator(ws)| == LineWidth(ws)
    ensures Separator(ws)[0] == '+' && Separator(ws)[|Separator(ws)| - 1] == '+'
    ensures forall c :: c in Separator(ws) ==> c == '+' || c == '-'
  {
    if ws != [] {
      var init := ws[..|ws| - 1];
      SeparatorShape(init);
      var dashes := Repeat('-', ws[|ws| - 1] + 2);
      assert Separator(ws) == Separator(init) + dashes + "+";
      forall c | c in Separator(ws) ensures c == '+' || c == '-' {
        if c in dashes {
          var k :| 0 <= k < |dashes| && dashes[k] == c;
        }
      }
    }
  }

  /** A bordered line is `1 + Σ (|cell| + 3)` long and starts and ends
      with "|". */
  lemma {:induction false} FramedShape(cells: seq<string>)
    ensures |Framed(cells)| == LineWidth(Lengths(cells))
    ensures Framed(cells)[0] == '|' && Framed(cells)[|Framed(cells)| - 1] == '|'
  {
    if cells != [] {
      var init := cells[..|cells| - 1];
      FramedShape(init);
      assert Lengths(cells)[..|cells| - 1] == Lengths(init);
    }
  }

  /** A cell no wider than its column is emitted as it is: the formatted
      data cells are the display cells themselves, numeric or not. */
  lemma RowCellsUnchanged(cells: seq<string>, ws: seq<nat>)
    requires |cells| == |ws|
    requires forall i :: 0 <= i < |cells| ==> |cells[i]| <= ws[i]
    ensures RowCells(cells, ws) == cells
  {
    var formatted := RowCells(cells, ws);
    assert forall i :: 0 <= i < |cells| ==> formatted[i] == cells[i];
  }

  /** Header cells are the nice labels cut to the column width, and no
      longer. */
  lemma HeaderCellsCut(vars: seq<string>, ws: seq<nat>, i: nat)
    requires |ws| == |vars| && i < |vars|
    ensures HeaderCells(vars, ws)[i] == Labels.NiceLabel(vars[i])[..Min(|Labels.NiceLabel(vars[i])|, ws[i])]
    ensures |HeaderCells(vars, ws)[i]| <= ws[i]
  {
  }

  // ---------------------------------------------------------------------
  // The whole output

  /** A table whose separator, header and data lines share one length has
      every line of that length. */
  lemma TableLinesWidth(sep: string, header: string, data: seq<string>, n: nat)
    requires |sep| == n && |header| == n
    requires forall t :: 0 <= t < |data| ==> |data[t]| == n
    ensures forall l :: 0 <= l < |TableLines(sep, header, data)| ==> |TableLines(sep, header, data)[l]| == n
  {
    var out := TableLines(sep, header, data);
    forall l | 0 <= l < |out| ensures |out[l]| == n {
      if 3 <= l < |data| + 3 {
        assert out[l] == data[l - 3];
      }
    }
  }

  /** With no solutions the output is the single line "(sin resultados)":
      no separator and no header. */
  lemma NoSolutions(vars: seq<string>)
    ensures RenderSpec(vars, []) == [NoResults]
  {
  }

  /** With N >= 1 solutions the output is N + 4 lines: separator, header,
      separator, one line per solution holding its display cells unchanged,
      and a closing separator. */
  lemma {:induction false} RenderShape(vars: seq<string>, rows: seq<seq<Option<string>>>)
    requires rows != []
    ensures |RenderSpec(vars, rows)| == |rows| + 4
    ensures RenderSpec(vars, rows)[0] == Separator(Widths(vars, rows))
    ensures RenderSpec(vars, rows)[1] == Framed(HeaderCells(vars, Widths(vars, rows)))
    ensures RenderSpec(vars, rows)[2] == Separator(Widths(vars, rows))
    ensures forall r :: 0 <= r < |rows| ==>
      RenderSpec(vars, rows)[3 + r] == Framed(DisplayTable(|vars|, rows)[r])
    ensures RenderSpec(vars, rows)[|rows| + 3] == Separator(Widths(vars, rows))
  {
    var ws := Widths(vars, rows);
    var table := DisplayTable(|vars|, rows);
    var data := DataLines(table, ws);
    forall r | 0 <= r < |rows| ensures data[r] == Framed(table[r]) {
      forall i | 0 <= i < |vars| ensures |table[r][i]| <= ws[i] {
        ColumnWidth(vars, rows, i);
      }
      RowCellsUnchanged(table[r], ws);
    }
  }

  /** Every separator of a table is `1 + Σ (w_i + 3)` characters long, and
      every data line `1 + Σ (|cell_i| + 3)`, so data lines are shorter than
      the separator wherever a cell is narrower than its column. */
  lemma RenderLineLengths(vars: seq<string>, rows: seq<seq<Option<string>>>)
    requires rows != []
    ensures |RenderSpec(vars, rows)[0]| == LineWidth(Widths(vars, rows))
    ensures forall r :: 0 <= r < |rows| ==>
      |RenderSpec(vars, rows)[3 + r]| == LineWidth(Lengths(DisplayTable(|vars|, rows)[r]))
  {
    RenderShape(vars, rows);
    SeparatorShape(Widths(vars, rows));
    forall r | 0 <= r < |rows|
      ensures |RenderSpec(vars, rows)[3 + r]| == LineWidth(Lengths(DisplayTable(|vars|, rows)[r]))
    {
      FramedShape(DisplayTable(|vars|, rows)[r]);
    }
  }

  // ---------------------------------------------------------------------
  // An example

  /** One column `titulo`, one solution "Tron: Ares": the column is 10 wide
      (the value's length), the header is not centered and the table is
      five lines, the last a closing separator. */
  lemma TitleExample()
    ensures RenderSpec(["titulo"], [[Some("Tron: Ares")]]) ==
      ["+------------+", "| titulo |", "+------------+", "| Tron: Ares |", "+------------+"]
  {
    var vars, rows := ["titulo"], [[Some("Tron: Ares")]];
    RenderShape(vars, rows);
    TitleWidths();
    TitleSeparator();
    TitleHeader();
    TitleRow();
  }

  lemma TitleRow()
    ensures Framed(DisplayTable(1, [[Some("Tron: Ares")]])[0]) == "| Tron: Ares |"
  {
    assert DisplayTable(1, [[Some("Tron: Ares")]])[0] == ["Tron: Ares"];
    assert ["Tron: Ares"][..0] == [];
  }

  lemma TitleWidths()
    ensures Widths(["titulo"], [[Some("Tron: Ares")]]) == [10]
  {
    assert WidthAfter(["titulo"], [[Some("Tron: Ares")]], 1, 0) == 10;
  }

  lemma TitleSeparator()
    ensures Separator([10]) == "+------------+"
  {
    assert [10][..0] == [];
    var dashes := Repeat('-', 12);
    assert |dashes| == 12 && forall k :: 0 <= k < 12 ==> dashes[k] == '-';
    assert dashes == "------------";
    assert Separator([10]) == Separator([]) + dashes + "+";
  }

  lemma TitleHeader()
    ensures Framed(HeaderCells(["titulo"], [10])) == "| titulo |"
  {
    Labels.NiceLabelCases("titulo");
    assert "titulo" in Labels.KnownLabels;
    assert Labels.NiceLabel("titulo") == "titulo";
    assert Center("titulo", 10) == "titulo";
    assert HeaderCells(["titulo"], [10])[0] == "titulo";
    assert HeaderCells(["titulo"], [10]) == ["titulo"];
    assert ["titulo"][..0] == [];
  }
}
