# Table formatter of CineColombiaManager, in Dafny

CineColombiaManager builds a small graph of cinema listings with Apache Jena
and runs SPARQL queries over it. Its only logic of its own is the formatter
that prints a query result as an ASCII table, inside `executeSPARQLQuery`.
A few string helpers go with it. This project models that formatter and
those helpers, and proves what they produce.

The formatter takes the query's variables and its solutions. Each solution
gives, per variable, the text of the bound node, or nothing when the
variable is unbound. It then works in two passes:

1. It fills an `int[] widths` array and a display table. Each column starts
   at its variable name's length, capped at 40. A cell longer than 40
   becomes its first 37 characters followed by `...`. Each column widens to
   its longest display cell.
2. It builds a `+---+` separator and a header of "nice" labels. Then it
   emits separator, header, separator, one line per solution, and a closing
   separator. With no solutions it prints only `(sin resultados)`.

The helpers `pad`, `center` and `formatCell` are meant to pad with spaces.
They pad with `"".repeat(n)`, which is always the empty string. So no cell
or header is padded, the `rightAlign` flag has no effect, and the lines of
a table are generally of different lengths. Only the separator really fills
its columns, because `repeat(char, int)` repeats a one-character string.
The model follows the code as written. A corrected, space-padded variant is
modelled beside it (see Findings).

Modules, one per part of `CineColombiaManager.java`:

- `Text`: Java's `String.repeat` (`RepeatStr`), `repeat`, `pad`, `center`
  and `formatCell`.
- `Numeric`: `isNumeric`, written as a character scan. It is proved equal
  to a description of the pattern `-?\d+(\.\d+)?`.
- `Labels`: `niceLabel`. The fixed map is a constant. The regex
  `([a-z])([A-Z])` → `$1 $2` is written as a left-to-right scan, and the
  scan is proved equal to a position-by-position rule.
- `WordWrap`: `wrapToLines` as a method with its `while` loop. It is proved
  equal to a recursive function, `Wrap`. It uses Java's `trim` and
  `lastIndexOf`.
- `TableFormat`: the formatter. `Render` runs the passes of
  `executeSPARQLQuery` on an `array<int>` of widths and sequences of lines,
  split into one method per loop: `FillWidths`, `FillRow`, `SeparatorOf`,
  `HeaderOf` and `RowLineOf`. It is proved equal to the function
  `RenderSpec`.
- `TableLaws`: the properties of `RenderSpec`: column widths, the shape and
  length of every line, and the order of the lines.
- `AlignedTable`: the layout that `" ".repeat(n)` would give, and the proof
  that all of its lines then have the same length.

Two facts about the output are easy to miss in the code:

- After the solution lines the code prints the separator once more
  (:425). So a table has N + 4 lines (`TableLaws.RenderShape`), and one
  solution gives 5 lines (`TableLaws.TitleExample`).
- The comment at :400 and the `rightAlign` flag at :418 promise centred
  headers and right-aligned numbers. Neither happens, and the lines of a
  table differ in length (`Text.FormatCell`, `Text.Center`,
  `AlignedTable.WrittenLinesDiffer`).

## Model

| member | source | states |
|---|---|---|
| `Text.RepeatStr` | src/main/java/org/example/cine/CineColombiaManager.java:435 | Java's `t.repeat(n)` has length n·|t| and holds only characters of `t`, so `"".repeat(n)` is `""` |
| `Text.Repeat` | src/main/java/org/example/cine/CineColombiaManager.java:438-440 | `repeat(c, n)` is exactly max(0, n) copies of `c` |
| `Text.Pad` | src/main/java/org/example/cine/CineColombiaManager.java:432-436 | `pad(s, width)` returns `s` unchanged for every width |
| `Text.Center` | src/main/java/org/example/cine/CineColombiaManager.java:501-508 | `center(s, w)` is the prefix of `s` of length min(|s|, w): long labels are cut, short ones are not padded |
| `Text.FormatCell` | src/main/java/org/example/cine/CineColombiaManager.java:462-472 | `formatCell(s, w, r)` is the prefix of `s` of length min(|s|, w) whatever `r` is; a cell no wider than `w` is returned unchanged |
| `Numeric.DigitsEnd` | src/main/java/org/example/cine/CineColombiaManager.java:476 | the end of the run of ASCII digits starting at `from`: every character before it is a digit and the one at it is not |
| `Numeric.IsNumericMatches` | src/main/java/org/example/cine/CineColombiaManager.java:474-477 | `isNumeric(s)` holds if and only if `s` is an optional `-`, one or more ASCII digits, and optionally `.` and one or more digits; `""` is not numeric |
| `Numeric.ScanIsSound` | src/main/java/org/example/cine/CineColombiaManager.java:476 | every string the scan accepts matches the pattern |
| `Numeric.ScanIsComplete` | src/main/java/org/example/cine/CineColombiaManager.java:476 | every string matching the pattern is accepted by the scan |
| `Labels.SplitCamelSpacesPairs` | src/main/java/org/example/cine/CineColombiaManager.java:458 | the regex replacement inserts a space after exactly those lowercase letters that are followed by an uppercase letter |
| `Labels.UnderscoresToSpaces` | src/main/java/org/example/cine/CineColombiaManager.java:458 | `replace('_', ' ')` keeps the length, changes each `_` to a space and nothing else, and leaves no `_` |
| `Labels.NiceLabelCases` | src/main/java/org/example/cine/CineColombiaManager.java:442-460 | `niceLabel` is `""` for `""`, returns each of the ten mapped names unchanged, and otherwise applies the camelCase and underscore rule |
| `Labels.NiceLabelOfUnknown` | src/main/java/org/example/cine/CineColombiaManager.java:456-459 | the label of an unmapped name is at least as long as the name and holds no `_` |
| `WordWrap.TrimStart` | src/main/java/org/example/cine/CineColombiaManager.java:495 | the leading part of `trim`: the result is a suffix of `s`, everything removed is ≤ U+0020, and the result does not start with such a character |
| `WordWrap.TrimEnd` | src/main/java/org/example/cine/CineColombiaManager.java:495 | the trailing part of `trim`: the result is a prefix of `s`, everything removed is ≤ U+0020, and the result does not end with such a character |
| `WordWrap.LastIndexOf` | src/main/java/org/example/cine/CineColombiaManager.java:492 | `lastIndexOf(c, from)` is -1 or an index ≤ `from` holding `c`, and no later index up to `from` holds `c` |
| `WordWrap.BreakPos` | src/main/java/org/example/cine/CineColombiaManager.java:492-493 | the cut point is the last space at an index in 1..`maxWidth`, or `maxWidth` itself when there is none; so it lies in 1..`maxWidth` and each turn of the loop removes at least one character |
| `WordWrap.WrapToLines` | src/main/java/org/example/cine/CineColombiaManager.java:479-499 | the loop returns `Wrap(s, maxWidth)`: a non-empty list whose lines are all at most `maxWidth` long |
| `WordWrap.WrapFromBounds` | src/main/java/org/example/cine/CineColombiaManager.java:486-496 | every line the loop emits is between 1 and `maxWidth` characters long |
| `WordWrap.WrapBounds` | src/main/java/org/example/cine/CineColombiaManager.java:479-499 | the result is never empty and no line exceeds `maxWidth`; it is `[""]` exactly for the empty input, and `[s]` for a non-empty `s` no longer than `maxWidth` |
| `WordWrap.WrapKeepsText` | src/main/java/org/example/cine/CineColombiaManager.java:485-496 | wrapping loses only whitespace: the characters above U+0020 of the lines, in order, are those of the input |
| `WordWrap.WrapFromKeepsText` | src/main/java/org/example/cine/CineColombiaManager.java:486-496 | the same for the lines the loop itself emits |
| `WordWrap.WrapStepKeepsText` | src/main/java/org/example/cine/CineColombiaManager.java:494-495 | one turn of the loop (cut a line, trim the rest) keeps the visible characters |
| `TableFormat.Truncate` | src/main/java/org/example/cine/CineColombiaManager.java:384-385 | a value longer than 40 becomes exactly 40 long, its first 37 characters followed by `...`; a value of length ≤ 40 is kept |
| `TableFormat.DisplayCell` | src/main/java/org/example/cine/CineColombiaManager.java:377-385 | an unbound variable, or a position past the end of the row, reads as `""`; a bound value is shown as its truncation; no display cell is longer than 40 |
| `TableFormat.Render` | src/main/java/org/example/cine/CineColombiaManager.java:360-425 | the formatter prints exactly `RenderSpec(vars, rows)`, and only `(sin resultados)` when there are no solutions |
| `TableFormat.FillWidths` | src/main/java/org/example/cine/CineColombiaManager.java:365-390 | the first pass leaves `widths` equal to `Widths(vars, rows)` and the display table equal to `DisplayTable` |
| `TableFormat.FillRow` | src/main/java/org/example/cine/CineColombiaManager.java:375-389 | one solution's display row; each column becomes the larger of its old width and its new cell's length, and nothing else changes |
| `TableFormat.SeparatorOf` | src/main/java/org/example/cine/CineColombiaManager.java:393-398 | the `StringBuilder` loop builds `Separator(widths)` |
| `TableFormat.HeaderOf` | src/main/java/org/example/cine/CineColombiaManager.java:401-406 | the header loop builds the bordered line of centred nice labels |
| `TableFormat.RowLineOf` | src/main/java/org/example/cine/CineColombiaManager.java:414-420 | the row loop builds the bordered line of formatted cells |
| `TableLaws.WidthAfterBounds` | src/main/java/org/example/cine/CineColombiaManager.java:366-387 | after any number of solutions, a width is at least the capped header length and every display cell seen so far, and at most 40 |
| `TableLaws.WidthAfterAttained` | src/main/java/org/example/cine/CineColombiaManager.java:366-387 | a width always equals the capped header length or the length of one display cell seen so far |
| `TableLaws.ColumnWidth` | src/main/java/org/example/cine/CineColombiaManager.java:366-387 | the final `widths[i]` is max(min(|vars[i]|, 40), max over solutions of |display cell i|): at most 40, at least every display cell, and equal to one of them |
| `TableLaws.SeparatorShape` | src/main/java/org/example/cine/CineColombiaManager.java:393-398 | the separator is 1 + Σ (w_i + 3) long, starts and ends with `+`, and holds only `+` and `-` |
| `TableLaws.FramedShape` | src/main/java/org/example/cine/CineColombiaManager.java:414-420 | a bordered line is 1 + Σ (|cell_i| + 3) long and starts and ends with `\|` |
| `TableLaws.RowCellsUnchanged` | src/main/java/org/example/cine/CineColombiaManager.java:416-420 | data cells no wider than their columns are emitted unchanged, numeric or not |
| `TableLaws.HeaderCellsCut` | src/main/java/org/example/cine/CineColombiaManager.java:403-405 | each header cell is its nice label cut to the column width |
| `TableLaws.TableLinesWidth` | src/main/java/org/example/cine/CineColombiaManager.java:408-425 | if the separator, the header and every data line share one length, every line of the table has it |
| `TableLaws.NoSolutions` | src/main/java/org/example/cine/CineColombiaManager.java:360-363 | with no solutions the output is the single line `(sin resultados)`, with no separator or header |
| `TableLaws.RenderShape` | src/main/java/org/example/cine/CineColombiaManager.java:408-425 | with N ≥ 1 solutions there are exactly N + 4 lines: separator, header, separator, solution lines holding their display cells unchanged, separator |
| `TableLaws.RenderLineLengths` | src/main/java/org/example/cine/CineColombiaManager.java:393-421 | the separator is 1 + Σ (w_i + 3) long and each solution line 1 + Σ (|cell_i| + 3) long |
| `TableLaws.TitleExample` | src/main/java/org/example/cine/CineColombiaManager.java:360-425 | one column `titulo` and one solution "Tron: Ares" give a five-line table whose header `\| titulo \|` is shorter than its separator |
| `AlignedTable.CenterPadded` | src/main/java/org/example/cine/CineColombiaManager.java:501-508 | `center` with space padding: exactly `width` wide, the label in the middle, the odd space on the right |
| `AlignedTable.FormatCellPadded` | src/main/java/org/example/cine/CineColombiaManager.java:462-472 | `formatCell` with space padding: exactly `width` wide, flush right when `rightAlign` holds and flush left otherwise |
| `AlignedTable.AlignedLinesSameLength` | src/main/java/org/example/cine/CineColombiaManager.java:393-425 | with space padding a table has N + 4 lines, all 1 + Σ (w_i + 3) long |
| `AlignedTable.WrittenLinesDiffer` | src/main/java/org/example/cine/CineColombiaManager.java:462-472 | as written, one column `titulo` and one solution "x" give a 10-character separator but a 5-character data line |
| `AlignedTable.AlignedLinesAgree` | src/main/java/org/example/cine/CineColombiaManager.java:462-472 | with space padding the same input gives a separator and a data line of 10 characters each |

## Findings

| source | as written | input that shows it | evidently intended | confidence | as-written member | corrected member |
|---|---|---|---|---|---|---|
| src/main/java/org/example/cine/CineColombiaManager.java:462-472 | `formatCell` pads with `"".repeat(pad)`, which adds nothing, so cells are neither padded nor right-aligned | column `titulo`, one solution `titulo = "x"`: the separator is `+--------+` (10 characters) but the data line is `\| x \|` (5) | pad with `" ".repeat(pad)`, on the left for numeric cells | high; not executed | `AlignedTable.WrittenLinesDiffer` | `AlignedTable.AlignedLinesSameLength` |
| src/main/java/org/example/cine/CineColombiaManager.java:501-508 | `center` pads with `"".repeat(left)` and `"".repeat(right)`, so short labels are not centred | column `titulo`, one solution "Tron: Ares": the header is `\| titulo \|` (10 characters) under a 14-character separator | pad with `" ".repeat(...)` on both sides | high; not executed | `TableLaws.TitleExample` | `AlignedTable.CenterPadded` |

`TableFormat.Render` and `TableLaws` describe the program as written,
because that is what it prints. `AlignedTable.AlignedRender` is the
corrected formatter. It reuses the same widths, separator, labels and
layout, and replaces only the two padding helpers. `pad` (lines 432-436)
has the same defect, but nothing calls it.

## Left out

- Query execution: `QueryFactory`, `QueryExecutionFactory` and `ResultSetFormatter.toList` belong to Apache Jena. The variables and the solutions are inputs to `Render`.
- The conversion of a bound `RDFNode` to text (`asLiteral().getString()` or `toString()`, lines 380-382) is a Jena call. Each cell arrives as an already converted `Option<string>`.
- Solutions are positional (`seq<Option<string>>` per row) rather than keyed by variable name. A position past the end of a row reads as unbound. When two query variables have the same name, Java reads the same binding for both; the positional model lets them differ.
- Printing: `System.out.println` is modelled as the returned sequence of lines. The catch block that prints query errors to stderr is not modelled, because the formatter itself throws nothing on well-formed input.
- `main`, `createRDFModel`, `createMovieResource`, `saveRDFModel`, `loadRDFModel` and `executeDemoQueries` are left out. They only build a fixed dataset, do file I/O and run fixed queries through Jena.
- Null strings are not modelled, since Dafny strings cannot be null. In every helper a null argument gives the same result as `""`: `pad`, `center`, `formatCell` and `niceLabel` replace it by `""`, `isNumeric` returns false for both, and `wrapToLines` returns `[""]` for both.
- Java measures strings in UTF-16 code units and Dafny in Unicode scalar values. The widths differ for characters outside the Basic Multilingual Plane; such characters are not modelled separately.
- `Numeric.IsNumeric` and `Labels.SplitCamel` replace Java's regular-expression engine with explicit scans over ASCII classes, which is what `\d`, `[a-z]` and `[A-Z]` mean in Java's default mode.
- `WordWrap.WrapToLines`: a `maxWidth` below 1 is excluded by its precondition. With 0 the source loops forever on most inputs, and a negative value makes `substring` throw.
- `WordWrap.WrapToLines`: the source leaves the loop with `break` after the last line. The model empties `remaining` instead, which ends the loop at the same point with the same output.
- `WordWrap.Trim` (Java's `trim`) is stated only through `TrimStart` and `TrimEnd` and the fact that it keeps every visible character. Its exact result is given by its definition, not restated in a contract.
