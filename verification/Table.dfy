/** `draw_table`: raw `| a | b |` rows turned into aligned columns. */
module Table {
  import opened Text
  import opened Terminal

  type Row = seq<string>

  // -------------------------------------------------------------------- the rows

  function StripPrefix(s: string): string {
    if s != [] && s[0] == '|' then s[1..] else s
  }

  function StripSuffix(s: string): string {
    if s != [] && s[|s| - 1] == '|' then s[..|s| - 1] else s
  }

  /** `split('|')`: always at least one piece. */
  function Split(s: string): (pieces: Row)
    ensures |pieces| >= 1
  {
    if s == [] then [""]
    else
      var rest := Split(s[1..]);
      if s[0] == '|' then [""] + rest else [[s[0]] + rest[0]] + rest[1..]
  }

  function TrimAll(pieces: Row): (cells: Row)
    ensures |cells| == |pieces|
    ensures forall j :: 0 <= j < |cells| ==> cells[j] == Trim(pieces[j])
  {
    seq(|pieces|, j requires 0 <= j < |pieces| => Trim(pieces[j]))
  }

  function Cells(raw: string): (cells: Row)
    ensures |cells| >= 1
  {
    TrimAll(Split(StripSuffix(StripPrefix(Trim(raw)))))
  }

  /** A `|---|:--:|` row declares the format; it is not data. */
  predicate IsSeparator(cells: Row) {
    forall j :: 0 <= j < |cells| ==>
      cells[j] != "" && forall i :: 0 <= i < |cells[j]| ==> cells[j][i] in "-: "
  }

  function DataRows(raw: seq<string>): (rows: seq<Row>)
    ensures |rows| <= |raw|
    ensures forall i :: 0 <= i < |rows| ==> |rows[i]| >= 1 && !IsSeparator(rows[i])
  {
    if raw == [] then []
    else if IsSeparator(Cells(raw[0])) then DataRows(raw[1..])
    else [Cells(raw[0])] + DataRows(raw[1..])
  }

  // ------------------------------------------------------------------ the columns

  function Max(a: nat, b: nat): nat {
    if a < b then b else a
  }

  function Columns(rows: seq<Row>): (n: nat)
    ensures forall i :: 0 <= i < |rows| ==> |rows[i]| <= n
  {
    if rows == [] then 0 else Max(Columns(rows[..|rows| - 1]), |rows[|rows| - 1]|)
  }

  /** The widest cell `j` of any row that has one. */
  function Width(rows: seq<Row>, j: nat): (w: nat)
    ensures forall i :: 0 <= i < |rows| && j < |rows[i]| ==> |rows[i][j]| <= w
  {
    if rows == [] then 0
    else
      var last := rows[|rows| - 1];
      Max(Width(rows[..|rows| - 1], j), if j < |last| then |last[j]| else 0)
  }

  function Widths(rows: seq<Row>): (widths: seq<nat>)
    ensures |widths| == Columns(rows)
    ensures forall j :: 0 <= j < |widths| ==> widths[j] == Width(rows, j)
  {
    seq(Columns(rows), j requires 0 <= j => Width(rows, j))
  }

  predicate Fits(row: Row, widths: seq<nat>) {
    |row| <= |widths| && forall j :: 0 <= j < |row| ==> |row[j]| <= widths[j]
  }

  /** The column where cell `j` begins. */
  function ColumnStart(widths: seq<nat>, j: nat): nat
    requires j <= |widths|
  {
    if j == 0 then 2 else ColumnStart(widths, j - 1) + widths[j - 1] + 2
  }

  function Spaces(n: nat): (s: string)
    ensures |s| == n && forall i :: 0 <= i < n ==> s[i] == ' '
  {
    seq(n, _ => ' ')
  }

  function Dashes(n: nat): (s: string)
    ensures |s| == n && forall i :: 0 <= i < n ==> s[i] == '\U{2500}'
  {
    seq(n, _ => '\U{2500}')
  }

  // -------------------------------------------------------------------- the lines

  /** The first `n` cells of a row, each but the row's last padded to its column. */
  function Padded(row: Row, widths: seq<nat>, n: nat): string
    requires Fits(row, widths) && n <= |row|
  {
    if n == 0 then "  "
    else
      Padded(row, widths, n - 1) + row[n - 1]
      + if n < |row| then Spaces(widths[n - 1] - |row[n - 1]| + 2) else ""
  }

  function Line(row: Row, widths: seq<nat>): string
    requires Fits(row, widths)
  {
    TrimEnd(Padded(row, widths, |row|))
  }

  /** The divider's columns joined by two spaces. */
  function Divider(widths: seq<nat>, n: nat): string
    requires n <= |widths|
  {
    if n == 0 then "" else Divider(widths, n - 1) + (if n == 1 then "" else "  ") + Dashes(widths[n - 1])
  }

  function RowTokens(row: Row, widths: seq<nat>, colored: bool, header: bool): seq<Token>
    requires Fits(row, widths)
  {
    if header then
      Paint(colored, Bold, Line(row, widths)) + [Ch('\n')]
      + Paint(colored, Dim, "  " + Divider(widths, |widths|)) + [Ch('\n')]
    else
      Chars(Line(row, widths)) + [Ch('\n')]
  }

  predicate AllFit(rows: seq<Row>, widths: seq<nat>) {
    forall i :: 0 <= i < |rows| ==> Fits(rows[i], widths)
  }

  function RowsTokens(rows: seq<Row>, widths: seq<nat>, colored: bool, n: nat): seq<Token>
    requires AllFit(rows, widths) && n <= |rows|
  {
    if n == 0 then []
    else RowsTokens(rows, widths, colored, n - 1) + RowTokens(rows[n - 1], widths, colored, n == 1)
  }

  function Drawing(raw: seq<string>, colored: bool): seq<Token> {
    var rows := DataRows(raw);
    RowsTokens(rows, Widths(rows), colored, |rows|)
  }

  // ------------------------------------------------------------------- the method

  method DrawTable(raw: seq<string>, colored: bool) returns (output: seq<Token>)
    ensures output == Drawing(raw, colored)
  {
    var rows := CollectRows(raw);
    if rows == [] {
      return [];
    }
    var width := MeasureColumns(rows);
    output := DrawRows(rows, width[..], colored);
  }

  method DrawRows(rows: seq<Row>, widths: seq<nat>, colored: bool) returns (output: seq<Token>)
    requires AllFit(rows, widths)
    ensures output == RowsTokens(rows, widths, colored, |rows|)
  {
    output := [];
    for i := 0 to |rows|
      invariant output == RowsTokens(rows, widths, colored, i)
    {
      var line := DrawLine(rows[i], widths);
      var drawn := Chars(line) + [Ch('\n')];
      if i == 0 {
        drawn := Paint(colored, Bold, line) + [Ch('\n')]
          + Paint(colored, Dim, "  " + Divider(widths, |widths|)) + [Ch('\n')];
      }
      output := output + drawn;
    }
  }

  method CollectRows(raw: seq<string>) returns (rows: seq<Row>)
    ensures rows == DataRows(raw)
  {
    rows := [];
    for i := 0 to |raw|
      invariant rows == DataRows(raw[..i])
    {
      DataRowsNext(raw, i);
      var cells := Cells(raw[i]);
      if !IsSeparator(cells) {
        rows := rows + [cells];
      }
    }
    assert raw[..|raw|] == raw;
  }

  method MeasureColumns(rows: seq<Row>) returns (width: array<nat>)
    ensures fresh(width) && width[..] == Widths(rows)
  {
    var columns := 0;
    for i := 0 to |rows|
      invariant columns == Columns(rows[..i])
    {
      assert rows[..i + 1][..i] == rows[..i];
      columns := Max(columns, |rows[i]|);
    }
    assert rows[..|rows|] == rows;
    width := new nat[columns](_ => 0);
    for i := 0 to |rows|
      invariant forall j :: 0 <= j < columns ==> width[j] == Width(rows[..i], j)
    {
      assert rows[..i + 1][..i] == rows[..i];
      Widen(width, rows[i]);
    }
  }

  /** One row's turn at widening the columns. */
  method Widen(width: array<nat>, row: Row)
    requires |row| <= width.Length
    modifies width
    ensures forall j :: 0 <= j < width.Length ==>
      width[j] == Max(old(width[j]), if j < |row| then |row[j]| else 0)
  {
    for j := 0 to |row|
      invariant forall k :: 0 <= k < j ==> width[k] == Max(old(width[k]), |row[k]|)
      invariant forall k :: j <= k < width.Length ==> width[k] == old(width[k])
    {
      width[j] := Max(width[j], |row[j]|);
    }
  }

  method DrawLine(row: Row, widths: seq<nat>) returns (line: string)
    requires Fits(row, widths)
    ensures line == Line(row, widths)
  {
    line := "  ";
    for j := 0 to |row|
      invariant line == Padded(row, widths, j)
    {
      line := line + row[j];
      if j + 1 < |row| {
        line := line + Spaces(widths[j] - |row[j]| + 2);
      } else {
        assert line + "" == line;
      }
    }
    line := TrimEnd(line);
  }

  lemma DataRowsNext(raw: seq<string>, i: nat)
    requires i < |raw|
    ensures DataRows(raw[..i + 1]) == DataRows(raw[..i]) + if IsSeparator(Cells(raw[i])) then [] else [Cells(raw[i])]
    ensures DataRows(raw[..i]) + [] == DataRows(raw[..i])
  {
    DataRowsSnoc(raw[..i], raw[i]);
    assert raw[..i] + [raw[i]] == raw[..i + 1];
  }

  lemma {:induction false} DataRowsSnoc(raw: seq<string>, last: string)
    ensures DataRows(raw + [last])
         == DataRows(raw) + if IsSeparator(Cells(last)) then [] else [Cells(last)]
  {
    if raw == [] {
      assert raw + [last] == [last] && [last][1..] == [];
    } else {
      assert (raw + [last])[1..] == raw[1..] + [last];
      DataRowsSnoc(raw[1..], last);
    }
  }

  // ------------------------------------------------------------------- alignment

  /** Cell `j` of every row begins at the same column, `2 + sum of (width + 2)` before it. */
  lemma {:induction false} CellColumn(row: Row, widths: seq<nat>, j: nat, n: nat)
    requires Fits(row, widths) && j < n <= |row|
    ensures |Padded(row, widths, j)| == ColumnStart(widths, j)
    ensures var line := Padded(row, widths, n);
            && ColumnStart(widths, j) + |row[j]| <= |line|
            && line[ColumnStart(widths, j)..ColumnStart(widths, j) + |row[j]|] == row[j]
    decreases n
  {
    PaddedLength(row, widths, j);
    if n == j + 1 {
      var before := Padded(row, widths, j);
      assert (before + row[j])[|before|..|before| + |row[j]|] == row[j];
    } else {
      CellColumn(row, widths, j, n - 1);
      var start := ColumnStart(widths, j);
      assert Padded(row, widths, n)[..start + |row[j]|] == Padded(row, widths, n - 1)[..start + |row[j]|];
    }
  }

  lemma {:induction false} PaddedLength(row: Row, widths: seq<nat>, j: nat)
    requires Fits(row, widths) && j < |row|
    ensures |Padded(row, widths, j)| == ColumnStart(widths, j)
  {
    if j > 0 {
      PaddedLength(row, widths, j - 1);
    }
  }

  lemma {:induction false} TrimEndKeeps(s: string, k: nat)
    requires k < |s| && !IsWhitespace(s[k])
    ensures k < |TrimEnd(s)|
  {
    if IsWhitespace(s[|s| - 1]) {
      TrimEndKeeps(s[..|s| - 1], k);
    }
  }

  lemma RowsFit(rows: seq<Row>)
    ensures AllFit(rows, Widths(rows))
  {}

  /** In the line of every data row, whatever its number of cells, a non-empty cell `j` stands at
      the column shared by all rows: trimming the line never cuts it. */
  lemma CellInItsColumn(raw: seq<string>, rows: seq<Row>, widths: seq<nat>, i: nat, j: nat)
    requires rows == DataRows(raw) && widths == Widths(rows)
    requires i < |rows| && j < |rows[i]| && rows[i][j] != ""
    ensures Fits(rows[i], widths)
    ensures var start := ColumnStart(widths, j);
            && start + |rows[i][j]| <= |Line(rows[i], widths)|
            && Line(rows[i], widths)[start..start + |rows[i][j]|] == rows[i][j]
  {
    RowsFit(rows);
    assert Fits(rows[i], widths);
    DataRowsAreTrimmed(raw);
    assert TrimmedRow(rows[i]);
    CellInLine(rows[i], widths, j);
  }

  lemma CellInLine(row: Row, widths: seq<nat>, j: nat)
    requires Fits(row, widths) && j < |row| && row[j] != "" && !IsWhitespace(row[j][|row[j]| - 1])
    ensures var start := ColumnStart(widths, j);
            && start + |row[j]| <= |Line(row, widths)|
            && Line(row, widths)[start..start + |row[j]|] == row[j]
  {
    CellColumn(row, widths, j, |row|);
    var padded := Padded(row, widths, |row|);
    var start := ColumnStart(widths, j);
    var k := start + |row[j]| - 1;
    assert padded[k] == padded[start..start + |row[j]|][|row[j]| - 1];
    TrimEndKeeps(padded, k);
    TrimEndIsPrefix(padded);
    assert TrimEnd(padded)[start..start + |row[j]|] == padded[start..start + |row[j]|];
  }

  predicate TrimmedRow(row: Row) {
    forall j :: 0 <= j < |row| && row[j] != "" ==> !IsWhitespace(row[j][|row[j]| - 1])
  }

  lemma {:induction false} DataRowsAreTrimmed(raw: seq<string>)
    ensures forall i :: 0 <= i < |DataRows(raw)| ==> TrimmedRow(DataRows(raw)[i])
  {
    if raw != [] {
      CellsAreTrimmed(Cells(raw[0]), Split(StripSuffix(StripPrefix(Trim(raw[0])))));
      DataRowsAreTrimmed(raw[1..]);
    }
  }

  lemma CellsAreTrimmed(cells: Row, pieces: Row)
    requires cells == TrimAll(pieces)
    ensures TrimmedRow(cells)
  {
    forall j | 0 <= j < |cells| && cells[j] != ""
      ensures !IsWhitespace(cells[j][|cells[j]| - 1])
    {
      TrimEndIsPrefix(TrimStart(pieces[j]));
    }
  }

  // ------------------------------------------------------------------ separators

  function WithoutSeparators(raw: seq<string>): seq<string> {
    if raw == [] then []
    else (if IsSeparator(Cells(raw[0])) then [] else [raw[0]]) + WithoutSeparators(raw[1..])
  }

  /** A separator row leaves no trace in the drawing. */
  lemma SeparatorsNeverPrint(raw: seq<string>, colored: bool)
    ensures Drawing(raw, colored) == Drawing(WithoutSeparators(raw), colored)
  {
    RowsWithoutSeparators(raw);
  }

  lemma {:induction false} RowsWithoutSeparators(raw: seq<string>)
    ensures DataRows(WithoutSeparators(raw)) == DataRows(raw)
  {
    if raw != [] {
      RowsWithoutSeparators(raw[1..]);
      var rest := WithoutSeparators(raw[1..]);
      if IsSeparator(Cells(raw[0])) {
        assert [] + rest == rest;
      } else {
        assert ([raw[0]] + rest)[1..] == rest;
      }
    }
  }

  // --------------------------------------------------------- the printed characters

  predicate AllOf(s: string, ok: char -> bool) {
    forall i :: 0 <= i < |s| ==> ok(s[i])
  }

  predicate RowOf(row: Row, ok: char -> bool) {
    forall j :: 0 <= j < |row| ==> AllOf(row[j], ok)
  }

  /** What no printed cell holds, whatever the rows held: the bar is gone. */
  const NO_BAR: char -> bool := c => c != '|'

  /** What a row free of control characters leaves in its cells. */
  const CELL: char -> bool := c => c != '|' && c != '\n' && IsSafe(c)

  predicate LineSafe(s: string) {
    forall i :: 0 <= i < |s| ==> s[i] != '\n' && IsSafe(s[i])
  }

  predicate RawSafe(raw: seq<string>) {
    forall i :: 0 <= i < |raw| ==> LineSafe(raw[i])
  }

  /** What separates the cells and fills the columns. */
  predicate Fills(ok: char -> bool) {
    ok(' ') && ok('\U{2500}')
  }

  predicate BarsAnd(s: string, ok: char -> bool) {
    forall i :: 0 <= i < |s| ==> s[i] == '|' || ok(s[i])
  }

  lemma {:induction false} SplitDropsBars(s: string, ok: char -> bool)
    requires BarsAnd(s, ok)
    ensures RowOf(Split(s), ok)
  {
    if s != [] {
      SplitDropsBars(s[1..], ok);
    }
  }

  lemma CellsDropBars(raw: string, ok: char -> bool)
    requires BarsAnd(raw, ok)
    ensures RowOf(Cells(raw), ok)
  {
    TrimIsPart(raw);
    var t := StripSuffix(StripPrefix(Trim(raw)));
    assert BarsAnd(Trim(raw), ok);
    assert BarsAnd(t, ok);
    SplitDropsBars(t, ok);
    forall j | 0 <= j < |Cells(raw)|
      ensures AllOf(Cells(raw)[j], ok)
    {
      TrimIsPart(Split(t)[j]);
      assert AllOf(Split(t)[j], ok);
    }
  }

  lemma {:induction false} DataRowsDropBars(raw: seq<string>, ok: char -> bool)
    requires forall k :: 0 <= k < |raw| ==> BarsAnd(raw[k], ok)
    ensures forall i :: 0 <= i < |DataRows(raw)| ==> RowOf(DataRows(raw)[i], ok)
  {
    if raw != [] {
      CellsDropBars(raw[0], ok);
      DataRowsDropBars(raw[1..], ok);
    }
  }

  lemma {:induction false} PaddedKeeps(row: Row, widths: seq<nat>, n: nat, ok: char -> bool)
    requires Fits(row, widths) && n <= |row| && RowOf(row, ok) && Fills(ok)
    ensures AllOf(Padded(row, widths, n), ok)
  {
    if n > 0 {
      PaddedKeeps(row, widths, n - 1, ok);
    }
  }

  lemma {:induction false} DividerKeeps(widths: seq<nat>, n: nat, ok: char -> bool)
    requires n <= |widths| && Fills(ok)
    ensures AllOf(Divider(widths, n), ok)
  {
    if n > 0 {
      DividerKeeps(widths, n - 1, ok);
    }
  }

  lemma LineKeeps(row: Row, widths: seq<nat>, ok: char -> bool)
    requires Fits(row, widths) && RowOf(row, ok) && Fills(ok)
    ensures AllOf(Line(row, widths), ok) && AllOf("  " + Divider(widths, |widths|), ok)
  {
    PaddedKeeps(row, widths, |row|, ok);
    TrimEndIsPrefix(Padded(row, widths, |row|));
    DividerKeeps(widths, |widths|, ok);
  }

  /** No bar among the characters written. */
  predicate NoBars(ts: seq<Token>) {
    forall i :: 0 <= i < |ts| ==> ts[i] != Ch('|')
  }

  lemma NoBarsConcat(a: seq<Token>, b: seq<Token>)
    requires NoBars(a) && NoBars(b)
    ensures NoBars(a + b)
  {}

  lemma PaintHasNoBars(colored: bool, code: Code, line: string)
    requires AllOf(line, NO_BAR)
    ensures NoBars(Paint(colored, code, line))
  {}

  lemma RowHasNoBars(row: Row, widths: seq<nat>, colored: bool, header: bool)
    requires Fits(row, widths) && RowOf(row, NO_BAR)
    ensures NoBars(RowTokens(row, widths, colored, header))
  {
    LineKeeps(row, widths, NO_BAR);
    PaintHasNoBars(colored, Bold, Line(row, widths));
    PaintHasNoBars(colored, Dim, "  " + Divider(widths, |widths|));
  }

  lemma {:induction false} RowsHaveNoBars(rows: seq<Row>, widths: seq<nat>, colored: bool, n: nat)
    requires AllFit(rows, widths) && n <= |rows| && forall i :: 0 <= i < |rows| ==> RowOf(rows[i], NO_BAR)
    ensures NoBars(RowsTokens(rows, widths, colored, n))
  {
    if n > 0 {
      RowsHaveNoBars(rows, widths, colored, n - 1);
      RowHasNoBars(rows[n - 1], widths, colored, n == 1);
      NoBarsConcat(RowsTokens(rows, widths, colored, n - 1), RowTokens(rows[n - 1], widths, colored, n == 1));
    }
  }

  /** Whatever the rows hold, coloured or not, the drawing holds no bar. */
  lemma DrawingHasNoBars(raw: seq<string>, colored: bool)
    ensures NoBars(Drawing(raw, colored))
  {
    DataRowsDropBars(raw, NO_BAR);
    RowsHaveNoBars(DataRows(raw), Widths(DataRows(raw)), colored, |DataRows(raw)|);
  }

  // ------------------------------------------------------------ the terminal's style

  /** Two painted lines: the header and its divider. */
  lemma HeaderDraws(a: seq<Token>, b: seq<Token>)
    requires Draws(BASE, a, BASE) && Draws(BASE, b, BASE)
    ensures Draws(BASE, a + [Ch('\n')] + b + [Ch('\n')], BASE)
  {
    DrawsConcat(BASE, a, BASE, [Ch('\n')], BASE);
    DrawsConcat(BASE, a + [Ch('\n')], BASE, b, BASE);
    DrawsConcat(BASE, a + [Ch('\n')] + b, BASE, [Ch('\n')], BASE);
  }

  lemma PaintedLineDraws(colored: bool, code: Code, line: string)
    requires AllOf(line, CELL)
    ensures Draws(BASE, Paint(colored, code, line), BASE)
  {
    if colored {
      DrawsPaint(code, line);
    } else {
      DrawsChars(BASE, line);
    }
  }

  lemma PlainLineDraws(line: string)
    requires AllOf(line, CELL)
    ensures Draws(BASE, Chars(line) + [Ch('\n')], BASE)
  {
    DrawsChars(BASE, line);
    DrawsConcat(BASE, Chars(line), BASE, [Ch('\n')], BASE);
  }

  lemma RowDraws(row: Row, widths: seq<nat>, colored: bool, header: bool)
    requires Fits(row, widths) && RowOf(row, CELL)
    ensures Draws(BASE, RowTokens(row, widths, colored, header), BASE)
  {
    LineKeeps(row, widths, CELL);
    if header {
      var divider := "  " + Divider(widths, |widths|);
      PaintedLineDraws(colored, Bold, Line(row, widths));
      PaintedLineDraws(colored, Dim, divider);
      HeaderDraws(Paint(colored, Bold, Line(row, widths)), Paint(colored, Dim, divider));
    } else {
      PlainLineDraws(Line(row, widths));
    }
  }

  lemma {:induction false} RowsDraw(rows: seq<Row>, widths: seq<nat>, colored: bool, n: nat)
    requires AllFit(rows, widths) && n <= |rows| && forall i :: 0 <= i < |rows| ==> RowOf(rows[i], CELL)
    ensures Draws(BASE, RowsTokens(rows, widths, colored, n), BASE)
  {
    if n > 0 {
      RowsDraw(rows, widths, colored, n - 1);
      RowDraws(rows[n - 1], widths, colored, n == 1);
      DrawsConcat(BASE, RowsTokens(rows, widths, colored, n - 1), BASE,
                  RowTokens(rows[n - 1], widths, colored, n == 1), BASE);
    }
  }

  /** Drawn from rows free of control characters, coloured or not, a table starts and ends at
      base and breaks its lines at base. */
  lemma DrawingDraws(raw: seq<string>, colored: bool)
    requires RawSafe(raw)
    ensures Draws(BASE, Drawing(raw, colored), BASE)
  {
    DataRowsDropBars(raw, CELL);
    RowsDraw(DataRows(raw), Widths(DataRows(raw)), colored, |DataRows(raw)|);
  }
}
