/** The lines a table is drawn as: which there are, and what stands where in each. */
module TableLines {
  import opened Text
  import opened Terminal
  import opened Table

  // ------------------------------------------------------------------- lines of a text

  function Unlines(lines: seq<string>): string {
    if lines == [] then "" else (lines[0] + "\n") + Unlines(lines[1..])
  }

  /** A text cut at its newlines. */
  function Cut(s: string): seq<string> {
    if s == "" then []
    else
      var rest := Cut(s[1..]);
      if s[0] == '\n' then [""] + rest
      else if rest == [] then [[s[0]]]
      else [[s[0]] + rest[0]] + rest[1..]
  }

  lemma {:induction false} UnlinesConcat(a: seq<string>, b: seq<string>)
    ensures Unlines(a + b) == Unlines(a) + Unlines(b)
  {
    if a == [] {
      assert a + b == b;
    } else {
      assert (a + b)[1..] == a[1..] + b;
      UnlinesConcat(a[1..], b);
    }
  }

  lemma {:induction false} CutLine(line: string, s: string)
    requires '\n' !in line
    ensures Cut((line + "\n") + s) == [line] + Cut(s)
    decreases line
  {
    var t := (line + "\n") + s;
    if line == "" {
      assert t[1..] == s;
    } else {
      assert t[1..] == (line[1..] + "\n") + s;
      CutLine(line[1..], s);
      assert [line[0]] + line[1..] == line;
    }
  }

  lemma {:induction false} CutUnlines(lines: seq<string>)
    requires forall k :: 0 <= k < |lines| ==> '\n' !in lines[k]
    ensures Cut(Unlines(lines)) == lines
  {
    if lines != [] {
      CutUnlines(lines[1..]);
      CutLine(lines[0], Unlines(lines[1..]));
    }
  }

  // ---------------------------------------------------------------- the drawing's lines

  function Rule(widths: seq<nat>): string {
    "  " + Divider(widths, |widths|)
  }

  /** The first row, the rule, and the other rows, each once and in order: those of the first
      `n` rows. */
  function LinesTo(rows: seq<Row>, widths: seq<nat>, n: nat): (lines: seq<string>)
    requires AllFit(rows, widths) && n <= |rows|
    ensures |lines| == if n == 0 then 0 else n + 1
    ensures n > 0 ==> lines[0] == Line(rows[0], widths) && lines[1] == Rule(widths)
    ensures forall i :: 0 < i < n ==> lines[i + 1] == Line(rows[i], widths)
  {
    if n == 0 then []
    else if n == 1 then [Line(rows[0], widths), Rule(widths)]
    else LinesTo(rows, widths, n - 1) + [Line(rows[n - 1], widths)]
  }

  function LinesOf(rows: seq<Row>, widths: seq<nat>): seq<string>
    requires AllFit(rows, widths)
  {
    LinesTo(rows, widths, |rows|)
  }

  /** Where row `i` stands among the lines. */
  function LineOfRow(i: nat): nat {
    if i == 0 then 0 else i + 1
  }

  lemma PrintedPaint(colored: bool, code: Code, x: string)
    ensures Printed(Paint(colored, code, x) + [Ch('\n')]) == x + "\n"
  {
    PrintedChars(x);
    assert [Sgr(code)][1..] == [] && [Sgr(Reset)][1..] == [] && [Ch('\n')][1..] == [];
    PrintedConcat([Sgr(code)], Chars(x));
    PrintedConcat([Sgr(code)] + Chars(x), [Sgr(Reset)]);
    PrintedConcat(Paint(colored, code, x), [Ch('\n')]);
    assert "" + x == x && x + "" == x;
  }

  lemma OneLine(line: string)
    ensures Unlines([line]) == line + "\n"
  {
    assert [line][1..] == [];
    AppendNothing(line + "\n");
  }

  lemma TwoLines(a: string, b: string)
    ensures Unlines([a, b]) == (a + "\n") + (b + "\n")
  {
    assert [a, b][1..] == [b];
    OneLine(b);
  }

  lemma PrintedHeader(line: string, rule: string, colored: bool)
    ensures Printed(Paint(colored, Bold, line) + [Ch('\n')] + Paint(colored, Dim, rule) + [Ch('\n')])
         == (line + "\n") + (rule + "\n")
  {
    var first, second := Paint(colored, Bold, line) + [Ch('\n')], Paint(colored, Dim, rule);
    PrintedPaint(colored, Bold, line);
    PrintedPaint(colored, Dim, rule);
    ConcatAssociative(first, second, [Ch('\n')]);
    PrintedConcat(first, second + [Ch('\n')]);
  }

  lemma PrintedRow(row: Row, widths: seq<nat>, colored: bool, header: bool)
    requires Fits(row, widths)
    ensures Printed(RowTokens(row, widths, colored, header))
         == Unlines(if header then [Line(row, widths), Rule(widths)] else [Line(row, widths)])
  {
    if header {
      PrintedHeader(Line(row, widths), Rule(widths), colored);
      TwoLines(Line(row, widths), Rule(widths));
    } else {
      PrintedPaint(false, Bold, Line(row, widths));
      OneLine(Line(row, widths));
    }
  }

  lemma {:induction false} PrintedRows(rows: seq<Row>, widths: seq<nat>, colored: bool, n: nat)
    requires AllFit(rows, widths) && n <= |rows|
    ensures Printed(RowsTokens(rows, widths, colored, n)) == Unlines(LinesTo(rows, widths, n))
  {
    if n > 0 {
      PrintedRows(rows, widths, colored, n - 1);
      PrintedRow(rows[n - 1], widths, colored, n == 1);
      var before, now := RowsTokens(rows, widths, colored, n - 1), RowTokens(rows[n - 1], widths, colored, n == 1);
      PrintedConcat(before, now);
      if n > 1 {
        UnlinesConcat(LinesTo(rows, widths, n - 1), [Line(rows[n - 1], widths)]);
      } else {
        AppendNothing(Printed(now));
      }
    }
  }

  /** Coloured or not, what is drawn of any raw rows is the lines of their data rows. */
  lemma DrawingIsItsLines(raw: seq<string>, colored: bool, rows: seq<Row>)
    requires rows == DataRows(raw)
    ensures AllFit(rows, Widths(rows))
    ensures Printed(Drawing(raw, colored)) == Unlines(LinesOf(rows, Widths(rows)))
  {
    RowsFit(rows);
    PrintedRows(rows, Widths(rows), colored, |rows|);
  }

  /** The first row in bold and the rule dim. */
  function Header(line: string, rule: string): seq<Token> {
    [Sgr(Bold)] + Chars(line) + [Sgr(Reset), Ch('\n'), Sgr(Dim)] + Chars(rule) + [Sgr(Reset), Ch('\n')]
  }

  lemma {:induction false} ColouredRows(rows: seq<Row>, widths: seq<nat>, n: nat)
    requires AllFit(rows, widths) && 0 < n <= |rows|
    ensures RowsTokens(rows, widths, true, n)
         == Header(Line(rows[0], widths), Rule(widths)) + Chars(Unlines(LinesTo(rows, widths, n)[2..]))
  {
    if n == 1 {
      AppendNothing(RowTokens(rows[0], widths, true, true));
      assert RowsTokens(rows, widths, true, 0) == [];
      FirstRow(Line(rows[0], widths), Rule(widths));
      assert LinesTo(rows, widths, 1)[2..] == [];
    } else {
      ColouredRows(rows, widths, n - 1);
      LaterLines(rows, widths, n);
      LaterRow(Header(Line(rows[0], widths), Rule(widths)), LinesTo(rows, widths, n - 1)[2..],
               Line(rows[n - 1], widths));
    }
  }

  lemma LaterLines(rows: seq<Row>, widths: seq<nat>, n: nat)
    requires AllFit(rows, widths) && 1 < n <= |rows|
    ensures LinesTo(rows, widths, n)[2..] == LinesTo(rows, widths, n - 1)[2..] + [Line(rows[n - 1], widths)]
    ensures RowTokens(rows[n - 1], widths, true, false) == Chars(Line(rows[n - 1], widths)) + [Ch('\n')]
  {}

  lemma FirstRow(line: string, rule: string)
    ensures Paint(true, Bold, line) + [Ch('\n')] + Paint(true, Dim, rule) + [Ch('\n')]
         == Header(line, rule) + Chars(Unlines([]))
  {}

  lemma LaterRow(header: seq<Token>, later: seq<string>, line: string)
    ensures (header + Chars(Unlines(later))) + (Chars(line) + [Ch('\n')]) == header + Chars(Unlines(later + [line]))
  {
    UnlinesConcat(later, [line]);
    OneLine(line);
    LineChars(Unlines(later), line);
    ConcatAssociative(header, Chars(Unlines(later)), Chars(line) + [Ch('\n')]);
  }

  lemma LineChars(before: string, line: string)
    ensures Chars(before) + (Chars(line) + [Ch('\n')]) == Chars(before + (line + "\n"))
  {}

  /** Styles are spent on the first row, bold, and the rule, dim, and on nothing else. */
  lemma OnlyTheHeaderIsStyled(raw: seq<string>, rows: seq<Row>)
    requires rows == DataRows(raw) && rows != []
    ensures AllFit(rows, Widths(rows))
    ensures var lines := LinesOf(rows, Widths(rows));
            Drawing(raw, true) == Header(lines[0], lines[1]) + Chars(Unlines(lines[2..]))
  {
    RowsFit(rows);
    ColouredRows(rows, Widths(rows), |rows|);
  }

  lemma {:induction false} UncolouredRows(rows: seq<Row>, widths: seq<nat>, n: nat)
    requires AllFit(rows, widths) && n <= |rows|
    ensures forall k :: 0 <= k < |RowsTokens(rows, widths, false, n)| ==> RowsTokens(rows, widths, false, n)[k].Ch?
  {
    if n > 0 {
      UncolouredRows(rows, widths, n - 1);
    }
  }

  /** And uncoloured on nothing at all. */
  lemma UncolouredIsUnstyled(raw: seq<string>)
    ensures forall k :: 0 <= k < |Drawing(raw, false)| ==> Drawing(raw, false)[k].Ch?
  {
    UncolouredRows(DataRows(raw), Widths(DataRows(raw)), |DataRows(raw)|);
  }

  const NO_BREAK: char -> bool := c => c != '\n'

  lemma LinesAreUnbroken(rows: seq<Row>, widths: seq<nat>)
    requires AllFit(rows, widths) && forall i :: 0 <= i < |rows| ==> RowOf(rows[i], NO_BREAK)
    ensures forall k :: 0 <= k < |LinesOf(rows, widths)| ==> '\n' !in LinesOf(rows, widths)[k]
  {
    forall i | 0 <= i < |rows|
      ensures '\n' !in Line(rows[i], widths) && '\n' !in Rule(widths)
    {
      LineKeeps(rows[i], widths, NO_BREAK);
    }
    var lines := LinesOf(rows, widths);
    forall k | 0 <= k < |lines|
      ensures '\n' !in lines[k]
    {
      if k > 1 {
        assert lines[(k - 1) + 1] == Line(rows[k - 1], widths);
      }
    }
  }

  /** Drawn from rows without newlines, as the formatter's are, and cut at its newlines, a table
      is its first row, the rule, and the other rows. */
  lemma DrawingCut(raw: seq<string>, colored: bool, rows: seq<Row>)
    requires rows == DataRows(raw) && forall i :: 0 <= i < |raw| ==> '\n' !in raw[i]
    ensures AllFit(rows, Widths(rows))
    ensures Cut(Printed(Drawing(raw, colored))) == LinesOf(rows, Widths(rows))
  {
    DrawingIsItsLines(raw, colored, rows);
    DataRowsDropBars(raw, NO_BREAK);
    LinesAreUnbroken(rows, Widths(rows));
    CutUnlines(LinesOf(rows, Widths(rows)));
  }

  // -------------------------------------------------------------------- how wide it is

  /** Some row has a cell in column `j` that is as wide as the column. */
  predicate Attains(rows: seq<Row>, j: nat, i: nat) {
    i < |rows| && j < |rows[i]| && |rows[i][j]| == Width(rows, j)
  }

  lemma {:induction false} WidthIsAttained(rows: seq<Row>, j: nat)
    ensures Width(rows, j) == 0 || exists i: nat :: Attains(rows, j, i)
  {
    if rows != [] {
      var init := rows[..|rows| - 1];
      WidthIsAttained(init, j);
      if Width(rows, j) > 0 {
        if Width(rows, j) == Width(init, j) {
          var i: nat :| Attains(init, j, i);
          assert Attains(rows, j, i);
        } else {
          assert Attains(rows, j, |rows| - 1);
        }
      }
    }
  }

  lemma {:induction false} ColumnsAreAttained(rows: seq<Row>)
    ensures rows == [] || exists i :: 0 <= i < |rows| && |rows[i]| == Columns(rows)
  {
    if rows != [] {
      var init := rows[..|rows| - 1];
      ColumnsAreAttained(init);
      assert init == [] ==> Columns(init) == 0;
      if Columns(rows) != |rows[|rows| - 1]| {
        var i :| 0 <= i < |init| && |init[i]| == Columns(init);
        assert |rows[i]| == Columns(rows);
      }
    }
  }

  /** No column is wider than its widest cell, and there are no more columns than some row has. */
  lemma ColumnsAreTight(rows: seq<Row>, j: nat)
    requires j < |Widths(rows)|
    ensures Widths(rows)[j] == 0
         || exists i :: 0 <= i < |rows| && j < |rows[i]| && |rows[i][j]| == Widths(rows)[j]
    ensures exists i :: 0 <= i < |rows| && |rows[i]| == |Widths(rows)|
  {
    WidthIsAttained(rows, j);
    ColumnsAreAttained(rows);
    if Width(rows, j) > 0 {
      var i: nat :| Attains(rows, j, i);
      assert |rows[i][j]| == Widths(rows)[j];
    }
  }

  // ----------------------------------------------------------- what stands on each line

  /** In the drawing of any ragged table a non-empty cell `j` of data row `i` stands whole on that
      row's own line, at the column shared by all rows. */
  lemma CellsAreAligned(raw: seq<string>, colored: bool, rows: seq<Row>, lines: seq<string>, i: nat, j: nat)
    requires rows == DataRows(raw) && i < |rows| && j < |rows[i]| && rows[i][j] != ""
    requires AllFit(rows, Widths(rows)) && lines == LinesOf(rows, Widths(rows))
    ensures Printed(Drawing(raw, colored)) == Unlines(lines) && |lines| == |rows| + 1
    ensures StandsAt(lines[LineOfRow(i)], rows[i][j], ColumnStart(Widths(rows), j))
  {
    DrawingIsItsLines(raw, colored, rows);
    CellStands(raw, rows, Widths(rows), i, j);
  }

  lemma CellStands(raw: seq<string>, rows: seq<Row>, widths: seq<nat>, i: nat, j: nat)
    requires rows == DataRows(raw) && widths == Widths(rows)
    requires i < |rows| && j < |rows[i]| && rows[i][j] != ""
    ensures Fits(rows[i], widths) && StandsAt(Line(rows[i], widths), rows[i][j], ColumnStart(widths, j))
  {
    CellInItsColumn(raw, rows, widths, i, j);
  }

  /** Column `k` stands inside some cell. */
  predicate InCell(row: Row, widths: seq<nat>, k: nat)
    requires Fits(row, widths)
  {
    exists j :: 0 <= j < |row| && ColumnStart(widths, j) <= k < ColumnStart(widths, j) + |row[j]|
  }

  lemma {:induction false} PaddedHolds(row: Row, widths: seq<nat>, n: nat, k: nat)
    requires Fits(row, widths) && n <= |row| && k < |Padded(row, widths, n)|
    ensures Padded(row, widths, n)[k] == ' ' || InCell(row, widths, k)
  {
    if n > 0 {
      var before := Padded(row, widths, n - 1);
      PaddedLength(row, widths, n - 1);
      if k < |before| {
        PaddedHolds(row, widths, n - 1, k);
      } else if k < |before| + |row[n - 1]| {
        assert ColumnStart(widths, n - 1) <= k;
      }
    }
  }

  /** Between the cells of a row there are spaces only, and none at its end. */
  lemma OnlyCellsAndSpaces(row: Row, widths: seq<nat>, k: nat)
    requires Fits(row, widths) && k < |Line(row, widths)|
    ensures Line(row, widths)[k] == ' ' || InCell(row, widths, k)
    ensures Line(row, widths)[|Line(row, widths)| - 1] != ' '
  {
    TrimEndIsPrefix(Padded(row, widths, |row|));
    PaddedHolds(row, widths, |row|, k);
  }

  lemma {:induction false} DividerLength(widths: seq<nat>, n: nat)
    requires n <= |widths|
    ensures |Divider(widths, n)| == if n == 0 then 0 else ColumnStart(widths, n) - 4
  {
    if n > 0 {
      DividerLength(widths, n - 1);
    }
  }

  /** Column `k` stands under some column of the table. */
  predicate InColumn(widths: seq<nat>, n: nat, k: nat)
    requires n <= |widths|
  {
    exists j :: 0 <= j < n && ColumnStart(widths, j) <= k < ColumnStart(widths, j) + widths[j]
  }

  lemma {:induction false} DividerColumn(widths: seq<nat>, j: nat, n: nat)
    requires j < n <= |widths|
    ensures StandsAt("  " + Divider(widths, n), Dashes(widths[j]), ColumnStart(widths, j))
    decreases n
  {
    DividerGrows(widths, n);
    if n > j + 1 {
      DividerColumn(widths, j, n - 1);
      StillStands("  " + Divider(widths, n - 1), "  " + Divider(widths, n), Dashes(widths[j]), ColumnStart(widths, j));
    }
  }

  lemma StillStands(text: string, longer: string, part: string, i: nat)
    requires text <= longer && StandsAt(text, part, i)
    ensures StandsAt(longer, part, i)
  {
    assert longer[i..i + |part|] == text[i..i + |part|];
  }

  /** One more column: the gap, and its dashes. */
  lemma DividerGrows(widths: seq<nat>, n: nat)
    requires 0 < n <= |widths|
    ensures var before, now := "  " + Divider(widths, n - 1), "  " + Divider(widths, n);
            && before <= now && |now| == ColumnStart(widths, n - 1) + widths[n - 1]
            && StandsAt(now, Dashes(widths[n - 1]), ColumnStart(widths, n - 1))
            && forall k :: |before| <= k < ColumnStart(widths, n - 1) ==> now[k] == ' '
  {
    DividerLength(widths, n - 1);
  }

  lemma {:induction false} DividerGaps(widths: seq<nat>, n: nat, k: nat)
    requires n <= |widths| && k < |"  " + Divider(widths, n)|
    ensures ("  " + Divider(widths, n))[k] == ' ' || InColumn(widths, n, k)
  {
    if n > 0 {
      DividerGrows(widths, n);
      var before := "  " + Divider(widths, n - 1);
      if k < |before| {
        DividerGaps(widths, n - 1, k);
      }
    }
  }

  /** The rule is dashes under each column, as many as it is wide, and spaces everywhere else. */
  lemma RuleUnderlinesColumns(widths: seq<nat>, j: nat)
    requires j < |widths|
    ensures StandsAt(Rule(widths), Dashes(widths[j]), ColumnStart(widths, j))
    ensures |Rule(widths)| == ColumnStart(widths, |widths|) - 2
    ensures forall k :: 0 <= k < |Rule(widths)| ==> Rule(widths)[k] == ' ' || InColumn(widths, |widths|, k)
  {
    DividerColumn(widths, j, |widths|);
    DividerLength(widths, |widths|);
    forall k | 0 <= k < |Rule(widths)|
      ensures Rule(widths)[k] == ' ' || InColumn(widths, |widths|, k)
    {
      DividerGaps(widths, |widths|, k);
    }
  }

  // ------------------------------------------------------------- cells out of a raw row

  /** Pieces joined by bars. */
  function Barred(pieces: seq<string>): string {
    if pieces == [] then ""
    else if |pieces| == 1 then pieces[0]
    else (pieces[0] + "|") + Barred(pieces[1..])
  }

  lemma {:induction false} SplitPiece(piece: string, s: string)
    requires '|' !in piece
    ensures Split((piece + "|") + s) == [piece] + Split(s)
    decreases piece
  {
    var t := (piece + "|") + s;
    if piece == "" {
      assert t[1..] == s;
    } else {
      assert t[1..] == (piece[1..] + "|") + s;
      SplitPiece(piece[1..], s);
      assert [piece[0]] + piece[1..] == piece;
    }
  }

  lemma {:induction false} SplitWhole(piece: string)
    requires '|' !in piece
    ensures Split(piece) == [piece]
  {
    if piece != "" {
      SplitWhole(piece[1..]);
      assert [piece[1..]][1..] == [] && [piece[0]] + piece[1..] == piece;
    }
  }

  lemma {:induction false} SplitBarred(pieces: seq<string>)
    requires pieces != [] && forall j :: 0 <= j < |pieces| ==> '|' !in pieces[j]
    ensures Split(Barred(pieces)) == pieces
  {
    if |pieces| == 1 {
      SplitWhole(pieces[0]);
    } else {
      SplitBarred(pieces[1..]);
      SplitPiece(pieces[0], Barred(pieces[1..]));
    }
  }

  predicate AllWhite(s: string) {
    forall i :: 0 <= i < |s| ==> IsWhitespace(s[i])
  }

  /** Neither end is whitespace. */
  predicate Bare(x: string) {
    x == "" || (!IsWhitespace(x[0]) && !IsWhitespace(x[|x| - 1]))
  }

  lemma {:induction false} TrimStartPads(left: string, x: string)
    requires AllWhite(left) && (x == "" || !IsWhitespace(x[0]))
    ensures TrimStart(left + x) == x
  {
    if left == "" {
      assert left + x == x;
    } else {
      assert (left + x)[1..] == left[1..] + x;
      TrimStartPads(left[1..], x);
    }
  }

  lemma {:induction false} TrimEndPads(x: string, right: string)
    requires AllWhite(right) && (x == "" || !IsWhitespace(x[|x| - 1]))
    ensures TrimEnd(x + right) == x
  {
    if right == "" {
      assert x + right == x;
    } else {
      assert (x + right)[..|x + right| - 1] == x + right[..|right| - 1];
      TrimEndPads(x, right[..|right| - 1]);
    }
  }

  lemma TrimPads(left: string, x: string, right: string)
    requires AllWhite(left) && AllWhite(right) && Bare(x)
    ensures Trim((left + x) + right) == x
  {
    if x == "" {
      assert (left + x) + right == (left + right) + "";
      TrimStartPads(left + right, "");
    } else {
      assert (left + x) + right == left + (x + right);
      TrimStartPads(left, x + right);
      TrimEndPads(x, right);
    }
  }

  predicate Pads(piece: string, left: string, cell: string, right: string) {
    AllWhite(left) && AllWhite(right) && Bare(cell) && '|' !in cell && piece == (left + cell) + right
  }

  lemma BarsStripped(x: string, before: string, after: string)
    requires AllWhite(before) && AllWhite(after)
    ensures StripSuffix(StripPrefix(Trim((before + ("|" + x + "|")) + after))) == x
  {
    var row := "|" + x + "|";
    TrimPads(before, row, after);
    assert row[1..] == x + "|" && (x + "|")[..|x|] == x;
  }

  /** A raw row gives back the cells it was written from: bars between and around them, any
      whitespace around each and around the row. */
  lemma RowGivesItsCells(cells: Row, lefts: seq<string>, rights: seq<string>, pieces: seq<string>,
                         before: string, after: string)
    requires |cells| == |lefts| == |rights| == |pieces| >= 1 && AllWhite(before) && AllWhite(after)
    requires forall j :: 0 <= j < |cells| ==> Pads(pieces[j], lefts[j], cells[j], rights[j])
    ensures Cells((before + ("|" + Barred(pieces) + "|")) + after) == cells
  {
    BarsStripped(Barred(pieces), before, after);
    forall j | 0 <= j < |pieces|
      ensures '|' !in pieces[j] && Trim(pieces[j]) == cells[j]
    {
      TrimPads(lefts[j], cells[j], rights[j]);
      assert Pads(pieces[j], lefts[j], cells[j], rights[j]);
    }
    SplitBarred(pieces);
  }
}
