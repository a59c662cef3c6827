/**
  What the rendered table looks like as a whole: which lines it consists of,
  how many there are, and that the grid is rectangular with its vertical
  glyphs stacked in the same columns.
 */
module TableProperties {
  import opened Text
  import opened Layout
  import opened Table

  /** No name or value the table shows holds a newline. */
  predicate NoNewlines(tableName: string, data: seq<DataSet>)
  {
    && NoNewline(tableName)
    && (HasDataSets(data) ==> AllNoNewline(data[0].columnNames))
    && forall i | 0 <= i < |data| :: AllNoNewline(data[i].values)
  }

  /** The glyphs that carry a vertical stroke: every column boundary holds one of them. */
  predicate IsJoint(c: char)
  {
    c == VERTICAL || c == '╔' || c == '╦' || c == '╗' || c == '╠' || c == '╬' || c == '╣' || c == '╚' || c == '╩' || c == '╝'
  }

  predicate JointAt(line: string, k: nat, W: nat)
  {
    Bar(k, W) < |line| && IsJoint(line[Bar(k, W)])
  }

  /**
    A line of an n-column grid with field width W: 1 + n(W+1) wide, with a
    glyph carrying a vertical stroke at each of the n+1 column boundaries.
   */
  predicate Framed(line: string, n: nat, W: nat)
  {
    |line| == 1 + Bar(n, W) && forall k | 0 <= k <= n :: JointAt(line, k, W)
  }

  /** What a grid of n columns and field width W needs of its names and rows. */
  predicate GridInput(names: seq<string>, rows: seq<DataSet>, n: nat, W: nat)
  {
    && W % 2 == 0 && HasColumns(rows, n) && Fits(rows, W)
    && forall k | 0 <= k < |names| :: |names[k]| <= W
  }

  /** The empty box as built is its three lines, each newline-terminated. */
  lemma EmptyTableIsBox(tableName: string)
    ensures EmptyTable(tableName) == Unlines(EmptyBoxLines(tableName))
  {
    var message := EmptyTableMessage(tableName);
    var W := |message| - 2;
    var run := Repeat(HORIZONTAL, W);
    var top := Border(Top, 1, W);
    var bottom := Border(Bottom, 1, W);
    assert seq(RunCount(1), _ => run) == [run];
    assert top == ['╔'] + run + ['╗'];
    assert bottom == ['╚'] + run + ['╝'];
    var lines := [top, message, bottom];
    assert lines[1..][1..] == [bottom];
    assert Unlines([bottom]) == bottom + "\n";
    assert Unlines(lines) == top + "\n" + (message + "\n" + (bottom + "\n"));
  }

  /** On the grid path the output is the grid's lines, each newline-terminated. */
  lemma GridTableIsGrid(tableName: string, data: seq<DataSet>)
    requires Renderable(data) && MaxColumnSize(data) > 0
    ensures TableString(tableName, data) == Unlines(GridLines(data))
  {
    var n := ColumnCount(data);
    var W := TableFieldWidth(data);
    AssembleUnlines(Border(Top, n, W), HeaderLine(data[0].columnNames, W), Border(Middle, n, W),
                    DataRowLines(data, n, W), Border(Bottom, n, W));
  }

  /** The lines of a row: a newline in a row line can only come from one of its values. */
  lemma DataRowLineHasNoNewline(row: DataSet, n: nat, W: nat)
    requires W % 2 == 0 && n <= |row.values|
    requires forall j | 0 <= j < |row.values| :: |row.values[j]| <= W
    requires AllNoNewline(row.values)
    ensures NoNewline(DataRowLine(row, n, W))
  {
    var texts := row.values[..n];
    assert forall k | 0 <= k < |texts| :: texts[k] == row.values[k];
    RowLineHasNoNewline(texts, W);
  }

  lemma GridHasNoNewline(names: seq<string>, rows: seq<DataSet>, n: nat, W: nat)
    requires GridInput(names, rows, n, W) && |rows| > 0
    requires AllNoNewline(names) && forall i | 0 <= i < |rows| :: AllNoNewline(rows[i].values)
    ensures AllNoNewline(Grid(names, rows, n, W))
  {
    var items := DataRowLines(rows, n, W);
    BorderHasNoNewline(Top, n, W);
    BorderHasNoNewline(Middle, n, W);
    BorderHasNoNewline(Bottom, n, W);
    HeaderLineIsRowLine(names, W);
    RowLineHasNoNewline(names, W);
    forall i | 0 <= i < |rows|
      ensures NoNewline(items[i])
    {
      DataRowLineHasNoNewline(rows[i], n, W);
    }
    AssembleAll(Border(Top, n, W), HeaderLine(names, W), Border(Middle, n, W), items, Border(Bottom, n, W), NoNewline);
  }

  lemma EmptyBoxHasNoNewline(tableName: string)
    requires NoNewline(tableName)
    ensures AllNoNewline(EmptyBoxLines(tableName))
  {
    var W := |EmptyTableMessage(tableName)| - 2;
    BorderHasNoNewline(Top, 1, W);
    BorderHasNoNewline(Bottom, 1, W);
    assert EmptyTableMessage(tableName) == "║ Table '" + tableName + "' is empty or does not exist ║";
  }

  /**
    The rendered text splits into exactly the lines the renderer emits: the
    three lines of the empty box when the measured width is 0, the grid lines
    otherwise.
   */
  lemma RenderedLines(tableName: string, data: seq<DataSet>)
    requires Renderable(data) && NoNewlines(tableName, data)
    ensures MaxColumnSize(data) == 0 ==> Lines(TableString(tableName, data)) == EmptyBoxLines(tableName)
    ensures MaxColumnSize(data) > 0 ==> Lines(TableString(tableName, data)) == GridLines(data)
  {
    if MaxColumnSize(data) == 0 {
      EmptyTableIsBox(tableName);
      EmptyBoxHasNoNewline(tableName);
      LinesOfUnlines(EmptyBoxLines(tableName));
    } else {
      GridTableIsGrid(tableName, data);
      GridHasNoNewline(data[0].columnNames, data, ColumnCount(data), TableFieldWidth(data));
      LinesOfUnlines(GridLines(data));
    }
  }

  /** The output ends every line with a newline: 3 lines for the empty box, 2N+3 for N rows. */
  lemma RenderedLineCount(tableName: string, data: seq<DataSet>)
    requires Renderable(data) && NoNewlines(tableName, data)
    ensures MaxColumnSize(data) == 0 ==> Count(TableString(tableName, data), '\n') == 3
    ensures MaxColumnSize(data) > 0 ==> Count(TableString(tableName, data), '\n') == 2 * |data| + 3
  {
    if MaxColumnSize(data) == 0 {
      EmptyTableIsBox(tableName);
      EmptyBoxHasNoNewline(tableName);
      UnlinesNewlineCount(EmptyBoxLines(tableName));
    } else {
      GridTableIsGrid(tableName, data);
      GridHasNoNewline(data[0].columnNames, data, ColumnCount(data), TableFieldWidth(data));
      UnlinesNewlineCount(GridLines(data));
    }
  }

  /**
    The order of the grid lines: top border, header row, separator, then row
    i at line 3+2i with a separator after every row but the last, and the
    bottom border last.
   */
  lemma GridOrder(names: seq<string>, rows: seq<DataSet>, n: nat, W: nat)
    requires GridInput(names, rows, n, W) && |rows| > 0
    ensures var lines := Grid(names, rows, n, W);
            && lines[0] == Border(Top, n, W)
            && lines[1] == RowLine(names, W)
            && lines[2] == Border(Middle, n, W)
            && (forall j | 3 <= j < |lines| - 1 && j % 2 == 1 :: lines[j] == DataRowLine(rows[(j - 3) / 2], n, W))
            && (forall j | 3 <= j < |lines| - 1 && j % 2 == 0 :: lines[j] == Border(Middle, n, W))
            && lines[|lines| - 1] == Border(Bottom, n, W)
  {
    var top, mid, bottom := Border(Top, n, W), Border(Middle, n, W), Border(Bottom, n, W);
    var items := DataRowLines(rows, n, W);
    AssembleLayout(top, HeaderLine(names, W), mid, items, bottom);
    HeaderLineIsRowLine(names, W);
  }

  /** The table's grid in that order. */
  lemma GridLinesOrder(data: seq<DataSet>)
    requires HasDataSets(data) && Aligned(data)
    ensures var lines := GridLines(data);
            var n := ColumnCount(data);
            var W := TableFieldWidth(data);
            && lines[0] == Border(Top, n, W)
            && lines[1] == RowLine(data[0].columnNames, W)
            && lines[2] == Border(Middle, n, W)
            && (forall j | 3 <= j < |lines| - 1 && j % 2 == 1 :: lines[j] == DataRowLine(data[(j - 3) / 2], n, W))
            && (forall j | 3 <= j < |lines| - 1 && j % 2 == 0 :: lines[j] == Border(Middle, n, W))
            && lines[|lines| - 1] == Border(Bottom, n, W)
  {
    GridOrder(data[0].columnNames, data, ColumnCount(data), TableFieldWidth(data));
  }

  lemma BorderIsFramed(level: Level, n: nat, W: nat)
    requires n >= 1
    ensures Framed(Border(level, n, W), n, W)
  {
    var b := Border(level, n, W);
    assert IsJoint(level.LeftGlyph()) && IsJoint(level.Junction()) && IsJoint(level.RightGlyph()) by {
      match level
      case Top =>
      case Middle =>
      case Bottom =>
    }
    forall k | 0 <= k <= n
      ensures JointAt(b, k, W)
    {
      if k == 0 {
        assert GlyphAt(b, 0, W, level.LeftGlyph());
      } else if k < n {
        assert GlyphAt(b, k, W, level.Junction());
      } else {
        assert GlyphAt(b, n, W, level.RightGlyph());
      }
    }
  }

  lemma DataRowLineIsFramed(row: DataSet, n: nat, W: nat)
    requires W % 2 == 0 && n <= |row.values|
    requires forall j | 0 <= j < |row.values| :: |row.values[j]| <= W
    ensures Framed(DataRowLine(row, n, W), n, W)
  {
    RowLineIsFramed(row.values[..n], W);
  }

  lemma RowLineIsFramed(texts: seq<string>, W: nat)
    requires W % 2 == 0
    requires forall k | 0 <= k < |texts| :: |texts[k]| <= W
    ensures Framed(RowLine(texts, W), |texts|, W)
  {
    var r := RowLine(texts, W);
    forall k | 0 <= k <= |texts|
      ensures JointAt(r, k, W)
    {
      assert GlyphAt(r, k, W, VERTICAL);
    }
  }

  /**
    With at least one column, a grid is rectangular: every line is
    1 + n(W+1) wide and holds a glyph with a vertical stroke at each of the
    n+1 column boundaries.
   */
  lemma GridIsRectangular(names: seq<string>, rows: seq<DataSet>, n: nat, W: nat)
    requires GridInput(names, rows, n, W) && |names| == n >= 1 && |rows| > 0
    ensures forall l | 0 <= l < |Grid(names, rows, n, W)| :: Framed(Grid(names, rows, n, W)[l], n, W)
  {
    var items := DataRowLines(rows, n, W);
    HeaderLineIsRowLine(names, W);
    RowLineIsFramed(names, W);
    BorderIsFramed(Top, n, W);
    BorderIsFramed(Middle, n, W);
    BorderIsFramed(Bottom, n, W);
    forall i | 0 <= i < |rows|
      ensures Framed(items[i], n, W)
    {
      DataRowLineIsFramed(rows[i], n, W);
    }
    AssembleAll(Border(Top, n, W), HeaderLine(names, W), Border(Middle, n, W), items, Border(Bottom, n, W),
                line => Framed(line, n, W));
  }

  /** The table's grid is rectangular when the first row names at least one column. */
  lemma TableGridIsRectangular(data: seq<DataSet>)
    requires HasDataSets(data) && Aligned(data) && ColumnCount(data) >= 1
    ensures forall l | 0 <= l < |GridLines(data)| :: Framed(GridLines(data)[l], ColumnCount(data), TableFieldWidth(data))
  {
    GridIsRectangular(data[0].columnNames, data, ColumnCount(data), TableFieldWidth(data));
  }
}
