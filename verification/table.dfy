/**
  The table renderer of the `print` command: it measures one column width
  for the whole table, widens it to an even field width, and lays out a
  box-drawn grid (top border, header row, separator, the data rows with
  separators between them, bottom border), or a three-line box saying the
  table is empty when nothing has any text.
 */
module Table {
  import opened Text
  import opened Layout

  /** One fetched row: the column names and the values, already rendered as text. */
  datatype DataSet = DataSet(columnNames: seq<string>, values: seq<string>)

  predicate HasDataSets(data: seq<DataSet>)
  {
    |data| > 0
  }

  /** The number of columns is the number of names of the first row. */
  function ColumnCount(data: seq<DataSet>): nat
  {
    if HasDataSets(data) then |data[0].columnNames| else 0
  }

  /** The length of the longest text, 0 for none. */
  function MaxLength(texts: seq<string>): (m: nat)
    ensures forall k | 0 <= k < |texts| :: |texts[k]| <= m
    ensures m == 0 || exists k | 0 <= k < |texts| :: |texts[k]| == m
  {
    if |texts| == 0 then 0
    else
      var rest := MaxLength(texts[1..]);
      if |texts[0]| > rest then |texts[0]| else rest
  }

  /** The length of the longest value of any row, including values past the column count. */
  function MaxValueLength(data: seq<DataSet>): (m: nat)
    ensures forall i, j | 0 <= i < |data| && 0 <= j < |data[i].values| :: |data[i].values[j]| <= m
    ensures m == 0 || exists i, j | 0 <= i < |data| && 0 <= j < |data[i].values| :: |data[i].values[j]| == m
  {
    if |data| == 0 then 0
    else
      var first := MaxLength(data[0].values);
      var rest := MaxValueLength(data[1..]);
      assert forall i | 1 <= i < |data| :: data[1..][i - 1] == data[i];
      if first > rest then first else rest
  }

  /**
    The one width used for every column: no rows give 0; otherwise it bounds
    every name of the first row and every value of every row, and is the
    length of one of them (or 0 when all of them are empty).
   */
  function MaxColumnSize(data: seq<DataSet>): (w: nat)
    ensures !HasDataSets(data) ==> w == 0
    ensures HasDataSets(data) ==> forall k | 0 <= k < |data[0].columnNames| :: |data[0].columnNames[k]| <= w
    ensures forall i, j | 0 <= i < |data| && 0 <= j < |data[i].values| :: |data[i].values[j]| <= w
    ensures || w == 0
            || (HasDataSets(data) && exists k | 0 <= k < |data[0].columnNames| :: |data[0].columnNames[k]| == w)
            || (exists i, j | 0 <= i < |data| && 0 <= j < |data[i].values| :: |data[i].values[j]| == w)
  {
    if !HasDataSets(data) then 0
    else
      var names := MaxLength(data[0].columnNames);
      var values := MaxValueLength(data);
      if values > names then values else names
  }

  /** All names and values are empty exactly when the measured width is 0. */
  predicate AllBlank(data: seq<DataSet>)
  {
    && (HasDataSets(data) ==> forall k | 0 <= k < |data[0].columnNames| :: |data[0].columnNames[k]| == 0)
    && forall i, j | 0 <= i < |data| && 0 <= j < |data[i].values| :: |data[i].values[j]| == 0
  }

  lemma WidthZeroIffBlank(data: seq<DataSet>)
    ensures MaxColumnSize(data) == 0 <==> AllBlank(data)
  {
  }

  /** The field width: the even number among width+2 and width+3. */
  function FieldWidth(width: nat): (W: nat)
    ensures W % 2 == 0
    ensures width + 2 <= W <= width + 3
  {
    if width % 2 == 0 then width + 2 else width + 3
  }

  /** Every row has a value for every column, as `values.get(column)` demands. */
  predicate Aligned(data: seq<DataSet>)
  {
    forall i | 0 <= i < |data| :: ColumnCount(data) <= |data[i].values|
  }

  /** What rendering demands: the grid path reads a value per column of every row. */
  predicate Renderable(data: seq<DataSet>)
  {
    MaxColumnSize(data) == 0 || Aligned(data)
  }

  /** Every value of `rows` fits the field width W. */
  predicate Fits(rows: seq<DataSet>, W: nat)
  {
    forall i, j | 0 <= i < |rows| && 0 <= j < |rows[i].values| :: |rows[i].values[j]| <= W
  }

  predicate HasColumns(rows: seq<DataSet>, n: nat)
  {
    forall i | 0 <= i < |rows| :: n <= |rows[i].values|
  }

  /** The line of one data row: its first n values, centred. */
  function DataRowLine(row: DataSet, n: nat, W: nat): string
    requires W % 2 == 0 && n <= |row.values|
    requires forall j | 0 <= j < |row.values| :: |row.values[j]| <= W
  {
    RowLine(row.values[..n], W)
  }

  /** The line of every row, in order. */
  function DataRowLines(rows: seq<DataSet>, n: nat, W: nat): (lines: seq<string>)
    requires W % 2 == 0 && HasColumns(rows, n) && Fits(rows, W)
    ensures |lines| == |rows|
    ensures forall i | 0 <= i < |rows| :: lines[i] == DataRowLine(rows[i], n, W)
  {
    if |rows| == 0 then [] else [DataRowLine(rows[0], n, W)] + DataRowLines(rows[1..], n, W)
  }

  /**
    The body as the data loop emits it: for row i its row line, then a
    separator only when i is not the last row.
   */
  function BodyLines(rows: seq<DataSet>, n: nat, W: nat): (lines: seq<string>)
    requires W % 2 == 0 && HasColumns(rows, n) && Fits(rows, W)
    ensures |lines| == if |rows| == 0 then 0 else 2 * |rows| - 1
  {
    Interleave(DataRowLines(rows, n, W), Border(Middle, n, W))
  }

  /** Line 2i of the body is row i and every odd line is a separator: 2N-1 lines for N rows. */
  lemma BodyLinesLayout(rows: seq<DataSet>, n: nat, W: nat)
    requires W % 2 == 0 && HasColumns(rows, n) && Fits(rows, W)
    ensures |BodyLines(rows, n, W)| == if |rows| == 0 then 0 else 2 * |rows| - 1
    ensures forall j | 0 <= j < |BodyLines(rows, n, W)| ::
              BodyLines(rows, n, W)[j] == if j % 2 == 0 then DataRowLine(rows[j / 2], n, W) else Border(Middle, n, W)
  {
    InterleaveLayout(DataRowLines(rows, n, W), Border(Middle, n, W));
  }

  /**
    The field width of a table: even, at least two more than the measured
    width, and so strictly longer than every name and every value it shows.
   */
  function TableFieldWidth(data: seq<DataSet>): (W: nat)
    ensures W % 2 == 0 && Fits(data, W)
    ensures MaxColumnSize(data) + 2 <= W
    ensures HasDataSets(data) ==> forall k | 0 <= k < |data[0].columnNames| :: |data[0].columnNames[k]| < W
    ensures forall i, j | 0 <= i < |data| && 0 <= j < |data[i].values| :: |data[i].values[j]| < W
  {
    FieldWidth(MaxColumnSize(data))
  }

  /** Every line of a grid of n columns with field width W, in output order. */
  function Grid(names: seq<string>, rows: seq<DataSet>, n: nat, W: nat): (lines: seq<string>)
    requires W % 2 == 0 && HasColumns(rows, n) && Fits(rows, W)
    requires forall k | 0 <= k < |names| :: |names[k]| <= W
    ensures |rows| > 0 ==> |lines| == 2 * |rows| + 3
  {
    Assemble(Border(Top, n, W), HeaderLine(names, W), Border(Middle, n, W), DataRowLines(rows, n, W), Border(Bottom, n, W))
  }

  /** Every line of the table's grid, in output order. */
  function GridLines(data: seq<DataSet>): (lines: seq<string>)
    requires HasDataSets(data) && Aligned(data)
    ensures |lines| == 2 * |data| + 3
  {
    Grid(data[0].columnNames, data, ColumnCount(data), TableFieldWidth(data))
  }

  /** Top border, header row and the header separator, each newline-terminated. */
  function HeaderOfTheTable(data: seq<DataSet>): string
    requires HasDataSets(data)
  {
    var n := ColumnCount(data);
    var W := TableFieldWidth(data);
    Unlines([Border(Top, n, W), HeaderLine(data[0].columnNames, W), Border(Middle, n, W)])
  }

  /** The body rows with separators between them, then the bottom border. */
  function StringTableData(data: seq<DataSet>): string
    requires Aligned(data)
  {
    var n := ColumnCount(data);
    var W := TableFieldWidth(data);
    Unlines(BodyLines(data, n, W) + [Border(Bottom, n, W)])
  }

  /** The empty-table message: it quotes the table name after "║ Table '" and is framed by '║'. */
  function EmptyTableMessage(tableName: string): (m: string)
    ensures |m| == |tableName| + 39
    ensures m[0] == VERTICAL && m[|m| - 1] == VERTICAL
    ensures m[9..9 + |tableName|] == tableName
  {
    "║ Table '" + tableName + "' is empty or does not exist ║"
  }

  /** The empty box, built as `getEmptyTable` appends it. */
  function EmptyTable(tableName: string): string
  {
    var message := EmptyTableMessage(tableName);
    ['╔'] + Repeat(HORIZONTAL, |message| - 2) + "╗\n"
      + message + "\n"
      + ['╚'] + Repeat(HORIZONTAL, |message| - 2) + "╝\n"
  }

  /**
    The three lines of the empty box: the message framed by a one-field top
    and bottom border as wide as the message itself.
   */
  function EmptyBoxLines(tableName: string): (lines: seq<string>)
    ensures |lines| == 3
    ensures forall k | 0 <= k < 3 :: |lines[k]| == |EmptyTableMessage(tableName)|
  {
    var message := EmptyTableMessage(tableName);
    var W := |message| - 2;
    assert Bar(1, W) == W + 1;
    [Border(Top, 1, W), message, Border(Bottom, 1, W)]
  }

  /** The whole rendered table. */
  function TableString(tableName: string, data: seq<DataSet>): string
    requires Renderable(data)
  {
    if MaxColumnSize(data) == 0 then EmptyTable(tableName)
    else HeaderOfTheTable(data) + StringTableData(data)
  }
}
