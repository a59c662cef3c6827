# Box-drawn table renderer of the `print` command

This project models, in Dafny, the `print` command of a small command-line
database tool (`Print.java`). The command accepts inputs that start with
`"print "`. It checks that the split command holds exactly one parameter, the
table name. It then renders the rows the database returns for that table as
a box-drawn text table:

- One column width is measured over the first row's column names and every
  value of every row.
- That width is widened to an even field width (+2 when even, +3 when odd).
- Every cell is centred in the field, with the odd space going to the right.
- The lines are emitted in order: top border `╔═╦═╗`, the header row, a
  separator `╠═╬═╣`, the data rows with a separator between neighbours, and
  the bottom border `╚═╩═╝`.
- When the measured width is 0, the output is instead a three-line box
  saying the table is empty or does not exist.

Modules, in dependency order:

- `Text` (text.dfy): repetition, occurrence counting, and the
  newline-terminated line format with its inverse `Lines`. It also holds the
  generic assembly of a boxed listing (`Interleave`, `Assemble`).
- `Numerals` (numerals.dfy): the decimal text Java produces for an `int` in
  string concatenation, and a parser that reads it back.
- `Layout` (layout.dfy): centering, and the one line shape `Frame` that
  border lines and row lines share. It proves where every glyph and every
  cell of such a line sits (`Bar(k, W)` is the column of glyph k, equal to
  k·(W+1)).
- `Table` (table.dfy): the width measurement, the field width, the grid
  lines, the empty box and the whole rendered string `TableString`.
- `TableProperties` (table_properties.dfy): properties of the whole output:
  - it splits back into exactly the emitted lines;
  - it has 3 or 2N+3 newlines;
  - the lines come in the right order;
  - the grid is rectangular, with a vertical stroke at every column
    boundary.
- `PrintCommand` (command.dfy): the prefix test, the parameter-count check
  and the processing of a split command.
- `Scenarios` (scenarios.dfy): concrete renderings of a two-column table,
  the empty-table message and the two wrong-parameter-count failures.

The input rows are `DataSet(columnNames, values)`, with the values already
rendered as text. The database is a function parameter `fetch` of
`Process`: it stands for the rows a table name yields, and none for a table
that does not exist.

Three behaviours of the code are easy to misread:

- The empty box is emitted exactly when the measured width is 0. A table
  that has rows but no column names, and some non-empty value, still takes
  the grid path.
- On that path, every border emits its last run of `═` unconditionally, so
  a border of a 0-column grid is one field wide while its row lines are a
  lone `║`. That is why rectangularity is stated for at least one column.
- The header line is built by its own loop (`║` before every name, one more
  `║` at the end). `Layout.HeaderLineIsRowLine` proves it is the same line
  the data-row loop builds.

## Model

| member | source | states |
|---|---|---|
| PrintCommand.CanProcessPrefixed | src/main/java/com/epam/engx/cleancode/finaltask/task1/Print.java:30-32 | every input made of "print " followed by anything is accepted |
| PrintCommand.CanProcessOnlyPrefixed | src/main/java/com/epam/engx/cleancode/finaltask/task1/Print.java:30-32 | an accepted input is "print " followed by the rest of it (the converse direction) |
| PrintCommand.ValidateCommandLength | src/main/java/com/epam/engx/cleancode/finaltask/task1/Print.java:43-47 | the check passes iff there are exactly two tokens; otherwise the message is the fixed text followed by a canonical decimal numeral (no leading zero, no "-0") that reads back as the token count minus one |
| PrintCommand.Process | src/main/java/com/epam/engx/cleancode/finaltask/task1/Print.java:34-41 | a split command fails iff it does not have exactly two tokens, with the count check's message; otherwise the result is the rendering of the table the second token names |
| Numerals.IntToString | src/main/java/com/epam/engx/cleancode/finaltask/task1/Print.java:45 | the decimal text of an int is a canonical numeral (optional '-', at least one digit, no leading zero, no "-0"), negative exactly when it starts with '-' |
| Numerals.NatToStringOfParse | src/main/java/com/epam/engx/cleancode/finaltask/task1/Print.java:45 | digits without a leading zero are exactly the decimal text of the number they denote |
| Numerals.CanonicalNumeralUnique | src/main/java/com/epam/engx/cleancode/finaltask/task1/Print.java:45 | a canonical numeral is the decimal text of its own value, so the count in the message is determined character for character |
| Numerals.ParseIntToString | src/main/java/com/epam/engx/cleancode/finaltask/task1/Print.java:45 | the decimal text of an integer reads back as that integer |
| Table.MaxLength | src/main/java/com/epam/engx/cleancode/finaltask/task1/Print.java:78-82 | the longest name length bounds every name and is attained by one of them, or is 0 |
| Table.MaxValueLength | src/main/java/com/epam/engx/cleancode/finaltask/task1/Print.java:83-91 | the longest value length bounds every value of every row and is attained by one, or is 0 |
| Table.MaxColumnSize | src/main/java/com/epam/engx/cleancode/finaltask/task1/Print.java:74-94 | 0 without rows; otherwise at least every first-row name and every value of every row (past the column count too), and equal to one of those lengths or 0 |
| Table.WidthZeroIffBlank | src/main/java/com/epam/engx/cleancode/finaltask/task1/Print.java:74-94 | the measured width is 0 exactly when every first-row name and every value is empty |
| Table.FieldWidth | src/main/java/com/epam/engx/cleancode/finaltask/task1/Print.java:101-105 | the field width is even and lies between width+2 and width+3 |
| Table.TableFieldWidth | src/main/java/com/epam/engx/cleancode/finaltask/task1/Print.java:166-174 | a table's field width is even and at least the measured width plus two, so every column name and every value is strictly shorter than it |
| Layout.Center | src/main/java/com/epam/engx/cleancode/finaltask/task1/Print.java:111-130 | a centred cell is exactly W wide and holds the text after (W-L)/2 spaces with spaces after it; the trailing padding is the leading one or one more, exactly one more iff L is odd |
| Layout.CenterAll | src/main/java/com/epam/engx/cleancode/finaltask/task1/Print.java:110-131 | every text of a row is centred in the same field width, in order |
| Layout.CenterAddsOnlySpaces | src/main/java/com/epam/engx/cleancode/finaltask/task1/Print.java:189-206 | centering adds only spaces: a character other than space that is not in the text is not in the cell |
| Layout.BarIsProduct | src/main/java/com/epam/engx/cleancode/finaltask/task1/Print.java:133-145 | the k-th glyph of a line of W-wide fields sits at column k*(W+1) |
| Layout.FrameGlyphs | src/main/java/com/epam/engx/cleancode/finaltask/task1/Print.java:147-157 | a line of n W-wide cells is 1+n(W+1) long, with the left glyph first, the separator at boundaries 1..n-1 and the right glyph at boundary n |
| Layout.FrameCells | src/main/java/com/epam/engx/cleancode/finaltask/task1/Print.java:107-132 | cell k of such a line fills the W columns right after glyph k |
| Layout.Border | src/main/java/com/epam/engx/cleancode/finaltask/task1/Print.java:175-185 | a border has the level's left glyph, junctions between the runs and the right glyph at the last boundary, with a run of W '═' in every field; its length is 1+max(n,1)(W+1) |
| Layout.RowLine | src/main/java/com/epam/engx/cleancode/finaltask/task1/Print.java:107-132 | a row line is 1+n(W+1) long, has '║' at every column boundary and the k-th centred text in field k |
| Layout.HeaderLineIsRowLine | src/main/java/com/epam/engx/cleancode/finaltask/task1/Print.java:186-208 | the header loop builds the same line as the data-row loop does for the column names |
| Layout.RowLineBarCount | src/main/java/com/epam/engx/cleancode/finaltask/task1/Print.java:107-132 | a row line of n cells holds exactly n+1 '║' when no text holds one |
| Layout.BorderHasNoNewline | src/main/java/com/epam/engx/cleancode/finaltask/task1/Print.java:211-222 | a border line holds no newline of its own |
| Layout.RowLineHasNoNewline | src/main/java/com/epam/engx/cleancode/finaltask/task1/Print.java:107-132 | a row line holds a newline only if one of its texts does |
| Table.DataRowLines | src/main/java/com/epam/engx/cleancode/finaltask/task1/Print.java:107-132 | one row line per row, in row order, built from the first n values of that row |
| Table.BodyLines | src/main/java/com/epam/engx/cleancode/finaltask/task1/Print.java:107-146 | the body of N rows has 2N-1 lines (none for no rows) |
| Table.BodyLinesLayout | src/main/java/com/epam/engx/cleancode/finaltask/task1/Print.java:107-146 | body line 2i is row i and every odd line is a '╠═╬═╣' separator, so separators appear only between rows |
| Text.InterleaveLayout | src/main/java/com/epam/engx/cleancode/finaltask/task1/Print.java:133-145 | interleaving puts the items at even positions, in order, and the separator at odd positions |
| Table.Grid | src/main/java/com/epam/engx/cleancode/finaltask/task1/Print.java:166-237 | a grid of N > 0 rows has 2N+3 lines |
| Table.GridLines | src/main/java/com/epam/engx/cleancode/finaltask/task1/Print.java:49-56 | the table's grid has 2N+3 lines for N rows |
| Table.EmptyTableMessage | src/main/java/com/epam/engx/cleancode/finaltask/task1/Print.java:59 | the message is 39 characters longer than the table name, starts and ends with '║' and quotes the name from position 9 on |
| Table.EmptyBoxLines | src/main/java/com/epam/engx/cleancode/finaltask/task1/Print.java:58-72 | the empty box has three lines, each as long as the message |
| TableProperties.EmptyTableIsBox | src/main/java/com/epam/engx/cleancode/finaltask/task1/Print.java:58-72 | the box as `getEmptyTable` appends it is the one-field top border, the message and the one-field bottom border, each newline-terminated |
| TableProperties.GridTableIsGrid | src/main/java/com/epam/engx/cleancode/finaltask/task1/Print.java:49-56 | with a nonzero width, header plus body is the grid's lines, each newline-terminated |
| TableProperties.RenderedLines | src/main/java/com/epam/engx/cleancode/finaltask/task1/Print.java:49-56 | the output splits back into exactly the three box lines (width 0) or the grid lines (otherwise) |
| TableProperties.RenderedLineCount | src/main/java/com/epam/engx/cleancode/finaltask/task1/Print.java:49-56 | the output holds 3 newlines for the empty box and 2N+3 for N rows |
| TableProperties.GridOrder | src/main/java/com/epam/engx/cleancode/finaltask/task1/Print.java:166-237 | the grid is top border, header row, separator, then row i at line 3+2i with a separator after every row but the last, and the bottom border last |
| TableProperties.GridLinesOrder | src/main/java/com/epam/engx/cleancode/finaltask/task1/Print.java:96-158 | the table's grid lines come in that order, built from its first-row names, its rows and its field width |
| TableProperties.BorderIsFramed | src/main/java/com/epam/engx/cleancode/finaltask/task1/Print.java:175-185 | a border of n >= 1 columns is 1+n(W+1) long with a vertical-stroke glyph at every column boundary |
| TableProperties.DataRowLineIsFramed | src/main/java/com/epam/engx/cleancode/finaltask/task1/Print.java:107-132 | a data row line has the same width and boundaries as the borders |
| TableProperties.RowLineIsFramed | src/main/java/com/epam/engx/cleancode/finaltask/task1/Print.java:186-208 | the header line has the same width and boundaries as the borders |
| TableProperties.GridIsRectangular | src/main/java/com/epam/engx/cleancode/finaltask/task1/Print.java:96-237 | every line of a grid with n >= 1 named columns has length 1+n(W+1) and a vertical-stroke glyph at each of the n+1 boundaries |
| TableProperties.TableGridIsRectangular | src/main/java/com/epam/engx/cleancode/finaltask/task1/Print.java:49-56 | the table's grid is rectangular when the first row names at least one column |
| Text.LinesOfUnlines | src/main/java/com/epam/engx/cleancode/finaltask/task1/Print.java:64-70 | newline-terminated lines without newlines of their own split back into exactly those lines |
| Text.UnlinesNewlineCount | src/main/java/com/epam/engx/cleancode/finaltask/task1/Print.java:64-70 | newline-terminating lines that hold none adds exactly one newline per line |
| Scenarios.UsersWidths | src/main/java/com/epam/engx/cleancode/finaltask/task1/Print.java:74-105 | rows (id, name) = (1, Bob), (2, Alice) measure width 5 and field width 8 |
| Scenarios.UsersHeader | src/main/java/com/epam/engx/cleancode/finaltask/task1/Print.java:186-208 | their header line is "║   id   ║  name  ║" |
| Scenarios.OddValueCell | src/main/java/com/epam/engx/cleancode/finaltask/task1/Print.java:121-130 | "Bob" in a field of 8 is two spaces, Bob, three spaces |
| Scenarios.UsersGridLines | src/main/java/com/epam/engx/cleancode/finaltask/task1/Print.java:96-237 | the users table's grid is exactly the seven lines "╔════════╦════════╗", "║   id   ║  name  ║", "╠════════╬════════╣", "║   1    ║  Bob   ║", "╠════════╬════════╣", "║   2    ║ Alice  ║", "╚════════╩════════╝" |
| Scenarios.UsersTable | src/main/java/com/epam/engx/cleancode/finaltask/task1/Print.java:49-56 | the rendered users table is those seven lines, each newline-terminated |
| Scenarios.EmptyBoxScenario | src/main/java/com/epam/engx/cleancode/finaltask/task1/Print.java:58-72 | the box for table "empty" is a 42-run top border, the 44-character message and a 42-run bottom border |
| Scenarios.EmptyTableBox | src/main/java/com/epam/engx/cleancode/finaltask/task1/Print.java:49-56 | the table "empty" with no rows renders as those three lines, each newline-terminated |
| Scenarios.EmptyTableScenario | src/main/java/com/epam/engx/cleancode/finaltask/task1/Print.java:59 | the message for table "empty" is "║ Table 'empty' is empty or does not exist ║", 44 characters |
| Scenarios.MissingTableName | src/main/java/com/epam/engx/cleancode/finaltask/task1/Print.java:43-47 | "print" alone fails with "... Expected 1, but is 0" |
| Scenarios.ExtraParameter | src/main/java/com/epam/engx/cleancode/finaltask/task1/Print.java:43-47 | "print users extra" fails with "... Expected 1, but is 2" |

## Left out

- The database and the view are collaborators doing I/O. `fetch` is a
  parameter of `Process`, and the written string is its result.
- `String.valueOf` on arbitrary objects is not modelled: values are
  already-rendered text.
- `String.split(" ")` is not modelled: `Process` takes the tokens. This
  includes Java dropping trailing empty tokens.
- The mutable `tableName` field is not modelled: the name is passed to
  `TableString` as a parameter.
- The `╚…╝` else-branch of the header builder (Print.java lines 223-235) is
  not modelled. It is dead, because a nonzero width needs at least one row.
  `Table.HeaderOfTheTable` requires a row.
- Java `int` overflow of lengths and counts is not modelled; lengths are
  unbounded naturals.
- UTF-16 code units and display widths are not modelled: every character
  is one column. All glyphs are single characters of the Basic Multilingual
  Plane.
- PrintCommand.Process: requires the fetched rows to be renderable (every
  row has a value for every column, unless the width is 0). Where Java would
  throw IndexOutOfBoundsException from `values.get(column)`, the model
  excludes the input instead of modelling the exception.
- Table.TableString: requires the same, for the same reason.
- TableProperties.GridIsRectangular: stated only for at least one column,
  with the header naming exactly the counted columns. With no columns the
  borders still carry one field of `═`, while the row lines are a lone `║`.
- TableProperties.RenderedLines: stated for names and values without
  newlines. A newline inside a value would split a row line in two.
- TableProperties.RenderedLineCount: stated for names and values without
  newlines, for the same reason: a newline inside a value or the table name
  adds to the count.
