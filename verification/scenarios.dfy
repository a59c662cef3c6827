/**
  Concrete renderings: a two-column table, an empty table and the two ways a
  command can carry the wrong number of parameters.
 */
module Scenarios {
  import opened Text
  import opened Layout
  import opened Table
  import opened PrintCommand
  import opened TableProperties

  function Users(): seq<DataSet>
  {
    [DataSet(["id", "name"], ["1", "Bob"]), DataSet(["id", "name"], ["2", "Alice"])]
  }

  /** "Alice" is the longest text, so the width is 5 and the field width 8. */
  lemma UsersWidths()
    ensures MaxColumnSize(Users()) == 5
    ensures TableFieldWidth(Users()) == 8
  {
    var data := Users();
    assert |data[1].values[1]| == 5;
    assert MaxColumnSize(data) >= 5;
  }

  lemma CenterId()
    ensures Center("id", 8) == "   id   "
  {
    assert Repeat(' ', 3) == "   ";
  }

  lemma CenterName()
    ensures Center("name", 8) == "  name  "
  {
    assert Repeat(' ', 2) == "  ";
  }

  /** "id" gets three spaces on each side, "name" two. */
  lemma UsersHeader()
    ensures HeaderLine(["id", "name"], 8) == "║   id   ║  name  ║"
  {
    CenterId();
    CenterName();
    assert ["id", "name"][1..][1..] == [];
  }

  /** An odd-length value puts its extra space on the right. */
  lemma OddValueCell()
    ensures Center("Bob", 8) == "  Bob   "
  {
  }

  lemma EmptyTableScenario()
    ensures EmptyTableMessage("empty") == "║ Table 'empty' is empty or does not exist ║"
    ensures |EmptyTableMessage("empty")| == 44
  {
    MessageText();
  }

  lemma MessageText()
    ensures "║ Table '" + "empty" + "' is empty or does not exist ║" == "║ Table 'empty' is empty or does not exist ║"
  {
    assert "║ Table '" + "empty" == "║ Table 'empty";
  }

  /** "print" alone names no table. */
  lemma MissingTableName(fetch: string -> seq<DataSet>)
    ensures Process(["print"], fetch) == Failure("incorrect number of parameters. Expected 1, but is 0")
  {
  }

  /** "print users extra" names one token too many. */
  lemma ExtraParameter(fetch: string -> seq<DataSet>)
    ensures Process(["print", "users", "extra"], fetch) == Failure("incorrect number of parameters. Expected 1, but is 2")
  {
  }

  /** Eight '═', the run of every field of the users table. */
  lemma Run8()
    ensures Repeat(HORIZONTAL, 8) == "════════"
  {
  }

  /** A two-column border of the users table: left glyph, run, junction, run, right glyph. */
  lemma UsersBorder(level: Level)
    ensures Border(level, 2, 8) == [level.LeftGlyph()] + "════════" + [level.Junction()] + "════════" + [level.RightGlyph()]
  {
    var left, junction, right := level.LeftGlyph(), level.Junction(), level.RightGlyph();
    var runs := seq(RunCount(2), _ => Repeat(HORIZONTAL, 8));
    assert Border(level, 2, 8) == Frame(left, runs, junction, right);
    Run8();
    assert runs[1..] == ["════════"];
    assert Frame(junction, runs[1..], junction, right) == [junction] + "════════" + [right];
  }

  /** A two-column row line of field width 8: '║', cell, '║', cell, '║'. */
  lemma TwoCellLine(a: string, b: string)
    requires |a| <= 8 && |b| <= 8
    ensures RowLine([a, b], 8) == [VERTICAL] + Center(a, 8) + [VERTICAL] + Center(b, 8) + [VERTICAL]
  {
    HeaderLineIsRowLine([a, b], 8);
    assert [a, b][1..] == [b];
    assert [b][1..] == [];
    assert HeaderLine([b], 8) == [VERTICAL] + Center(b, 8) + [VERTICAL];
    assert HeaderLine([a, b], 8) == [VERTICAL] + Center(a, 8) + HeaderLine([b], 8);
  }

  lemma CenterDigits()
    ensures Center("1", 8) == "   1    "
    ensures Center("2", 8) == "   2    "
  {
    assert Repeat(' ', 3) == "   ";
    assert Repeat(' ', 4) == "    ";
  }

  lemma CenterAlice()
    ensures Center("Alice", 8) == " Alice  "
  {
    assert Repeat(' ', 1) == " ";
    assert Repeat(' ', 2) == "  ";
  }

  lemma UsersFirstRow()
    ensures DataRowLine(Users()[0], 2, 8) == "║   1    ║  Bob   ║"
  {
    assert Users()[0].values[..2] == ["1", "Bob"];
    TwoCellLine("1", "Bob");
    CenterDigits();
    OddValueCell();
  }

  lemma UsersSecondRow()
    ensures DataRowLine(Users()[1], 2, 8) == "║   2    ║ Alice  ║"
  {
    assert Users()[1].values[..2] == ["2", "Alice"];
    TwoCellLine("2", "Alice");
    CenterDigits();
    CenterAlice();
  }

  /** Where each piece of a two-row table lands in its grid. */
  lemma TwoRowGrid(data: seq<DataSet>)
    requires |data| == 2 && Aligned(data)
    ensures var n, W := ColumnCount(data), TableFieldWidth(data);
            GridLines(data) == [
              Border(Top, n, W),
              HeaderLine(data[0].columnNames, W),
              Border(Middle, n, W),
              DataRowLine(data[0], n, W),
              Border(Middle, n, W),
              DataRowLine(data[1], n, W),
              Border(Bottom, n, W)]
  {
    var n, W := ColumnCount(data), TableFieldWidth(data);
    var rows := DataRowLines(data, n, W);
    assert rows == [rows[0], rows[1]];
    AssembleTwo(Border(Top, n, W), HeaderLine(data[0].columnNames, W), Border(Middle, n, W), rows[0], rows[1], Border(Bottom, n, W));
  }

  lemma UsersTopBorder()
    ensures Border(Top, 2, 8) == "╔════════╦════════╗"
  {
    UsersBorder(Top);
  }

  lemma UsersMiddleBorder()
    ensures Border(Middle, 2, 8) == "╠════════╬════════╣"
  {
    UsersBorder(Middle);
  }

  lemma UsersBottomBorder()
    ensures Border(Bottom, 2, 8) == "╚════════╩════════╝"
  {
    UsersBorder(Bottom);
  }

  /** The users table has two columns of width 8, so its grid is the two-row shape at those values. */
  lemma UsersGridPieces()
    ensures GridLines(Users()) == [
              Border(Top, 2, 8),
              HeaderLine(["id", "name"], 8),
              Border(Middle, 2, 8),
              DataRowLine(Users()[0], 2, 8),
              Border(Middle, 2, 8),
              DataRowLine(Users()[1], 2, 8),
              Border(Bottom, 2, 8)]
  {
    TwoRowGrid(Users());
    UsersWidths();
    assert ColumnCount(Users()) == 2;
  }

  /** The grid of the users table, line by line. */
  lemma UsersGridLines()
    ensures GridLines(Users()) == [
              "╔════════╦════════╗",
              "║   id   ║  name  ║",
              "╠════════╬════════╣",
              "║   1    ║  Bob   ║",
              "╠════════╬════════╣",
              "║   2    ║ Alice  ║",
              "╚════════╩════════╝"]
  {
    UsersGridPieces();
    UsersTopBorder();
    UsersMiddleBorder();
    UsersBottomBorder();
    UsersHeader();
    UsersFirstRow();
    UsersSecondRow();
  }

  /** The users table as rendered: those seven lines, each newline-terminated. */
  lemma UsersTable()
    ensures TableString("users", Users()) == Unlines([
              "╔════════╦════════╗",
              "║   id   ║  name  ║",
              "╠════════╬════════╣",
              "║   1    ║  Bob   ║",
              "╠════════╬════════╣",
              "║   2    ║ Alice  ║",
              "╚════════╩════════╝"])
  {
    UsersWidths();
    GridTableIsGrid("users", Users());
    UsersGridLines();
  }

  /** A one-field border is the left glyph, one run of '═' and the right glyph. */
  lemma OneFieldBorder(level: Level, W: nat)
    ensures Border(level, 1, W) == [level.LeftGlyph()] + Repeat(HORIZONTAL, W) + [level.RightGlyph()]
  {
    var runs := seq(RunCount(1), _ => Repeat(HORIZONTAL, W));
    assert Border(level, 1, W) == Frame(level.LeftGlyph(), runs, level.Junction(), level.RightGlyph());
    assert runs == [Repeat(HORIZONTAL, W)];
  }

  lemma Run42()
    ensures Repeat(HORIZONTAL, 42) == "══════════════════════════════════════════"
  {
  }

  lemma EmptyBoxBorders()
    ensures Border(Top, 1, 42) == "╔══════════════════════════════════════════╗"
    ensures Border(Bottom, 1, 42) == "╚══════════════════════════════════════════╝"
  {
    OneFieldBorder(Top, 42);
    OneFieldBorder(Bottom, 42);
    Run42();
  }

  /** The three lines of the box for the table "empty". */
  lemma EmptyBoxScenario()
    ensures EmptyBoxLines("empty") == [
              "╔══════════════════════════════════════════╗",
              "║ Table 'empty' is empty or does not exist ║",
              "╚══════════════════════════════════════════╝"]
  {
    EmptyTableScenario();
    EmptyBoxBorders();
  }

  /** The table "empty" with no rows renders as that box, each line newline-terminated. */
  lemma EmptyTableBox()
    ensures TableString("empty", []) == Unlines([
              "╔══════════════════════════════════════════╗",
              "║ Table 'empty' is empty or does not exist ║",
              "╚══════════════════════════════════════════╝"])
  {
    EmptyTableIsBox("empty");
    EmptyBoxScenario();
  }
}
