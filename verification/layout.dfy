/**
  Line building blocks of the box-drawn table: cell centering, the border
  lines of the three levels and the row lines. Both kinds of line share one
  shape, `Frame`: a glyph, then every cell followed by a glyph. With field
  width W, glyph k of such a line sits at column k*(W+1) and cell k fills the
  W columns after it, which is what makes the grid line up.
 */
module Layout {
  import opened Text

  const VERTICAL: char := '║'
  const HORIZONTAL: char := '═'

  /** The three border levels and their glyph triples (left, junction, right). */
  datatype Level = Top | Middle | Bottom
  {
    function LeftGlyph(): char
    {
      match this
      case Top => '╔'
      case Middle => '╠'
      case Bottom => '╚'
    }

    function Junction(): char
    {
      match this
      case Top => '╦'
      case Middle => '╬'
      case Bottom => '╩'
    }

    function RightGlyph(): char
    {
      match this
      case Top => '╗'
      case Middle => '╣'
      case Bottom => '╝'
    }
  }

  /** Spaces before a text of length L in a field of width W (Java int division, W >= L). */
  function LeftPad(W: nat, L: nat): nat
    requires L <= W
  {
    (W - L) / 2
  }

  predicate IsLengthEven(L: nat)
  {
    L % 2 == 0
  }

  /** Spaces after it: the same count for an even L, one more for an odd L. */
  function RightPad(W: nat, L: nat): nat
    requires L <= W
  {
    if IsLengthEven(L) then (W - L) / 2 else (W - L) / 2 + 1
  }

  /**
    A cell: `text` centred in a field of even width W, the odd space going to
    the right. The result is exactly W wide, holds `text` at the left padding,
    spaces elsewhere, and its trailing padding exceeds the leading one by at
    most one, by exactly one when the text length is odd.
   */
  function Center(text: string, W: nat): (r: string)
    requires |text| <= W && W % 2 == 0
    ensures |r| == W
    ensures r[LeftPad(W, |text|)..LeftPad(W, |text|) + |text|] == text
    ensures forall i | 0 <= i < LeftPad(W, |text|) :: r[i] == ' '
    ensures forall i | LeftPad(W, |text|) + |text| <= i < W :: r[i] == ' '
    ensures var trailing := W - LeftPad(W, |text|) - |text|;
            && LeftPad(W, |text|) <= trailing <= LeftPad(W, |text|) + 1
            && (trailing == LeftPad(W, |text|) <==> |text| % 2 == 0)
  {
    Repeat(' ', LeftPad(W, |text|)) + text + Repeat(' ', RightPad(W, |text|))
  }

  /** Centres every text of a row in the same field width. */
  function CenterAll(texts: seq<string>, W: nat): (cells: seq<string>)
    requires W % 2 == 0
    requires forall k | 0 <= k < |texts| :: |texts[k]| <= W
    ensures |cells| == |texts|
    ensures forall k | 0 <= k < |texts| :: cells[k] == Center(texts[k], W)
  {
    if |texts| == 0 then [] else [Center(texts[0], W)] + CenterAll(texts[1..], W)
  }

  /**
    `left`, then each cell followed by `sep`, except the last cell which is
    followed by `right`. With no cells it is `left` alone.
   */
  function Frame(left: char, cells: seq<string>, sep: char, right: char): string
    decreases |cells|
  {
    if |cells| == 0 then [left]
    else if |cells| == 1 then [left] + cells[0] + [right]
    else [left] + cells[0] + Frame(sep, cells[1..], sep, right)
  }

  /**
    Column of the k-th glyph in a line whose fields are W wide: each earlier
    glyph is followed by its W-wide field.
   */
  function Bar(k: nat, W: nat): nat
  {
    if k == 0 then 0 else Bar(k - 1, W) + W + 1
  }

  /** The closed form: glyph k sits at column k*(W+1). */
  lemma {:induction false} BarIsProduct(k: nat, W: nat)
    ensures Bar(k, W) == k * (W + 1)
  {
    if k > 0 {
      BarIsProduct(k - 1, W);
      assert (k - 1) * (W + 1) + W + 1 == k * (W + 1);
    }
  }

  /** `line` holds glyph `g` at the column of glyph k. */
  predicate GlyphAt(line: string, k: nat, W: nat, g: char)
  {
    Bar(k, W) < |line| && line[Bar(k, W)] == g
  }

  /** `line` holds `cell` in the W columns right after glyph k. */
  predicate CellAt(line: string, k: nat, W: nat, cell: string)
  {
    Bar(k, W) + 1 + W <= |line| && line[Bar(k, W) + 1..Bar(k, W) + 1 + W] == cell
  }

  lemma ShiftGlyph(head: string, tail: string, k: nat, W: nat, g: char)
    requires |head| == W + 1 && GlyphAt(tail, k, W, g)
    ensures GlyphAt(head + tail, k + 1, W, g)
  {
  }

  lemma ShiftCell(head: string, tail: string, k: nat, W: nat, cell: string)
    requires |head| == W + 1 && CellAt(tail, k, W, cell)
    ensures CellAt(head + tail, k + 1, W, cell)
  {
    var lo := Bar(k + 1, W) + 1;
    assert (head + tail)[lo..lo + W] == tail[lo - |head|..lo + W - |head|];
  }

  /** Where the glyphs of a frame of W-wide cells sit, and how long it is. */
  lemma {:induction false} FrameGlyphs(left: char, cells: seq<string>, sep: char, right: char, W: nat)
    requires forall k | 0 <= k < |cells| :: |cells[k]| == W
    ensures |Frame(left, cells, sep, right)| == 1 + Bar(|cells|, W)
    ensures GlyphAt(Frame(left, cells, sep, right), 0, W, left)
    ensures forall k | 1 <= k < |cells| :: GlyphAt(Frame(left, cells, sep, right), k, W, sep)
    ensures |cells| > 0 ==> GlyphAt(Frame(left, cells, sep, right), |cells|, W, right)
    decreases |cells|
  {
    if |cells| > 1 {
      var head := [left] + cells[0];
      var tail := Frame(sep, cells[1..], sep, right);
      FrameGlyphs(sep, cells[1..], sep, right, W);
      assert Frame(left, cells, sep, right) == head + tail;
      forall k | 1 <= k < |cells|
        ensures GlyphAt(head + tail, k, W, sep)
      {
        ShiftGlyph(head, tail, k - 1, W, sep);
      }
      ShiftGlyph(head, tail, |cells| - 1, W, right);
    }
  }

  /** Where the cells of a frame of W-wide cells sit: cell k right after glyph k. */
  lemma {:induction false} FrameCells(left: char, cells: seq<string>, sep: char, right: char, W: nat)
    requires forall k | 0 <= k < |cells| :: |cells[k]| == W
    ensures forall k | 0 <= k < |cells| :: CellAt(Frame(left, cells, sep, right), k, W, cells[k])
    decreases |cells|
  {
    var f := Frame(left, cells, sep, right);
    if |cells| == 1 {
      assert f[1..1 + W] == cells[0];
    } else if |cells| > 1 {
      var head := [left] + cells[0];
      var tail := Frame(sep, cells[1..], sep, right);
      FrameCells(sep, cells[1..], sep, right, W);
      assert f == head + tail;
      forall k | 0 <= k < |cells|
        ensures CellAt(f, k, W, cells[k])
      {
        if k == 0 {
          assert f[1..1 + W] == cells[0];
        } else {
          assert cells[1..][k - 1] == cells[k];
          ShiftCell(head, tail, k - 1, W, cells[k]);
        }
      }
    }
  }

  /** How many W-wide runs of '═' a border has: Java emits the last one unconditionally. */
  function RunCount(columnCount: nat): nat
  {
    if columnCount == 0 then 1 else columnCount
  }

  /**
    A border line of the given level: the left glyph, then RunCount runs of W
    '═' separated by the junction glyph, then the right glyph.
   */
  function Border(level: Level, columnCount: nat, W: nat): (r: string)
    ensures |r| == 1 + Bar(RunCount(columnCount), W)
    ensures GlyphAt(r, 0, W, level.LeftGlyph())
    ensures forall k | 1 <= k < RunCount(columnCount) :: GlyphAt(r, k, W, level.Junction())
    ensures GlyphAt(r, RunCount(columnCount), W, level.RightGlyph())
    ensures forall k | 0 <= k < RunCount(columnCount) :: CellAt(r, k, W, Repeat(HORIZONTAL, W))
  {
    var runs := seq(RunCount(columnCount), _ => Repeat(HORIZONTAL, W));
    FrameGlyphs(level.LeftGlyph(), runs, level.Junction(), level.RightGlyph(), W);
    FrameCells(level.LeftGlyph(), runs, level.Junction(), level.RightGlyph(), W);
    var r := Frame(level.LeftGlyph(), runs, level.Junction(), level.RightGlyph());
    assert forall k | 0 <= k < |runs| :: CellAt(r, k, W, Repeat(HORIZONTAL, W)) by {
      forall k | 0 <= k < |runs|
        ensures CellAt(r, k, W, Repeat(HORIZONTAL, W))
      {
        assert runs[k] == Repeat(HORIZONTAL, W);
      }
    }
    r
  }

  /**
    A data row line: '║', then every text centred in W columns followed by '║'.
    Every glyph position holds '║' and cell k holds the k-th centred text.
   */
  function RowLine(texts: seq<string>, W: nat): (r: string)
    requires W % 2 == 0
    requires forall k | 0 <= k < |texts| :: |texts[k]| <= W
    ensures |r| == 1 + Bar(|texts|, W)
    ensures forall k | 0 <= k <= |texts| :: GlyphAt(r, k, W, VERTICAL)
    ensures forall k | 0 <= k < |texts| :: CellAt(r, k, W, Center(texts[k], W))
  {
    var cells := CenterAll(texts, W);
    FrameGlyphs(VERTICAL, cells, VERTICAL, VERTICAL, W);
    FrameCells(VERTICAL, cells, VERTICAL, VERTICAL, W);
    Frame(VERTICAL, cells, VERTICAL, VERTICAL)
  }

  /** The header line as the header loop builds it: '║' before every name, one more '║' at the end. */
  function HeaderLine(names: seq<string>, W: nat): string
    requires W % 2 == 0
    requires forall k | 0 <= k < |names| :: |names[k]| <= W
  {
    if |names| == 0 then [VERTICAL] else [VERTICAL] + Center(names[0], W) + HeaderLine(names[1..], W)
  }

  lemma FrameOfVertical(cells: seq<string>)
    requires |cells| > 0
    ensures Frame(VERTICAL, cells, VERTICAL, VERTICAL)
         == [VERTICAL] + cells[0] + Frame(VERTICAL, cells[1..], VERTICAL, VERTICAL)
  {
  }

  /** The header loop and the data-row loop produce the same shape of line. */
  lemma {:induction false} HeaderLineIsRowLine(names: seq<string>, W: nat)
    requires W % 2 == 0
    requires forall k | 0 <= k < |names| :: |names[k]| <= W
    ensures HeaderLine(names, W) == RowLine(names, W)
    decreases |names|
  {
    if |names| > 0 {
      HeaderLineIsRowLine(names[1..], W);
      var cells := CenterAll(names, W);
      assert cells[1..] == CenterAll(names[1..], W);
      FrameOfVertical(cells);
    }
  }

  /** Centering adds spaces only: a glyph absent from the text is absent from the cell. */
  lemma CenterAddsOnlySpaces(text: string, W: nat, g: char)
    requires |text| <= W && W % 2 == 0
    requires g != ' ' && g !in text
    ensures g !in Center(text, W)
  {
    var lo := Repeat(' ', LeftPad(W, |text|));
    var hi := Repeat(' ', RightPad(W, |text|));
    assert g !in lo && g !in hi;
    assert Center(text, W) == lo + text + hi;
  }

  /** Number of '║' in a row line: one more than the number of cells, when no text holds one. */
  lemma {:induction false} RowLineBarCount(texts: seq<string>, W: nat)
    requires W % 2 == 0
    requires forall k | 0 <= k < |texts| :: |texts[k]| <= W && VERTICAL !in texts[k]
    ensures Count(RowLine(texts, W), VERTICAL) == |texts| + 1
    decreases |texts|
  {
    HeaderLineIsRowLine(texts, W);
    if |texts| > 0 {
      RowLineBarCount(texts[1..], W);
      HeaderLineIsRowLine(texts[1..], W);
      var c := Center(texts[0], W);
      CenterAddsOnlySpaces(texts[0], W, VERTICAL);
      CountConcat([VERTICAL], c, VERTICAL);
      CountConcat([VERTICAL] + c, HeaderLine(texts[1..], W), VERTICAL);
    }
  }

  /** A character that is none of the frame's glyphs and in none of its cells is absent from it. */
  lemma {:induction false} FrameAvoids(left: char, cells: seq<string>, sep: char, right: char, c: char)
    requires c != left && c != sep && c != right
    requires forall k | 0 <= k < |cells| :: c !in cells[k]
    ensures c !in Frame(left, cells, sep, right)
    decreases |cells|
  {
    if |cells| > 1 {
      FrameAvoids(sep, cells[1..], sep, right, c);
    }
  }

  /** Border lines consist of glyphs and '═' only, so they hold no newline. */
  lemma BorderHasNoNewline(level: Level, columnCount: nat, W: nat)
    ensures NoNewline(Border(level, columnCount, W))
  {
    var runs := seq(RunCount(columnCount), _ => Repeat(HORIZONTAL, W));
    FrameAvoids(level.LeftGlyph(), runs, level.Junction(), level.RightGlyph(), '\n');
  }

  /** A row line holds a newline only if one of its texts does. */
  lemma RowLineHasNoNewline(texts: seq<string>, W: nat)
    requires W % 2 == 0
    requires forall k | 0 <= k < |texts| :: |texts[k]| <= W
    requires AllNoNewline(texts)
    ensures NoNewline(RowLine(texts, W))
  {
    var cells := CenterAll(texts, W);
    forall k | 0 <= k < |cells|
      ensures '\n' !in cells[k]
    {
      CenterAddsOnlySpaces(texts[k], W, '\n');
    }
    FrameAvoids(VERTICAL, cells, VERTICAL, VERTICAL, '\n');
  }
}
