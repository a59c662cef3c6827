/**
  Character-sequence helpers shared by the table renderer: repetition of one
  character, occurrence counting, and the newline-terminated line format the
  renderer emits together with its inverse.
 */
module Text {

  /** `n` copies of `c`, the string a `for` loop appending `c` n times builds. */
  function Repeat(c: char, n: nat): (r: string)
    ensures |r| == n
    ensures forall i | 0 <= i < n :: r[i] == c
  {
    if n == 0 then [] else [c] + Repeat(c, n - 1)
  }

  /** Number of occurrences of `c` in `s`. */
  function Count(s: string, c: char): (n: nat)
    ensures n <= |s|
    ensures n == 0 <==> c !in s
  {
    if |s| == 0 then 0
    else (if s[0] == c then 1 else 0) + Count(s[1..], c)
  }

  lemma {:induction false} CountConcat(a: string, b: string, c: char)
    ensures Count(a + b, c) == Count(a, c) + Count(b, c)
    decreases |a|
  {
    if |a| == 0 {
      assert a + b == b;
    } else {
      assert (a + b)[1..] == a[1..] + b;
      CountConcat(a[1..], b, c);
    }
  }

  /** Every line followed by a newline, the way the renderer appends "\n". */
  function Unlines(lines: seq<string>): string
  {
    if |lines| == 0 then [] else lines[0] + "\n" + Unlines(lines[1..])
  }

  predicate NoNewline(s: string)
  {
    '\n' !in s
  }

  predicate AllNoNewline(lines: seq<string>)
  {
    forall k | 0 <= k < |lines| :: NoNewline(lines[k])
  }

  lemma {:induction false} UnlinesAppend(a: seq<string>, b: seq<string>)
    ensures Unlines(a + b) == Unlines(a) + Unlines(b)
    decreases |a|
  {
    if |a| == 0 {
      assert a + b == b;
    } else {
      assert (a + b)[1..] == a[1..] + b;
      UnlinesAppend(a[1..], b);
    }
  }

  /** One newline per line, when no line holds a newline of its own. */
  lemma {:induction false} UnlinesNewlineCount(lines: seq<string>)
    requires AllNoNewline(lines)
    ensures Count(Unlines(lines), '\n') == |lines|
    decreases |lines|
  {
    if |lines| > 0 {
      UnlinesNewlineCount(lines[1..]);
      CountConcat(lines[0], "\n", '\n');
      CountConcat(lines[0] + "\n", Unlines(lines[1..]), '\n');
    }
  }

  /** Position of the first `c` in `s`, or |s| when there is none. */
  function IndexOf(s: string, c: char): (i: nat)
    ensures i <= |s|
    ensures i < |s| ==> s[i] == c
    ensures forall j | 0 <= j < i :: s[j] != c
  {
    if |s| == 0 then 0
    else if s[0] == c then 0
    else 1 + IndexOf(s[1..], c)
  }

  /** Splits text into its lines; a final line without a newline is kept. */
  function Lines(s: string): (lines: seq<string>)
    ensures AllNoNewline(lines)
    decreases |s|
  {
    if |s| == 0 then []
    else
      var i := IndexOf(s, '\n');
      if i == |s| then [s] else [s[..i]] + Lines(s[i + 1..])
  }

  /** The first newline of `a + "\n" + b` is the one after `a` when `a` has none. */
  lemma {:induction false} IndexOfNewlineAfter(a: string, b: string)
    requires NoNewline(a)
    ensures IndexOf(a + "\n" + b, '\n') == |a|
    decreases |a|
  {
    if |a| > 0 {
      assert (a + "\n" + b)[1..] == a[1..] + "\n" + b;
      IndexOfNewlineAfter(a[1..], b);
    }
  }

  /** `Lines` undoes `Unlines`: the emitted text splits back into exactly the lines emitted. */
  lemma {:induction false} LinesOfUnlines(lines: seq<string>)
    requires AllNoNewline(lines)
    ensures Lines(Unlines(lines)) == lines
    decreases |lines|
  {
    if |lines| > 0 {
      var head := lines[0];
      var rest := Unlines(lines[1..]);
      var s := head + "\n" + rest;
      IndexOfNewlineAfter(head, rest);
      assert s[..|head|] == head;
      assert s[|head| + 1..] == rest;
      LinesOfUnlines(lines[1..]);
    }
  }

  /** The items with `sep` between each two neighbours and nowhere else. */
  function Interleave(items: seq<string>, sep: string): (r: seq<string>)
    ensures |r| == if |items| == 0 then 0 else 2 * |items| - 1
  {
    if |items| <= 1 then items else [items[0], sep] + Interleave(items[1..], sep)
  }

  /** Even positions hold the items in order, odd positions the separator. */
  lemma {:induction false} InterleaveLayout(items: seq<string>, sep: string)
    ensures forall j | 0 <= j < |Interleave(items, sep)| ::
              Interleave(items, sep)[j] == if j % 2 == 0 then items[j / 2] else sep
    decreases |items|
  {
    if |items| > 1 {
      var rest := Interleave(items[1..], sep);
      InterleaveLayout(items[1..], sep);
      forall j | 2 <= j < |Interleave(items, sep)|
        ensures Interleave(items, sep)[j] == if j % 2 == 0 then items[j / 2] else sep
      {
        assert Interleave(items, sep)[j] == rest[j - 2];
        assert items[1..][(j - 2) / 2] == items[j / 2];
      }
    }
  }

  /**
    The lines of a boxed listing: top, header, separator, the items with the
    separator between neighbours, then bottom.
   */
  function Assemble(top: string, header: string, sep: string, items: seq<string>, bottom: string): (lines: seq<string>)
    ensures |lines| == 4 + (if |items| == 0 then 0 else 2 * |items| - 1)
  {
    [top, header, sep] + Interleave(items, sep) + [bottom]
  }

  /** Where each piece lands: item i at line 3+2i, separators on the even lines between the items. */
  lemma AssembleLayout(top: string, header: string, sep: string, items: seq<string>, bottom: string)
    requires |items| > 0
    ensures |Assemble(top, header, sep, items, bottom)| == 2 * |items| + 3
    ensures Assemble(top, header, sep, items, bottom)[0] == top
    ensures Assemble(top, header, sep, items, bottom)[1] == header
    ensures Assemble(top, header, sep, items, bottom)[2] == sep
    ensures Assemble(top, header, sep, items, bottom)[2 * |items| + 2] == bottom
    ensures forall j | 3 <= j < 2 * |items| + 2 ::
              Assemble(top, header, sep, items, bottom)[j] == if j % 2 == 1 then items[(j - 3) / 2] else sep
  {
    var body := Interleave(items, sep);
    InterleaveLayout(items, sep);
    var lines := Assemble(top, header, sep, items, bottom);
    forall j | 3 <= j < 2 * |items| + 2
      ensures lines[j] == if j % 2 == 1 then items[(j - 3) / 2] else sep
    {
      assert lines[j] == body[j - 3];
    }
  }

  /** A property every piece has holds of every assembled line. */
  lemma AssembleAll(top: string, header: string, sep: string, items: seq<string>, bottom: string, P: string -> bool)
    requires |items| > 0
    requires P(top) && P(header) && P(sep) && P(bottom)
    requires forall i | 0 <= i < |items| :: P(items[i])
    ensures forall l | 0 <= l < |Assemble(top, header, sep, items, bottom)| :: P(Assemble(top, header, sep, items, bottom)[l])
  {
    AssembleLayout(top, header, sep, items, bottom);
  }

  /** The assembled text is the head block followed by the body and the bottom. */
  lemma AssembleUnlines(top: string, header: string, sep: string, items: seq<string>, bottom: string)
    ensures Unlines(Assemble(top, header, sep, items, bottom))
         == Unlines([top, header, sep]) + Unlines(Interleave(items, sep) + [bottom])
  {
    var body := Interleave(items, sep) + [bottom];
    UnlinesAppend([top, header, sep], body);
    assert Assemble(top, header, sep, items, bottom) == [top, header, sep] + body;
  }

  /** A listing of two items: the separator appears once between them and around the header. */
  lemma AssembleTwo(top: string, header: string, sep: string, a: string, b: string, bottom: string)
    ensures Assemble(top, header, sep, [a, b], bottom) == [top, header, sep, a, sep, b, bottom]
  {
    assert [a, b][1..] == [b];
    assert Interleave([a, b], sep) == [a, sep, b];
  }
}
