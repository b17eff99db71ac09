/**
 * `format_list` (src/utils/ListFormat.py): quote every item, join with
 * commas, and optionally wrap the result in brackets. As written, the
 * bracketed form closes with a second `(`; `FormatListClosed` is the
 * corrected operation, whose closing bracket is `)`.
 */
module ListFormat {
  import opened Builtins

  /** `f"'{item}'"`. */
  function Quote(item: string): string
  {
    "'" + item + "'"
  }

  /** The comprehension `[f"'{item}'" for item in inp]`. */
  function QuotedItems(inp: seq<string>): (r: seq<string>)
    ensures |r| == |inp|
    ensures forall i :: 0 <= i < |inp| ==> r[i] == Quote(inp[i])
  {
    seq(|inp|, i requires 0 <= i < |inp| => Quote(inp[i]))
  }

  /** `",".join(...)` of the quoted items. */
  function QuotedList(inp: seq<string>): string
  {
    Join(",", QuotedItems(inp))
  }

  /** What `format_list` returns, as written: both brackets are `(`. */
  function Formatted(inp: seq<string>, bracket: bool): string
  {
    if bracket then "(" + QuotedList(inp) + "(" else QuotedList(inp)
  }

  /** What `format_list` evidently means to return: `(` ... `)`. */
  function ClosedFormatted(inp: seq<string>, bracket: bool): string
  {
    if bracket then "(" + QuotedList(inp) + ")" else QuotedList(inp)
  }

  /** `format_list` as written: conditional appends to `output`, then `"".join(output)`. */
  method FormatList(inp: seq<string>, bracket: bool) returns (r: string)
    ensures r == Formatted(inp, bracket)
  {
    var output: seq<string> := [];
    if bracket {
      output := output + ["("];
    }
    output := output + [QuotedList(inp)];
    if bracket {
      output := output + ["("];
    }
    r := Join("", output);
    if bracket {
      var q := QuotedList(inp);
      assert output == ["(", q, "("];
      assert output[1..] == [q, "("] && [q, "("][1..] == ["("];
      assert Join("", ["("]) == "(";
      assert Join("", [q, "("]) == q + "" + "(";
      assert Join("", output) == "(" + "" + (q + "" + "(");
      assert "(" + "" + (q + "" + "(") == "(" + q + "(";
    }
  }

  /** `format_list` with the closing bracket corrected to `)`. */
  method FormatListClosed(inp: seq<string>, bracket: bool) returns (r: string)
    ensures r == ClosedFormatted(inp, bracket)
  {
    var output: seq<string> := [];
    if bracket {
      output := output + ["("];
    }
    output := output + [QuotedList(inp)];
    if bracket {
      output := output + [")"];
    }
    r := Join("", output);
    if bracket {
      var q := QuotedList(inp);
      assert output == ["(", q, ")"];
      assert output[1..] == [q, ")"] && [q, ")"][1..] == [")"];
      assert Join("", [")"]) == ")";
      assert Join("", [q, ")"]) == q + "" + ")";
      assert Join("", output) == "(" + "" + (q + "" + ")");
      assert "(" + "" + (q + "" + ")") == "(" + q + ")";
    }
  }

  // ---------------------------------------------------------------------
  // Properties

  /** Items appear quoted, comma-separated, in input order: the list grows at its end. */
  lemma QuotedListSnoc(inp: seq<string>, x: string)
    ensures QuotedList(inp + [x]) == if inp == [] then Quote(x) else QuotedList(inp) + "," + Quote(x)
  {
    assert QuotedItems(inp + [x]) == QuotedItems(inp) + [Quote(x)];
    JoinSnoc(",", QuotedItems(inp), Quote(x));
  }

  /** Without brackets an empty list formats as the empty string. */
  lemma EmptyList(bracket: bool)
    ensures Formatted([], bracket) == if bracket then "((" else ""
    ensures ClosedFormatted([], bracket) == if bracket then "()" else ""
  {
  }

  lemma {:induction false} QuotedItemsLength(inp: seq<string>)
    ensures SumLengths(QuotedItems(inp)) == SumLengths(inp) + 2 * |inp|
  {
    if inp != [] {
      assert QuotedItems(inp)[1..] == QuotedItems(inp[1..]);
      QuotedItemsLength(inp[1..]);
    }
  }

  /** Length: the items, two quotes per item, the commas between them, and two brackets if asked for. */
  lemma FormattedLength(inp: seq<string>, bracket: bool)
    ensures |Formatted(inp, bracket)| == |ClosedFormatted(inp, bracket)|
    ensures |Formatted(inp, bracket)|
         == SumLengths(inp) + 2 * |inp| + (if inp == [] then 0 else |inp| - 1) + (if bracket then 2 else 0)
  {
    JoinLength(",", QuotedItems(inp));
    QuotedItemsLength(inp);
  }

  lemma {:induction false} QuotedItemsCount(inp: seq<string>, c: char)
    ensures SumCounts(QuotedItems(inp), c) == SumCounts(inp, c) + (if c == '\'' then 2 * |inp| else 0)
  {
    if inp != [] {
      assert QuotedItems(inp)[1..] == QuotedItems(inp[1..]);
      QuotedItemsCount(inp[1..], c);
      CountConcat("'", inp[0], c);
      CountConcat("'" + inp[0], "'", c);
    }
  }

  /** Occurrences of a character other than the quote and the comma come only from the items. */
  lemma QuotedListCount(inp: seq<string>, c: char)
    ensures CountChar(QuotedList(inp), c)
         == SumCounts(inp, c) + (if c == '\'' then 2 * |inp| else 0)
            + (if c == ',' && inp != [] then |inp| - 1 else 0)
  {
    JoinCount(",", QuotedItems(inp), c);
    QuotedItemsCount(inp, c);
  }

  /** Brackets in the items, if any. */
  predicate Balanced(inp: seq<string>)
  {
    SumCounts(inp, '(') == SumCounts(inp, ')')
  }

  /**
   * As written, a bracketed list holds two more `(` than `)` whenever its
   * items are balanced: it is never a well-formed SQL tuple.
   */
  lemma FormattedUnbalanced(inp: seq<string>)
    requires Balanced(inp)
    ensures CountChar(Formatted(inp, true), '(') == CountChar(Formatted(inp, true), ')') + 2
  {
    var q := QuotedList(inp);
    QuotedListCount(inp, '(');
    QuotedListCount(inp, ')');
    CountConcat("(" + q, "(", '(');
    CountConcat("(", q, '(');
    CountConcat("(" + q, "(", ')');
    CountConcat("(", q, ')');
  }

  /** With the corrected closing bracket, balanced items give a balanced tuple. */
  lemma ClosedBalanced(inp: seq<string>)
    requires Balanced(inp)
    ensures CountChar(ClosedFormatted(inp, true), '(') == CountChar(ClosedFormatted(inp, true), ')')
  {
    var q := QuotedList(inp);
    QuotedListCount(inp, '(');
    QuotedListCount(inp, ')');
    CountConcat("(" + q, ")", '(');
    CountConcat("(", q, '(');
    CountConcat("(" + q, ")", ')');
    CountConcat("(", q, ')');
  }

  /** The two differ only in the closing bracket. */
  lemma ClosedDiffersOnlyAtEnd(inp: seq<string>, bracket: bool)
    ensures |Formatted(inp, bracket)| == |ClosedFormatted(inp, bracket)|
    ensures !bracket ==> Formatted(inp, bracket) == ClosedFormatted(inp, bracket)
    ensures bracket ==> var n := |Formatted(inp, bracket)|;
      n >= 2 && Formatted(inp, bracket)[..n - 1] == ClosedFormatted(inp, bracket)[..n - 1]
      && Formatted(inp, bracket)[n - 1] == '(' && ClosedFormatted(inp, bracket)[n - 1] == ')'
  {
    if bracket {
      var q := QuotedList(inp);
      assert ("(" + q + "(")[..|q| + 1] == "(" + q;
      assert ("(" + q + ")")[..|q| + 1] == "(" + q;
    }
  }

  lemma QuotedPair(a: string, b: string)
    ensures QuotedList([a, b]) == Quote(a) + "," + Quote(b)
  {
    QuotedListSnoc([a], b);
    assert [a] + [b] == [a, b];
    QuotedListSnoc([], a);
    assert [] + [a] == [a];
  }

  /** The input that shows the unclosed bracket. */
  lemma FormatListExample()
    ensures Formatted(["Water", "Dragon"], true) == "('Water','Dragon'("
    ensures ClosedFormatted(["Water", "Dragon"], true) == "('Water','Dragon')"
  {
    QuotedPair("Water", "Dragon");
    assert QuotedList(["Water", "Dragon"]) == "'Water','Dragon'";
  }
}
