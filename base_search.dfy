/**
 * The `TypeSearch` class of src/Search/BaseSearch.py: it stores its query
 * title-cased and builds a SELECT from it, joining the pieces with spaces.
 * `search` takes the tuple of a multi-type query from `format_list(...,
 * bracket=True)` as written, whose closing bracket is `(`; `SearchCorrected`
 * is the same search over the corrected `ListFormat.FormatListClosed`.
 */
module BaseSearch {
  import opened Builtins
  import ListFormat

  /** `[type.title()]` for a string, `[t.title() for t in type]` for a list. */
  function StoredQuery(t: TextArg): seq<string>
  {
    match t
    case One(s) => [Title(s)]
    case Many(items) => TitleAll(items)
  }

  const Select := "SELECT * FROM pokemon WHERE "

  /** `f"{column} == '{t}'"` */
  function Equals(column: string, t: string): string
  {
    column + " == '" + t + "'"
  }

  /** `f"{column} in {tuple}"` */
  function In(column: string, tuple: string): string
  {
    column + " in " + tuple
  }

  /** The WHERE condition, given the tuple text: equality for one type; for any other number, membership in the tuple. */
  function ConditionWith(query: seq<string>, tuple: string): string
  {
    if |query| == 1 then
      Equals("type1", query[0]) + " OR " + Equals("type2", query[0])
    else
      In("type1", tuple) + " AND " + In("type2", tuple)
  }

  /** The condition `search` builds, with the as-written `format_list` tuple. */
  function Condition(query: seq<string>): string
  {
    ConditionWith(query, ListFormat.Formatted(query, true))
  }

  /** The command `search` returns for a stored query. */
  function SearchCommand(query: seq<string>): string
  {
    Select + Condition(query)
  }

  /** The command with the corrected tuple, closed by `)`. */
  function CorrectedCommand(query: seq<string>): string
  {
    Select + ConditionWith(query, ListFormat.ClosedFormatted(query, true))
  }

  class TypeSearch {
    /** `_type`, read through the `query` property. */
    const query: seq<string>

    constructor (t: TextArg)
      ensures query == StoredQuery(t)
    {
      query := StoredQuery(t);
    }

    /** `search`: three pieces appended to `cmd`, then `" ".join(cmd)`. */
    method Search() returns (cmd: string)
      ensures cmd == SearchCommand(query)
    {
      if |query| == 1 {
        cmd := SearchWith("");
      } else {
        var f := ListFormat.FormatList(query, true);
        cmd := SearchWith(f);
      }
    }

    /** `search` with `format_list` corrected to close its tuple with `)`. */
    method SearchCorrected() returns (cmd: string)
      ensures cmd == CorrectedCommand(query)
    {
      if |query| == 1 {
        cmd := SearchWith("");
      } else {
        var f := ListFormat.FormatListClosed(query, true);
        cmd := SearchWith(f);
      }
    }

    /** The body of `search` once the tuple text is known. */
    method SearchWith(tuple: string) returns (cmd: string)
      ensures cmd == Select + ConditionWith(query, tuple)
    {
      var parts: seq<string> := ["SELECT * FROM pokemon"];
      if |query| == 1 {
        parts := parts + ["WHERE " + Equals("type1", query[0]) + " OR"];
        parts := parts + [Equals("type2", query[0])];
        assert parts == ["SELECT * FROM pokemon", "WHERE " + Equals("type1", query[0]) + " OR", Equals("type2", query[0])];
        JoinSearch(Equals("type1", query[0]), " OR", Equals("type2", query[0]));
      } else {
        parts := parts + ["WHERE " + In("type1", tuple) + " AND"];
        parts := parts + [In("type2", tuple)];
        assert parts == ["SELECT * FROM pokemon", "WHERE " + In("type1", tuple) + " AND", In("type2", tuple)];
        JoinSearch(In("type1", tuple), " AND", In("type2", tuple));
      }
      cmd := Join(" ", parts);
      Spaced();
    }
  }

  lemma JoinThree(parts: seq<string>)
    requires |parts| == 3
    ensures Join(" ", parts) == parts[0] + " " + parts[1] + " " + parts[2]
  {
    var rest := parts[1..];
    assert rest[1..] == [parts[2]];
    assert Join(" ", rest) == parts[1] + " " + parts[2];
  }

  /** The three pieces of `search`, joined with spaces, are the SELECT followed by the condition. */
  lemma JoinSearch(x: string, conj: string, y: string)
    ensures Join(" ", ["SELECT * FROM pokemon", "WHERE " + x + conj, y]) == Select + (x + (conj + " ") + y)
  {
    JoinThree(["SELECT * FROM pokemon", "WHERE " + x + conj, y]);
    assert "SELECT * FROM pokemon" + " " + "WHERE " == Select;
  }

  lemma Spaced()
    ensures " OR" + " " == " OR " && " AND" + " " == " AND "
  {
  }

  // ---------------------------------------------------------------------
  // Properties

  /** The stored query has one entry per requested type, title-cased, in order. */
  lemma StoredQueryShape(t: TextArg)
    ensures t.One? ==> |StoredQuery(t)| == 1 && StoredQuery(t)[0] == Title(t.text)
    ensures t.Many? ==> |StoredQuery(t)| == |t.items|
    ensures t.Many? ==> forall i :: 0 <= i < |t.items| ==> StoredQuery(t)[i] == Title(t.items[i])
  {
  }

  /** Re-creating a search from its own query changes nothing, and case never matters. */
  lemma StoredQueryStable(t: TextArg, s: string, items: seq<string>)
    ensures StoredQuery(Many(StoredQuery(t))) == StoredQuery(t)
    ensures StoredQuery(One(Lower(s))) == StoredQuery(One(s))
    ensures StoredQuery(Many(LowerAll(items))) == StoredQuery(Many(items))
    ensures StoredQuery(Many([s])) == StoredQuery(One(s))
  {
    if t.One? {
      TitleIgnoresCase(t.text);
    } else {
      TitleAllIgnoresCase(t.items);
    }
    TitleIgnoresCase(s);
    TitleAllIgnoresCase(items);
  }

  /** Brackets in a membership test come from its tuple. */
  lemma InCount(column: string, tuple: string, c: char)
    requires c !in column && c !in " in "
    ensures CountChar(In(column, tuple), c) == CountChar(tuple, c)
  {
    CountAbsent(column, c);
    CountAbsent(" in ", c);
    CountConcat(column, " in ", c);
    CountConcat(column + " in ", tuple, c);
  }

  lemma NoBracketsOutsideTuples(c: char)
    requires c == '(' || c == ')'
    ensures c !in Select && c !in " AND " && c !in "type1" && c !in "type2" && c !in " in "
  {
  }

  lemma CountFour(s: string, a: string, m: string, b: string, c: char)
    ensures CountChar(s + (a + m + b), c) == CountChar(s, c) + CountChar(a, c) + CountChar(m, c) + CountChar(b, c)
  {
    CountConcat(a, m, c);
    CountConcat(a + m, b, c);
    CountConcat(s, a + m + b, c);
  }

  /** The brackets of a multi-type command are exactly those of its two copies of the tuple. */
  lemma SearchCount(query: seq<string>, tuple: string, c: char)
    requires |query| != 1 && (c == '(' || c == ')')
    ensures CountChar(Select + ConditionWith(query, tuple), c) == CountChar(tuple, c) + CountChar(tuple, c)
  {
    NoBracketsOutsideTuples(c);
    InCount("type1", tuple, c);
    InCount("type2", tuple, c);
    CountAbsent(Select, c);
    CountAbsent(" AND ", c);
    CountFour(Select, In("type1", tuple), " AND ", In("type2", tuple), c);
  }

  /** As written, a multi-type search over balanced types has four more `(` than `)`: each tuple is left open twice. */
  lemma SearchUnbalanced(query: seq<string>)
    requires |query| != 1 && ListFormat.Balanced(query)
    ensures CountChar(SearchCommand(query), '(') == CountChar(SearchCommand(query), ')') + 4
  {
    ListFormat.FormattedUnbalanced(query);
    SearchCount(query, ListFormat.Formatted(query, true), '(');
    SearchCount(query, ListFormat.Formatted(query, true), ')');
  }

  /** With the corrected tuple, a multi-type search over balanced types is balanced. */
  lemma SearchBalanced(query: seq<string>)
    requires |query| != 1 && ListFormat.Balanced(query)
    ensures CountChar(CorrectedCommand(query), '(') == CountChar(CorrectedCommand(query), ')')
  {
    ListFormat.ClosedBalanced(query);
    SearchCount(query, ListFormat.ClosedFormatted(query, true), '(');
    SearchCount(query, ListFormat.ClosedFormatted(query, true), ')');
  }

  /** The two versions agree on a one-type search, and differ on every other. */
  lemma SearchVersions(query: seq<string>)
    ensures |query| == 1 ==> SearchCommand(query) == CorrectedCommand(query)
    ensures |query| != 1 ==> SearchCommand(query) != CorrectedCommand(query)
  {
    if |query| != 1 {
      var f := ListFormat.Formatted(query, true);
      var g := ListFormat.ClosedFormatted(query, true);
      ListFormat.ClosedDiffersOnlyAtEnd(query, true);
      assert f != g;
      var pre := Select + "type1 in ";
      assert SearchCommand(query)[|pre| + |f| - 1] == f[|f| - 1];
      assert CorrectedCommand(query)[|pre| + |g| - 1] == g[|g| - 1];
    }
  }

  lemma TitleExample(t: string)
    requires t == "water"
    ensures Title(t) == "Water"
  {
    TitleAt(t, 0);
    TitleAt(t, 1);
    TitleAt(t, 2);
    TitleAt(t, 3);
    TitleAt(t, 4);
  }

  /** The example of src/Search/BaseSearch.py:42: a one-type search for water. */
  lemma SearchExample(t: string)
    requires t == "water"
    ensures StoredQuery(One(t)) == ["Water"]
    ensures Condition(StoredQuery(One(t))) == "type1 == 'Water' OR type2 == 'Water'"
  {
    TitleExample(t);
    assert Equals("type1", "Water") == "type1 == 'Water'";
    assert Equals("type2", "Water") == "type2 == 'Water'";
  }
}
