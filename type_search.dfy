/**
 * `TypeSearch.cmd` (src/Search/TypeSearch.py): a SELECT of the pokemon whose
 * first or second type is the given one (a string) or one of the given ones
 * (a list).
 */
module TypeSearch {
  import opened Builtins
  import ListFormat

  const Select := "SELECT * FROM pokemon WHERE "

  /** `"(" + ", ".join([f"'{t.title()}'" for t in query]) + ")"`. */
  function CleanList(types: seq<string>): string
  {
    "(" + Join(", ", ListFormat.QuotedItems(TitleAll(types))) + ")"
  }

  /** The WHERE condition: equality for a string, membership for a list. */
  function Condition(query: TextArg): string
  {
    match query
    case One(t) => "type1 = '" + Title(t) + "' OR type2 = '" + Title(t) + "'"
    case Many(types) => "type1 in " + CleanList(types) + " OR type2 in " + CleanList(types)
  }

  function Cmd(query: TextArg): string
  {
    Select + Condition(query) + ";"
  }

  // ---------------------------------------------------------------------
  // Properties

  /** Both forms are one SELECT over pokemon, terminated by `;`. */
  lemma CmdFrame(query: TextArg)
    ensures |Cmd(query)| > |Select| && Cmd(query)[..|Select|] == Select && Cmd(query)[|Cmd(query)| - 1] == ';'
  {
    ConcatEnds(Select, Condition(query), ";");
  }

  /** The type names may be written in any case. */
  lemma CmdIgnoresCase(t: string, types: seq<string>)
    ensures Cmd(One(Lower(t))) == Cmd(One(t))
    ensures Cmd(Many(LowerAll(types))) == Cmd(Many(types))
  {
    TitleIgnoresCase(t);
    TitleAllIgnoresCase(types);
  }

  /**
   * A one-element list still takes the `in (...)` form, and its tuple holds
   * just that title-cased type.
   */
  lemma SingletonList(t: string)
    ensures CleanList([t]) == "('" + Title(t) + "')"
    ensures Cmd(Many([t])) != Cmd(One(t))
  {
    assert ListFormat.QuotedItems(TitleAll([t])) == ["'" + Title(t) + "'"];
    var a, b := Condition(Many([t])), Condition(One(t));
    assert a[6] == 'i';
    assert b[6] == '=';
    assert Cmd(Many([t]))[|Select| + 6] == a[6];
    assert Cmd(One(t))[|Select| + 6] == b[6];
  }

  /** Types keep their order: one more type adds one more quoted item at the end of the tuple. */
  lemma CleanListSnoc(types: seq<string>, x: string)
    requires types != []
    ensures CleanList(types + [x])
         == "(" + Join(", ", ListFormat.QuotedItems(TitleAll(types))) + ", '" + Title(x) + "')"
  {
    assert TitleAll(types + [x]) == TitleAll(types) + [Title(x)];
    assert ListFormat.QuotedItems(TitleAll(types + [x])) == ListFormat.QuotedItems(TitleAll(types)) + [ListFormat.Quote(Title(x))];
    JoinSnoc(", ", ListFormat.QuotedItems(TitleAll(types)), ListFormat.Quote(Title(x)));
  }

  lemma TitleExample(t: string)
    requires t == "fire"
    ensures Title(t) == "Fire"
  {
    TitleAt(t, 0);
    TitleAt(t, 1);
    TitleAt(t, 2);
    TitleAt(t, 3);
  }

  /** The example of src/Search/TypeSearch.py:26. */
  lemma CmdExample(t: string)
    requires t == "fire"
    ensures Condition(One(t)) == "type1 = 'Fire' OR type2 = 'Fire'"
  {
    TitleExample(t);
  }
}
