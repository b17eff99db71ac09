/**
 * `MoveSearch.cmd` (src/Search/MoveSearch.py): the same query parsing as
 * `StatSearch.cmd`, building a SELECT over the moves table that always
 * excludes one-PP moves, G-Max moves and the Hidden Power variants.
 */
module MoveSearch {
  import opened Builtins
  import opened StatSearch

  const MovePrefix := "SELECT * FROM moves WHERE "
  const MoveFilter := " AND pp <> 1 AND NOT name LIKE 'GMax%' AND NOT name LIKE 'HiddenPower%'"

  function Cmd(query: string): Result<string, PyError>
  {
    match ParseComparison(query)
    case Failure(e) => Failure(e)
    case Success(c) => Success(MovePrefix + Condition(c) + MoveFilter)
  }

  /**
   * A move query succeeds or fails exactly as the same stat query does, with
   * the same error; on success it carries the same condition, over moves and
   * followed by the fixed filter.
   */
  lemma SameParsingAsStatSearch(query: string)
    ensures Cmd(query).Success? <==> StatSearch.Cmd(query).Success?
    ensures Cmd(query).Failure? ==> Cmd(query).error == StatSearch.Cmd(query).error
    ensures Cmd(query).Success? ==>
      var stat := StatSearch.Cmd(query).value;
      |stat| >= |Prefix| && Cmd(query).value == MovePrefix + stat[|Prefix|..] + MoveFilter
  {
    if ParseComparison(query).Success? {
      var cond := Condition(ParseComparison(query).value);
      assert (Prefix + cond)[|Prefix|..] == cond;
    }
  }

  /** The filter is always the end of the command, whatever the query. */
  lemma FilterAlwaysApplied(query: string)
    requires Cmd(query).Success?
    ensures var r := Cmd(query).value;
      |r| >= |MovePrefix| + |MoveFilter| && r[..|MovePrefix|] == MovePrefix && r[|r| - |MoveFilter|..] == MoveFilter
  {
    ConcatEnds(MovePrefix, Condition(ParseComparison(query).value), MoveFilter);
  }

  /** The example of src/Search/MoveSearch.py:48 and 58: `power` asks for `"power " + query`. */
  lemma PowerExample(query: string)
    requires query == Join(" ", ["power", "==", "60"])
    ensures ParseComparison(query) == Success(Comparison("power", "==", 60))
  {
    ExampleNumbers();
    ParseRoundTrip("power", "==", 60);
    assert Lower("power") == "power";
  }
}
