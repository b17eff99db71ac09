/**
 * `StatSearch.cmd` (src/Search/StatSearch.py): parse `"<stat> <operator>
 * <value>"` and build a SELECT over the pokemon table. The parsing half is
 * shared with `MoveSearch.cmd`, whose lines 13-41 are the same code.
 */
module StatSearch {
  import opened Builtins

  /** A parsed query: lower-cased stat, SQL operator, integer value. */
  datatype Comparison = Comparison(stat: string, op: string, value: int)

  /** The operators the match statement lets through unchanged. */
  predicate IsSqlOperator(op: string)
  {
    op == ">" || op == ">=" || op == "==" || op == "<=" || op == "<" || op == "<>"
  }

  /** The match on the operator: SQL operators pass, `!=` becomes `<>`, anything else is refused. */
  function NormaliseOperator(op: string): (r: Option<string>)
    ensures r.Some? <==> IsSqlOperator(op) || op == "!="
    ensures r.Some? ==> IsSqlOperator(r.value)
    ensures r.Some? && op != "!=" ==> r.value == op
  {
    if IsSqlOperator(op) then Some(op)
    else if op == "!=" then Some("<>")
    else None
  }

  /**
   * Lines 13-41: unpack exactly three tokens, lower-case the stat, `int()`
   * the value, then check the operator, failing at the first step that
   * raises.
   */
  function ParseComparison(query: string): Result<Comparison, PyError>
  {
    var toks := Split(query);
    if |toks| != 3 then Failure(UnpackError(3, |toks|))
    else
      var stat := Lower(toks[0]);
      match ParseInt(toks[2])
      case None => Failure(IntParseError(toks[2]))
      case Some(v) =>
        match NormaliseOperator(toks[1])
        case None => Failure(ValueError("Operator " + toks[1] + " not recognised!"))
        case Some(op) => Success(Comparison(stat, op, v))
  }

  /** `f"{stat} {operator} {val}"`: the value is rendered by `str(int)`. */
  function Condition(c: Comparison): string
  {
    c.stat + " " + c.op + " " + IntToString(c.value)
  }

  const Prefix := "SELECT * FROM pokemon WHERE "

  function Cmd(query: string): Result<string, PyError>
  {
    match ParseComparison(query)
    case Failure(e) => Failure(e)
    case Success(c) => Success(Prefix + Condition(c))
  }

  // ---------------------------------------------------------------------
  // Properties

  /** `cmd` returns a command exactly when all three steps succeed, and says which step failed otherwise. */
  lemma CmdSucceedsIff(query: string)
    ensures Cmd(query).Success? <==>
      var toks := Split(query);
      |toks| == 3 && ParseInt(toks[2]).Some? && (IsSqlOperator(toks[1]) || toks[1] == "!=")
    ensures |Split(query)| != 3 ==> Cmd(query) == Failure(UnpackError(3, |Split(query)|))
    ensures |Split(query)| == 3 && ParseInt(Split(query)[2]).None? ==>
      Cmd(query) == Failure(IntParseError(Split(query)[2]))
    ensures |Split(query)| == 3 && ParseInt(Split(query)[2]).Some? && !IsSqlOperator(Split(query)[1]) && Split(query)[1] != "!=" ==>
      Cmd(query) == Failure(ValueError("Operator " + Split(query)[1] + " not recognised!"))
  {
  }

  /** The command never carries Python's `!=`: only the six SQL operators reach the text. */
  lemma OperatorIsSql(query: string)
    requires ParseComparison(query).Success?
    ensures IsSqlOperator(ParseComparison(query).value.op)
    ensures ParseComparison(query).value.op != "!="
  {
  }

  /**
   * Writing a comparison out as `"<stat> <op> <value>"` and parsing it gives
   * it back, with the stat lower-cased and `!=` written `<>`.
   */
  lemma ParseRoundTrip(stat: string, op: string, value: int)
    requires IsToken(stat) && (IsSqlOperator(op) || op == "!=")
    ensures ParseComparison(Join(" ", [stat, op, IntToString(value)]))
         == Success(Comparison(Lower(stat), if op == "!=" then "<>" else op, value))
  {
    assert IsToken(op);
    SplitJoin([stat, op, IntToString(value)]);
  }

  /**
   * The value is rendered in canonical decimal: whatever literal the user
   * wrote, the number in the command parses to the same integer.
   */
  lemma ValueCanonical(query: string)
    requires ParseComparison(query).Success?
    ensures ParseInt(IntToString(ParseComparison(query).value.value)) == ParseInt(Split(query)[2])
  {
  }

  /** The stat's case does not matter. */
  lemma StatIgnoresCase(stat: string, op: string, value: int)
    requires IsToken(stat) && (IsSqlOperator(op) || op == "!=")
    ensures ParseComparison(Join(" ", [stat, op, IntToString(value)]))
         == ParseComparison(Join(" ", [Lower(stat), op, IntToString(value)]))
  {
    assert IsToken(Lower(stat)) by {
      forall i | 0 <= i < |stat| ensures !IsSpace(Lower(stat)[i]) {
        assert IsLetter(Lower(stat)[i]) == IsLetter(stat[i]);
      }
    }
    ParseRoundTrip(stat, op, value);
    ParseRoundTrip(Lower(stat), op, value);
    assert Lower(Lower(stat)) == Lower(stat);
  }

  /** The numbers in the two examples below. */
  lemma {:induction false} ExampleNumbers()
    ensures IntToString(120) == "120" && IntToString(60) == "60" && ParseInt("060") == Some(60)
  {
    assert NatToString(1) == "1";
    assert NatToString(12) == "12";
    assert "060"[..2] == "06";
    assert "06"[..1] == "0";
    assert DigitsValue("0") == 0;
    assert DigitsValue("06") == 6;
  }

  /** The texts in the two examples below. */
  lemma ExampleText()
    ensures Lower("spe") == "spe" && Lower("hp") == "hp"
    ensures Join(" ", ["spe", ">=", "120"]) == "spe >= 120"
    ensures Join(" ", ["hp", "!=", "060"]) == "hp != 060"
    ensures Prefix + "spe >= 120" == "SELECT * FROM pokemon WHERE spe >= 120"
    ensures Prefix + "hp <> 60" == "SELECT * FROM pokemon WHERE hp <> 60"
  {
  }

  /** The example of src/Search/StatSearch.py:53. */
  lemma CmdExample(query: string)
    requires query == "spe >= 120"
    ensures Cmd(query) == Success("SELECT * FROM pokemon WHERE spe >= 120")
  {
    ExampleNumbers();
    ExampleText();
    ParseRoundTrip("spe", ">=", 120);
    assert Condition(Comparison("spe", ">=", 120)) == "spe >= 120";
  }

  lemma ParsePaddedExample(query: string)
    requires query == Join(" ", ["hp", "!=", "060"])
    ensures ParseComparison(query) == Success(Comparison("hp", "<>", 60))
  {
    SplitJoin(["hp", "!=", "060"]);
    ExampleNumbers();
    assert Lower("hp") == "hp";
  }

  /** A padded value and Python's not-equal: `hp != 060` asks for `hp <> 60`. */
  lemma CmdPaddedExample(query: string)
    requires query == "hp != 060"
    ensures Cmd(query) == Success("SELECT * FROM pokemon WHERE hp <> 60")
  {
    ExampleText();
    ParsePaddedExample(query);
    ExampleNumbers();
    assert Condition(Comparison("hp", "<>", 60)) == "hp <> 60";
  }
}
