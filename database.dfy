/**
 * The command text of src/Database.py. The SQLite connection is replaced by
 * `log`, the sequence of commands the handler has asked SQLite to execute;
 * the rows a SELECT returns are not part of this model.
 */
module Database {
  import opened Builtins
  import ListFormat

  function DropCommand(name: string): string
  {
    "DROP TABLE if EXISTS " + name
  }

  /** One column definition, `f"{col} {datatype}"`. */
  function Field(column: string, colType: string): string
  {
    column + " " + colType
  }

  /** The column definitions `create_table` builds by zipping names with types. */
  function TableFields(columns: seq<string>, types: seq<string>): (r: seq<string>)
  {
    if columns == [] || types == [] then []
    else [Field(columns[0], types[0])] + TableFields(columns[1..], types[1..])
  }

  function CreateCommand(name: string, fields: seq<string>): string
  {
    "CREATE TABLE if NOT EXISTS " + name + " (" + Join(", ", fields) + ")"
  }

  /** The commands `create_table` issues, in order. */
  function CreateTableLog(name: string, columns: seq<string>, types: seq<string>, force: bool): seq<string>
  {
    var fields := TableFields(columns, types);
    (if force then [DropCommand(name)] else []) + (if fields == [] then [] else [CreateCommand(name, fields)])
  }

  /** Whether `create_table` returns normally or raises. */
  function CreateTableOutcome(columns: seq<string>, types: seq<string>): Outcome<PyError>
  {
    if TableFields(columns, types) == [] then Fail(ValueError("Cannot create empty table")) else Pass
  }

  /** The nested `parse_query`: one WHERE condition on `field`. */
  function ParseQuery(field: string, query: TextArg): string
  {
    match query
    case One(s) => field + " = '" + Title(s) + "'"
    case Many(items) => field + " in " + "(" + ListFormat.QuotedList(TitleAll(items)) + ")"
  }

  /** The SELECT `find_name` issues, or None when it returns `[]` without a query. */
  function FindNameCommand(name: Option<TextArg>): Option<string>
  {
    match name
    case None => None
    case Some(q) => Some("SELECT * FROM Pokemon WHERE " + ParseQuery("name", q))
  }

  class Database {
    const file: string
    /** Every command passed to SQLite so far, oldest first. */
    var log: seq<string>

    constructor (file: string)
      ensures this.file == file && log == []
    {
      this.file := file;
      log := [];
    }

    /** `execute`: one command goes to SQLite. */
    method Execute(cmd: string)
      modifies this
      ensures log == old(log) + [cmd]
    {
      log := log + [cmd];
    }

    method CreateTable(name: string, columns: seq<string>, types: seq<string>, force: bool)
      returns (res: Outcome<PyError>)
      modifies this
      ensures res == CreateTableOutcome(columns, types)
      ensures log == old(log) + CreateTableLog(name, columns, types, force)
    {
      if force {
        Execute(DropCommand(name));
      }
      var fields: seq<string> := [];
      var i := 0;
      while i < |columns| && i < |types|
        invariant 0 <= i <= |columns| && i <= |types|
        invariant fields + TableFields(columns[i..], types[i..]) == TableFields(columns, types)
        invariant log == old(log) + (if force then [DropCommand(name)] else [])
      {
        assert columns[i..][1..] == columns[i + 1..] && types[i..][1..] == types[i + 1..];
        fields := fields + [Field(columns[i], types[i])];
        i := i + 1;
      }
      assert fields == TableFields(columns, types);
      if |fields| == 0 {
        return Fail(ValueError("Cannot create empty table"));
      }
      Execute(CreateCommand(name, fields));
      res := Pass;
    }

    /** `find_name`: returns the SELECT it issued, or None when it issued none. */
    method FindName(name: Option<TextArg>) returns (issued: Option<string>)
      modifies this
      ensures issued == FindNameCommand(name)
      ensures log == old(log) + (if issued.Some? then [issued.value] else [])
    {
      var query: seq<string> := [];
      if name.Some? {
        query := query + [ParseQuery("name", name.value)];
      }
      if |query| == 0 {
        return None;
      }
      var cmd := "SELECT * FROM Pokemon WHERE " + Join("AND ", query);
      Execute(cmd);
      issued := Some(cmd);
    }
  }

  // ---------------------------------------------------------------------
  // Properties

  /** Columns and types pair up by position; the longer list is cut to the shorter. */
  lemma {:induction false} TableFieldsPairs(columns: seq<string>, types: seq<string>)
    ensures |TableFields(columns, types)| == if |columns| < |types| then |columns| else |types|
    ensures forall i :: 0 <= i < |TableFields(columns, types)| ==>
      TableFields(columns, types)[i] == Field(columns[i], types[i])
  {
    if columns != [] && types != [] {
      TableFieldsPairs(columns[1..], types[1..]);
    }
  }

  /** `create_table` raises exactly when one of the lists is empty. */
  lemma CreateTableFailsIffEmpty(columns: seq<string>, types: seq<string>)
    ensures CreateTableOutcome(columns, types).Fail? <==> columns == [] || types == []
    ensures CreateTableOutcome(columns, types).Fail? ==>
      CreateTableOutcome(columns, types).error == ValueError("Cannot create empty table")
  {
    TableFieldsPairs(columns, types);
  }

  /** With `force` the table is dropped first, even when the call then raises. */
  lemma CreateTableDropsFirst(name: string, columns: seq<string>, types: seq<string>, force: bool)
    ensures force ==> CreateTableLog(name, columns, types, force)[0] == DropCommand(name)
    ensures CreateTableOutcome(columns, types).Fail? ==>
      CreateTableLog(name, columns, types, force) == if force then [DropCommand(name)] else []
    ensures CreateTableOutcome(columns, types).Pass? ==>
      |CreateTableLog(name, columns, types, force)| == (if force then 2 else 1)
  {
  }

  lemma CreateTableExampleFields()
    ensures TableFields(["num", "name", "hp"], ["INT", "TEXT"]) == ["num INT", "name TEXT"]
  {
    assert ["num", "name", "hp"][1..] == ["name", "hp"] && ["INT", "TEXT"][1..] == ["TEXT"];
    assert ["name", "hp"][1..] == ["hp"] && ["TEXT"][1..] == [];
    assert Field("name", "TEXT") == "name TEXT" && Field("num", "INT") == "num INT";
  }

  lemma JoinPair(sep: string, a: string, b: string)
    ensures Join(sep, [a, b]) == a + sep + b
  {
    assert [a, b][1..] == [b];
  }

  /** Three names against two types: the third name is dropped. */
  lemma CreateTableExample()
    ensures CreateTableLog("pokemon", ["num", "name", "hp"], ["INT", "TEXT"], false)
         == ["CREATE TABLE if NOT EXISTS pokemon (num INT, name TEXT)"]
  {
    CreateTableExampleFields();
    var fields := ["num INT", "name TEXT"];
    JoinPair(", ", fields[0], fields[1]);
    assert Join(", ", fields) == "num INT, name TEXT";
    assert CreateCommand("pokemon", fields) == "CREATE TABLE if NOT EXISTS pokemon (num INT, name TEXT)";
  }

  /** The one condition is the whole WHERE clause: `'AND '.join` of one element adds nothing. */
  lemma FindNameWhere(q: TextArg)
    ensures FindNameCommand(Some(q)).value == "SELECT * FROM Pokemon WHERE " + ParseQuery("name", q)
    ensures FindNameCommand(None) == None
  {
  }

  /** The condition does not depend on how the names were capitalised. */
  lemma ParseQueryIgnoresCase(field: string, s: string, items: seq<string>)
    ensures ParseQuery(field, One(Lower(s))) == ParseQuery(field, One(s))
    ensures ParseQuery(field, One(Title(s))) == ParseQuery(field, One(s))
    ensures ParseQuery(field, Many(LowerAll(items))) == ParseQuery(field, Many(items))
  {
    TitleIgnoresCase(s);
    TitleAllIgnoresCase(items);
  }

  /** A list becomes the SQL tuple that `format_list(..., bracket=True)` is evidently meant to build. */
  lemma ParseQueryIsClosedList(field: string, items: seq<string>)
    ensures ParseQuery(field, Many(items)) == field + " in " + ListFormat.ClosedFormatted(TitleAll(items), true)
  {
  }

  /** Names keep their order: one more name adds one more quoted item at the end of the tuple. */
  lemma ParseQuerySnoc(field: string, items: seq<string>, x: string)
    requires items != []
    ensures ParseQuery(field, Many(items + [x]))
         == field + " in " + "(" + ListFormat.QuotedList(TitleAll(items)) + "," + ListFormat.Quote(Title(x)) + ")"
  {
    var a := field + " in " + "(";
    var q := ListFormat.QuotedList(TitleAll(items));
    var t := ListFormat.Quote(Title(x));
    assert TitleAll(items + [x]) == TitleAll(items) + [Title(x)];
    assert TitleAll(items) != [];
    ListFormat.QuotedListSnoc(TitleAll(items), Title(x));
    Regroup(a, q, ",", t);
  }

  lemma Regroup(a: string, b: string, c: string, d: string)
    ensures a + (b + c + d) == a + b + c + d
  {
  }
}
