/**
 * `Injector` (src/CreateDatabase.py): a table built from conversion rules and
 * filled with one INSERT per record of a decoded JSON source, with the
 * `data_fields` log of which flattened keys were seen and which of them gave a
 * value. The JSON file is passed in already decoded; the database is the
 * command log of `Database.Database`.
 */
module CreateDatabase {
  import opened Builtins
  import opened Json
  import opened Mapper
  import Database

  // ---------------------------------------------------------------------
  // data_fields

  /** The keys of a sequence, as a set. */
  function KeySet(keys: seq<string>): set<string>
  {
    set k | k in keys
  }

  /** `for key in keys: if key not in data_fields: data_fields[key] = False` */
  function Register(df: map<string, bool>, keys: seq<string>): (r: map<string, bool>)
    ensures r.Keys == df.Keys + KeySet(keys)
    ensures forall k <- df :: r[k] == df[k]
    ensures forall k <- r :: k !in df ==> !r[k]
  {
    if keys == [] then df
    else
      var d := Register(df, keys[..|keys| - 1]);
      var k := keys[|keys| - 1];
      assert KeySet(keys) == KeySet(keys[..|keys| - 1]) + {k} by {
        assert keys == keys[..|keys| - 1] + [k];
      }
      if k in d then d else d[k := false]
  }

  /** `data_fields[path] = True` for every lookup key that gave a value. */
  function Mark(df: map<string, bool>, seen: seq<string>): (r: map<string, bool>)
    ensures r.Keys == df.Keys + KeySet(seen)
    ensures forall k <- r :: r[k] == (k in seen || (k in df && df[k]))
  {
    if seen == [] then df
    else
      var d := Mark(df, seen[..|seen| - 1]);
      var k := seen[|seen| - 1];
      assert seen == seen[..|seen| - 1] + [k];
      assert KeySet(seen) == KeySet(seen[..|seen| - 1]) + {k};
      d[k := true]
  }

  /** The registering loop of `fill`. */
  method RegisterKeys(df: map<string, bool>, keys: seq<string>) returns (dataFields: map<string, bool>)
    ensures dataFields == Register(df, keys)
  {
    dataFields := df;
    for j := 0 to |keys|
      invariant dataFields == Register(df, keys[..j])
    {
      assert keys[..j + 1][..j] == keys[..j];
      if keys[j] !in dataFields {
        dataFields := dataFields[keys[j] := false];
      }
    }
    assert keys[..|keys|] == keys;
  }

  /** The `data_fields[path] = True` assignments of one record, in order. */
  method MarkSeen(df: map<string, bool>, seen: seq<string>) returns (dataFields: map<string, bool>)
    ensures dataFields == Mark(df, seen)
  {
    dataFields := df;
    for j := 0 to |seen|
      invariant dataFields == Mark(df, seen[..j])
    {
      assert seen[..j + 1][..j] == seen[..j];
      dataFields := dataFields[seen[j] := true];
    }
    assert seen[..|seen|] == seen;
  }

  // ---------------------------------------------------------------------
  // One record

  /** What one record gives: the `data_fields` after it, and its INSERT unless it was skipped. */
  datatype Step = Step(fields: map<string, bool>, insert: Option<string>)

  /** The body of the `for name, data in raw.items()` loop for one record `rec`. */
  function RecordSpec(name: string, convs: seq<Conversion>, rec: Value, df: map<string, bool>): Result<Step, PyError>
  {
    if !rec.Obj? then Failure(AttributeError)
    else
      var (keys, vals) := Flatten(rec);
      var registered := Register(df, keys);
      var num := Get(rec.entries, "num");
      if num.None? then Failure(KeyError("num"))
      else
        var negative := LessThanZero(num.value);
        if negative.Failure? then Failure(negative.error)
        else if negative.value then Success(Step(registered, None))
        else
          var row := RowSpec(keys, vals, convs);
          if row.Failure? then Failure(row.error)
          else Success(Step(Mark(registered, row.value.seen), Some(InsertCommand(name, row.value.fields, row.value.values))))
  }

  // ---------------------------------------------------------------------
  // All records

  /** The commands issued so far, `data_fields`, and the error that ended the loop, if any. */
  datatype FillState = FillState(log: seq<string>, fields: map<string, bool>, error: Option<PyError>)

  /** The state after the records `records`, in file order; the first error ends the loop. */
  function FillSpec(name: string, convs: seq<Conversion>, records: seq<(string, Value)>): FillState
  {
    if records == [] then FillState([], map[], None)
    else
      var st := FillSpec(name, convs, records[..|records| - 1]);
      if st.error.Some? then st else Advance(st, RecordSpec(name, convs, records[|records| - 1].1, st.fields))
  }

  /** The state after one more record: its INSERT is issued, or its error ends the loop. */
  function Advance(st: FillState, r: Result<Step, PyError>): FillState
  {
    match r
    case Failure(e) => FillState(st.log, st.fields, Some(e))
    case Success(step) => FillState(st.log + (if step.insert.Some? then [step.insert.value] else []), step.fields, None)
  }

  /** `max()` over an empty `data_fields` in the closing report. */
  const EmptyReport := ValueError("max() arg is an empty sequence")

  /** How `fill` ends: `raw.items()` needs a dict, a record's error escapes, and the report needs a key. */
  function FillOutcome(name: string, convs: seq<Conversion>, raw: Value): Outcome<PyError>
  {
    if !raw.Obj? then Fail(AttributeError)
    else
      var st := FillSpec(name, convs, raw.entries);
      if st.error.Some? then Fail(st.error.value)
      else if |st.fields| == 0 then Fail(EmptyReport)
      else Pass
  }

  /** The INSERTs `fill` issues, including those before an error. */
  function FillLog(name: string, convs: seq<Conversion>, raw: Value): seq<string>
  {
    if !raw.Obj? then [] else FillSpec(name, convs, raw.entries).log
  }

  /** How `__init__` ends: `create` first, then `fill` when the table was created. */
  function InitOutcome(name: string, convs: seq<Conversion>, raw: Value): Outcome<PyError>
  {
    var created := Database.CreateTableOutcome(FieldNames(convs), ColTypes(convs));
    if created.Fail? then created else FillOutcome(name, convs, raw)
  }

  /** The commands `__init__` issues: the table's DROP and CREATE, then the INSERTs. */
  function InitLog(name: string, convs: seq<Conversion>, raw: Value): seq<string>
  {
    var log := Database.CreateTableLog(name, FieldNames(convs), ColTypes(convs), true);
    if Database.CreateTableOutcome(FieldNames(convs), ColTypes(convs)).Fail? then log else log + FillLog(name, convs, raw)
  }

  function ColTypes(convs: seq<Conversion>): (r: seq<string>)
    ensures |r| == |convs| && forall i :: 0 <= i < |r| ==> r[i] == convs[i].colType
  {
    seq(|convs|, i requires 0 <= i < |convs| => convs[i].colType)
  }

  class Injector {
    const name: string
    const convert: seq<Conversion>
    const db: Database.Database

    /** The handler `__init__` opens, before it calls `create` and `fill`. */
    constructor (file: string, name: string, convert: seq<Conversion>)
      ensures this.name == name && this.convert == convert
      ensures fresh(db) && db.file == file && db.log == []
    {
      this.name := name;
      this.convert := convert;
      db := new Database.Database(file);
    }

    /** `create`: one column per rule, of the rule's type, in a freshly dropped table. */
    method Create() returns (res: Outcome<PyError>)
      modifies db
      ensures res == Database.CreateTableOutcome(FieldNames(convert), ColTypes(convert))
      ensures db.log == old(db.log) + Database.CreateTableLog(name, FieldNames(convert), ColTypes(convert), true)
    {
      var cols: seq<string> := [];
      var types: seq<string> := [];
      for i := 0 to |convert|
        invariant cols == FieldNames(convert[..i]) && types == ColTypes(convert[..i])
      {
        cols := cols + [convert[i].fieldname];
        types := types + [convert[i].colType];
      }
      assert convert[..|convert|] == convert;
      res := db.CreateTable(name, cols, types, true);
    }

    /** The body of `fill`'s loop for one record: flatten, register, skip or build the row. */
    method Record(data: Value, df: map<string, bool>) returns (r: Result<Step, PyError>)
      ensures r == RecordSpec(name, convert, data, df)
    {
      if !data.Obj? {
        return Failure(AttributeError);
      }
      var keys, vals := FlattenDict(data);
      var dataFields := RegisterKeys(df, keys);
      var num := Get(data.entries, "num");
      if num.None? {
        return Failure(KeyError("num"));
      }
      var negative := LessThanZero(num.value);
      if negative.Failure? {
        return Failure(negative.error);
      }
      if negative.value {
        return Success(Step(dataFields, None));
      }
      var row := BuildRow(keys, vals, convert);
      if row.Failure? {
        return Failure(row.error);
      }
      dataFields := MarkSeen(dataFields, row.value.seen);
      r := Success(Step(dataFields, Some(InsertCommand(name, row.value.fields, row.value.values))));
    }

    /** `fill`: one INSERT per record whose `num` is not negative, then the report over `data_fields`. */
    method Fill(raw: Value) returns (res: Outcome<PyError>, dataFields: map<string, bool>)
      modifies db
      ensures res == FillOutcome(name, convert, raw)
      ensures db.log == old(db.log) + FillLog(name, convert, raw)
      ensures raw.Obj? && res.Pass? ==> dataFields == FillSpec(name, convert, raw.entries).fields
    {
      dataFields := map[];
      if !raw.Obj? {
        return Fail(AttributeError), dataFields;
      }
      var records := raw.entries;
      ghost var start := db.log;
      for i := 0 to |records|
        invariant |start| <= |db.log| && db.log[..|start|] == start
        invariant FillSpec(name, convert, records[..i]) == FillState(db.log[|start|..], dataFields, None)
      {
        assert records[..i + 1][..i] == records[..i];
        var step := Record(records[i].1, dataFields);
        assert FillSpec(name, convert, records[..i + 1]) == Advance(FillSpec(name, convert, records[..i]), step);
        if step.Failure? {
          FillFails(name, convert, records, i, step.error);
          return Fail(step.error), dataFields;
        }
        dataFields := step.value.fields;
        if step.value.insert.Some? {
          ghost var before := db.log[|start|..];
          db.Execute(step.value.insert.value);
          assert db.log[|start|..] == before + [step.value.insert.value];
        }
      }
      assert records[..|records|] == records;
      if |dataFields| == 0 {
        return Fail(EmptyReport), dataFields;
      }
      res := Pass;
    }

    /** `__init__`: opens the handler, then runs `create` and, when that succeeds, `fill`. */
    static method Open(file: string, name: string, convert: seq<Conversion>, raw: Value)
      returns (inj: Injector, res: Outcome<PyError>)
      ensures fresh(inj) && fresh(inj.db) && inj.name == name && inj.convert == convert
      ensures res == InitOutcome(name, convert, raw)
      ensures inj.db.log == InitLog(name, convert, raw)
    {
      inj := new Injector(file, name, convert);
      res := inj.Create();
      ghost var created := inj.db.log;
      assert created == Database.CreateTableLog(name, FieldNames(convert), ColTypes(convert), true);
      if res.Fail? {
        return;
      }
      var fields;
      res, fields := inj.Fill(raw);
      assert inj.db.log == created + FillLog(name, convert, raw);
    }
  }

  /** A record's error ends the loop: the state of every longer prefix is the state with that error. */
  lemma {:induction false} FillErrorSticks(name: string, convs: seq<Conversion>, records: seq<(string, Value)>, k: nat)
    requires k <= |records| && FillSpec(name, convs, records[..k]).error.Some?
    ensures FillSpec(name, convs, records) == FillSpec(name, convs, records[..k])
    decreases |records| - k
  {
    if k < |records| {
      assert records[..k + 1][..k] == records[..k];
      FillErrorSticks(name, convs, records, k + 1);
    } else {
      assert records[..k] == records;
    }
  }

  lemma FillFails(name: string, convs: seq<Conversion>, records: seq<(string, Value)>, i: nat, e: PyError)
    requires i < |records|
    requires FillSpec(name, convs, records[..i]).error.None?
    requires RecordSpec(name, convs, records[i].1, FillSpec(name, convs, records[..i]).fields) == Failure(e)
    ensures FillSpec(name, convs, records).error == Some(e)
    ensures FillSpec(name, convs, records).log == FillSpec(name, convs, records[..i]).log
  {
    assert records[..i + 1][..i] == records[..i];
    FillErrorSticks(name, convs, records, i + 1);
  }

  // ---------------------------------------------------------------------
  // Properties of one record

  /** A record with a negative `num` has its keys registered but issues no INSERT. */
  lemma SkipsNegative(name: string, convs: seq<Conversion>, rec: Value, df: map<string, bool>, n: int)
    requires rec.Obj? && Get(rec.entries, "num") == Some(Int(n)) && n < 0
    ensures RecordSpec(name, convs, rec, df) == Success(Step(Register(df, Flatten(rec).0), None))
  {
  }

  /** A record without `num` raises KeyError; one that is not a dict raises AttributeError. */
  lemma RecordErrors(name: string, convs: seq<Conversion>, rec: Value, df: map<string, bool>)
    ensures !rec.Obj? ==> RecordSpec(name, convs, rec, df) == Failure(AttributeError)
    ensures rec.Obj? && (forall i :: 0 <= i < |rec.entries| ==> rec.entries[i].0 != "num") ==>
      RecordSpec(name, convs, rec, df) == Failure(KeyError("num"))
  {
  }

  /**
   * `data_fields` after a record: its keys are the old keys and the record's
   * flattened keys; a flag never falls back to False; and a flag that rises
   * belongs to a key of the record's row that resolved to a value.
   */
  lemma RecordFields(name: string, convs: seq<Conversion>, rec: Value, df: map<string, bool>)
    requires RecordSpec(name, convs, rec, df).Success?
    ensures rec.Obj?
    ensures var step := RecordSpec(name, convs, rec, df).value;
      step.fields.Keys == df.Keys + KeySet(Flatten(rec).0)
      && (forall k <- df :: df[k] ==> step.fields[k])
      && (forall k <- step.fields :: step.fields[k] && !(k in df && df[k]) ==>
            step.insert.Some? && k in RowSpec(Flatten(rec).0, Flatten(rec).1, convs).value.seen)
  {
    var (keys, vals) := Flatten(rec);
    var num := Get(rec.entries, "num").value;
    if !LessThanZero(num).value {
      RowPairs(keys, vals, convs);
    }
  }

  // ---------------------------------------------------------------------
  // Properties of the whole loop

  /** The flattened keys of the records, all of which are dicts. */
  function AllKeys(records: seq<(string, Value)>): set<string>
  {
    if records == [] then {}
    else
      var last := records[|records| - 1].1;
      AllKeys(records[..|records| - 1]) + (if last.Obj? then KeySet(Flatten(last).0) else {})
  }

  /** When no record fails, the keys of `data_fields` are exactly the flattened keys of all records. */
  lemma {:induction false} FillKeys(name: string, convs: seq<Conversion>, records: seq<(string, Value)>)
    requires FillSpec(name, convs, records).error.None?
    ensures FillSpec(name, convs, records).fields.Keys == AllKeys(records)
  {
    if records != [] {
      var front := records[..|records| - 1];
      var st := FillSpec(name, convs, front);
      FillKeys(name, convs, front);
      RecordFields(name, convs, records[|records| - 1].1, st.fields);
    }
  }

  /** A flag of `data_fields` that is True after some records stays True after more of them. */
  lemma {:induction false} FillMonotone(name: string, convs: seq<Conversion>, records: seq<(string, Value)>, i: nat, k: string)
    requires i <= |records| && FillSpec(name, convs, records).error.None?
    requires k in FillSpec(name, convs, records[..i]).fields && FillSpec(name, convs, records[..i]).fields[k]
    ensures k in FillSpec(name, convs, records).fields && FillSpec(name, convs, records).fields[k]
    decreases |records| - i
  {
    if i == |records| {
      assert records[..i] == records;
    } else {
      var front := records[..|records| - 1];
      assert front[..i] == records[..i];
      var st := FillSpec(name, convs, front);
      assert st.error.None?;
      FillMonotone(name, convs, front, i, k);
      RecordFields(name, convs, records[|records| - 1].1, st.fields);
    }
  }

  /** Every command `fill` issues is an INSERT into its own table, at most one per record. */
  lemma {:induction false} FillLogShape(name: string, convs: seq<Conversion>, records: seq<(string, Value)>)
    ensures |FillSpec(name, convs, records).log| <= |records|
    ensures forall c <- FillSpec(name, convs, records).log :: StartsWith(c, "INSERT INTO " + name + " (")
  {
    if records != [] {
      var front := records[..|records| - 1];
      FillLogShape(name, convs, front);
      var st := FillSpec(name, convs, front);
      if st.error.None? {
        var r := RecordSpec(name, convs, records[|records| - 1].1, st.fields);
        if r.Success? && r.value.insert.Some? {
          var rec := records[|records| - 1].1;
          var (keys, vals) := Flatten(rec);
          var row := RowSpec(keys, vals, convs).value;
          InsertPrefix(name, row.fields, row.values);
        }
      }
    }
  }

  lemma InsertPrefix(name: string, fields: seq<string>, values: seq<string>)
    ensures StartsWith(InsertCommand(name, fields, values), "INSERT INTO " + name + " (")
  {
    var head := "INSERT INTO " + name + " (";
    var tail := Join(", ", fields) + ")\nVALUES (" + Join(", ", values) + ")";
    assert InsertCommand(name, fields, values) == head + tail;
    assert (head + tail)[..|head|] == head;
  }

  /** A source without records ends in the `max()` error of the report, after issuing nothing. */
  lemma EmptySource(name: string, convs: seq<Conversion>)
    ensures FillOutcome(name, convs, Obj([])) == Fail(EmptyReport)
    ensures FillLog(name, convs, Obj([])) == []
  {
  }
}
