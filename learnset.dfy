/**
 * `Learnset.create` (src/CreateDatabase.py): every move any Pokémon learns,
 * de-duplicated in first-seen order, is split over tables of at most 100
 * move columns, and each Pokémon with a non-empty learnset gets one INSERT
 * per table. Python's iteration order of the overlap set is a parameter
 * `order` that lists a set.
 */
module Learnsets {
  import opened Builtins
  import opened Json
  import Database

  // ---------------------------------------------------------------------
  // The de-duplicated move list

  /** `xs` holds each element of `S` exactly once, and nothing else. */
  ghost predicate Listing(xs: seq<string>, S: set<string>)
  {
    (forall i, j :: 0 <= i < j < |xs| ==> xs[i] != xs[j]) && (forall x :: x in xs <==> x in S)
  }

  /** An iteration order for sets of moves. */
  ghost predicate ValidOrder(order: set<string> -> seq<string>)
  {
    forall s :: Listing(order(s), s)
  }

  /** `for x in xs: if x not in d: d.append(x)` */
  function AddNew(d: seq<string>, xs: seq<string>): (r: seq<string>)
    ensures forall x :: x in r <==> x in d || x in xs
  {
    if xs == [] then d
    else
      var r := AddNew(d, xs[..|xs| - 1]);
      var x := xs[|xs| - 1];
      assert forall y :: y in xs <==> y in xs[..|xs| - 1] || y == x by {
        assert xs == xs[..|xs| - 1] + [x];
      }
      if x in r then r else r + [x]
  }

  function Dedupe(xs: seq<string>): seq<string>
  {
    AddNew([], xs)
  }

  predicate Distinct(xs: seq<string>)
  {
    forall i, j :: 0 <= i < j < |xs| ==> xs[i] != xs[j]
  }

  lemma {:induction false} AddNewDistinct(d: seq<string>, xs: seq<string>)
    requires Distinct(d)
    ensures Distinct(AddNew(d, xs))
    ensures |d| <= |AddNew(d, xs)| && AddNew(d, xs)[..|d|] == d
  {
    if xs != [] {
      AddNewDistinct(d, xs[..|xs| - 1]);
      var r := AddNew(d, xs[..|xs| - 1]);
      var x := xs[|xs| - 1];
      if x !in r {
        assert (r + [x])[..|d|] == r[..|d|];
      }
    }
  }

  /**
   * `allmoves` lists every move once, keeps nothing else, and keeps each move
   * where it was first seen: a move already listed adds nothing.
   */
  lemma DedupeMeaning(xs: seq<string>, x: string)
    ensures Distinct(Dedupe(xs))
    ensures forall y :: y in Dedupe(xs) <==> y in xs
    ensures x in xs ==> Dedupe(xs + [x]) == Dedupe(xs)
    ensures x !in xs ==> Dedupe(xs + [x]) == Dedupe(xs) + [x]
  {
    AddNewDistinct([], xs);
    assert (xs + [x])[..|xs|] == xs;
  }

  lemma {:induction false} AddNewConcat(d: seq<string>, xs: seq<string>, ys: seq<string>)
    ensures AddNew(d, xs + ys) == AddNew(AddNew(d, xs), ys)
    decreases |ys|
  {
    if ys == [] {
      assert xs + ys == xs;
    } else {
      var ys' := ys[..|ys| - 1];
      assert (xs + ys)[..|xs + ys| - 1] == xs + ys';
      AddNewConcat(d, xs, ys');
    }
  }

  // ---------------------------------------------------------------------
  // Collecting the learnsets

  /** `",".join(details)`: joining iterates a list's items, a string's characters or a dict's keys. */
  function JoinDetails(details: Value): Result<string, PyError>
  {
    match details
    case Arr(xs) =>
      if forall i :: 0 <= i < |xs| ==> xs[i].Str? then
        Success(Join(",", seq(|xs|, i requires 0 <= i < |xs| && xs[i].Str? => xs[i].s)))
      else Failure(TypeError)
    case Str(s) => Success(Join(",", seq(|s|, i requires 0 <= i < |s| => [s[i]])))
    case Obj(es) => Success(Join(",", seq(|es|, i requires 0 <= i < |es| => es[i].0)))
    case _ => Failure(TypeError)
  }

  /** One Pokémon's moves with their joined details (`flat[poke]`), after the first entries. */
  function MovesOf(es: seq<(string, Value)>): Result<seq<(string, string)>, PyError>
  {
    if es == [] then Success([])
    else
      var front := MovesOf(es[..|es| - 1]);
      if front.Failure? then front
      else
        var text := JoinDetails(es[|es| - 1].1);
        if text.Failure? then Failure(text.error) else Success(front.value + [(es[|es| - 1].0, text.value)])
  }

  /** `data.get("learnset", {})`, which needs `data` to be a dict and gives a dict. */
  function LearnsetOf(data: Value): Result<seq<(string, Value)>, PyError>
  {
    if !data.Obj? then Failure(AttributeError)
    else
      var found := Get(data.entries, "learnset");
      var learnset := if found.Some? then found.value else Obj([]);
      if !learnset.Obj? then Failure(AttributeError) else Success(learnset.entries)
  }

  /** `flat` after the first Pokémon. */
  function FlatOf(pokes: seq<(string, Value)>): Result<seq<(string, seq<(string, string)>)>, PyError>
  {
    if pokes == [] then Success([])
    else
      var front := FlatOf(pokes[..|pokes| - 1]);
      if front.Failure? then front
      else
        var (poke, data) := pokes[|pokes| - 1];
        var learnset := LearnsetOf(data);
        if learnset.Failure? then Failure(learnset.error)
        else
          var moves := MovesOf(learnset.value);
          if moves.Failure? then Failure(moves.error) else Success(front.value + [(poke, moves.value)])
  }

  function Names(moves: seq<(string, string)>): (r: seq<string>)
    ensures |r| == |moves| && forall i :: 0 <= i < |r| ==> r[i] == moves[i].0
  {
    seq(|moves|, i requires 0 <= i < |moves| => moves[i].0)
  }

  /** Every move of every Pokémon, in visiting order, repeats included. */
  function AllNames(flat: seq<(string, seq<(string, string)>)>): seq<string>
  {
    if flat == [] then [] else AllNames(flat[..|flat| - 1]) + Names(flat[|flat| - 1].1)
  }

  /** What the first loop of `create` builds: `flat` and `allmoves`. */
  function CollectSpec(rawdata: Value): Result<(seq<(string, seq<(string, string)>)>, seq<string>), PyError>
  {
    if !rawdata.Obj? then Failure(AttributeError)
    else
      var flat := FlatOf(rawdata.entries);
      if flat.Failure? then Failure(flat.error) else Success((flat.value, Dedupe(AllNames(flat.value))))
  }

  // ---------------------------------------------------------------------
  // Chunks

  // `chunksize` in `create` is 100.

  /** `math.ceil(n / chunksize)` */
  function ChunkCount(n: nat): nat
  {
    (n + 100 - 1) / 100
  }

  function Min(a: int, b: int): int
  {
    if a < b then a else b
  }

  lemma ChunkBounds(n: nat, i: nat)
    requires i < ChunkCount(n)
    ensures i * 100 < n
  {
  }

  /** `allmoves[u:v]` of chunk `i`. */
  function Chunk(moves: seq<string>, i: nat): (r: seq<string>)
    requires i < ChunkCount(|moves|)
    ensures 0 < |r| <= 100
  {
    ChunkBounds(|moves|, i);
    moves[i * 100 .. Min((i + 1) * 100, |moves|)]
  }

  /** `f"{self.name}_{i}"` */
  function TableName(i: nat): string
  {
    "learnset_" + IntToString(i)
  }

  /** The first `k` entries of `locations`: each table's name and its moves. */
  function LocationsUpTo(moves: seq<string>, k: nat): (r: seq<(string, seq<string>)>)
    requires k <= ChunkCount(|moves|)
    ensures |r| == k
  {
    if k == 0 then [] else LocationsUpTo(moves, k - 1) + [(TableName(k - 1), Chunk(moves, k - 1))]
  }

  /** `locations` */
  function Locations(moves: seq<string>): seq<(string, seq<string>)>
  {
    LocationsUpTo(moves, ChunkCount(|moves|))
  }

  /** Table `i` is named after its number and holds chunk `i`. */
  lemma {:induction false} LocationAt(moves: seq<string>, k: nat, i: nat)
    requires i < k <= ChunkCount(|moves|)
    ensures LocationsUpTo(moves, k)[i] == (TableName(i), Chunk(moves, i))
  {
    if i < k - 1 {
      LocationAt(moves, k - 1, i);
    }
  }

  /** The count of chunks is the least that holds all moves. */
  lemma ChunkCountIsCeiling(n: nat)
    ensures ChunkCount(n) * 100 >= n
    ensures n > 0 ==> (ChunkCount(n) - 1) * 100 < n
    ensures n == 0 ==> ChunkCount(n) == 0
  {
  }

  /** Move `j` of `allmoves` is column `j % 100` (after `pokemon`) of table `j / 100`. */
  lemma MoveLocation(moves: seq<string>, j: nat)
    requires j < |moves|
    ensures j / 100 < ChunkCount(|moves|)
    ensures j % 100 < |Chunk(moves, j / 100)|
    ensures Chunk(moves, j / 100)[j % 100] == moves[j]
  {
    var i := j / 100;
    assert i * 100 <= j < (i + 1) * 100;
  }

  /** The chunks, concatenated in table order. */
  function Joined(locs: seq<(string, seq<string>)>): seq<string>
  {
    if locs == [] then [] else Joined(locs[..|locs| - 1]) + locs[|locs| - 1].1
  }

  lemma JoinedSnoc(locs: seq<(string, seq<string>)>, loc: (string, seq<string>))
    ensures Joined(locs + [loc]) == Joined(locs) + loc.1
  {
    assert (locs + [loc])[..|locs|] == locs;
  }

  lemma {:induction false} JoinedPrefix(moves: seq<string>, k: nat)
    requires k <= ChunkCount(|moves|)
    ensures Joined(LocationsUpTo(moves, k)) == moves[..Min(k * 100, |moves|)]
  {
    if k > 0 {
      JoinedPrefix(moves, k - 1);
      ChunkBounds(|moves|, k - 1);
      var u := (k - 1) * 100;
      var v := Min(k * 100, |moves|);
      assert Min(u, |moves|) == u;
      JoinedSnoc(LocationsUpTo(moves, k - 1), (TableName(k - 1), Chunk(moves, k - 1)));
      SliceJoin(moves, u, v);
    }
  }

  lemma SliceJoin(s: seq<string>, u: nat, v: nat)
    requires u <= v <= |s|
    ensures s[..u] + s[u..v] == s[..v]
  {
  }

  /** The tables cover `allmoves` exactly, in order, without overlap. */
  lemma ChunksCover(moves: seq<string>)
    ensures Joined(Locations(moves)) == moves
  {
    var n := ChunkCount(|moves|);
    JoinedPrefix(moves, n);
    ChunkCountIsCeiling(|moves|);
    assert moves[..Min(n * 100, |moves|)] == moves;
  }

  // ---------------------------------------------------------------------
  // Commands

  function Texts(n: nat): (r: seq<string>)
    ensures |r| == n && forall i :: 0 <= i < n ==> r[i] == "TEXT"
  {
    seq(n, _ => "TEXT")
  }

  /** The commands of `create_table` for one chunk: a column `pokemon` and one TEXT column per move. */
  function TableCreate(loc: (string, seq<string>)): seq<string>
  {
    Database.CreateTableLog(loc.0, ["pokemon"] + loc.1, Texts(|loc.1| + 1), true)
  }

  function CreateLog(locs: seq<(string, seq<string>)>): seq<string>
  {
    if locs == [] then [] else CreateLog(locs[..|locs| - 1]) + TableCreate(locs[|locs| - 1])
  }

  /** `learnset[move]`: the joined details of the last entry for that move. */
  function MoveText(learnset: seq<(string, string)>, move: string): string
  {
    if learnset == [] then ""
    else if learnset[|learnset| - 1].0 == move then learnset[|learnset| - 1].1
    else MoveText(learnset[..|learnset| - 1], move)
  }

  /** `set(moves) & set(learnset)` */
  function Overlap(moves: seq<string>, learnset: seq<(string, string)>): set<string>
  {
    (set m | m in moves) * (set e | e in learnset :: e.0)
  }

  function Quote(s: string): string
  {
    "'" + s + "'"
  }

  function QuotedTexts(learnset: seq<(string, string)>, overlap: seq<string>): (r: seq<string>)
    ensures |r| == |overlap| && forall i :: 0 <= i < |r| ==> r[i] == Quote(MoveText(learnset, overlap[i]))
  {
    seq(|overlap|, i requires 0 <= i < |overlap| => Quote(MoveText(learnset, overlap[i])))
  }

  /** The INSERT for one Pokémon into one table. */
  function InsertFor(poke: string, learnset: seq<(string, string)>, loc: (string, seq<string>), order: set<string> -> seq<string>): string
  {
    var overlap := order(Overlap(loc.1, learnset));
    var cols := Join(",", ["pokemon"] + overlap);
    var vals := Join(",", [Quote(poke)] + QuotedTexts(learnset, overlap));
    "INSERT INTO " + loc.0 + " (" + cols + ") VALUES (" + vals + ")"
  }

  /** One INSERT per table, for the tables `locs`. */
  function TableInserts(poke: string, learnset: seq<(string, string)>, locs: seq<(string, seq<string>)>, order: set<string> -> seq<string>): (r: seq<string>)
    ensures |r| == |locs|
  {
    if locs == [] then [] else TableInserts(poke, learnset, locs[..|locs| - 1], order) + [InsertFor(poke, learnset, locs[|locs| - 1], order)]
  }

  /** The INSERTs for the Pokémon `flat`; one with an empty learnset is skipped. */
  function InsertLog(flat: seq<(string, seq<(string, string)>)>, locs: seq<(string, seq<string>)>, order: set<string> -> seq<string>): seq<string>
  {
    if flat == [] then []
    else
      var (poke, learnset) := flat[|flat| - 1];
      InsertLog(flat[..|flat| - 1], locs, order) + (if learnset == [] then [] else TableInserts(poke, learnset, locs, order))
  }

  /** Every command `create` issues: the tables, then the INSERTs; nothing when collecting fails. */
  function LearnsetLog(rawdata: Value, order: set<string> -> seq<string>): seq<string>
  {
    var collected := CollectSpec(rawdata);
    if collected.Failure? then []
    else
      var locations := Locations(collected.value.1);
      CreateLog(locations) + InsertLog(collected.value.0, locations, order)
  }

  function LearnsetOutcome(rawdata: Value): Outcome<PyError>
  {
    var collected := CollectSpec(rawdata);
    if collected.Failure? then Fail(collected.error) else Pass
  }

  // ---------------------------------------------------------------------
  // The handler

  class Learnset {
    const db: Database.Database

    /** The handler `__init__` opens; `Learnset.fill` does nothing. */
    constructor (file: string)
      ensures fresh(db) && db.file == file && db.log == []
    {
      db := new Database.Database(file);
    }

    /**
     * The inner loop of the first loop of `create`: one Pokémon's moves with
     * their joined details, adding each move not yet seen to `allmoves`.
     */
    static method CollectMoves(es: seq<(string, Value)>, allmoves: seq<string>) returns (r: Result<(seq<(string, string)>, seq<string>), PyError>)
      ensures MovesOf(es).Failure? ==> r == Failure(MovesOf(es).error)
      ensures MovesOf(es).Success? ==> r == Success((MovesOf(es).value, AddNew(allmoves, Names(MovesOf(es).value))))
    {
      var moves: seq<(string, string)> := [];
      var seen := allmoves;
      for m := 0 to |es|
        invariant MovesOf(es[..m]) == Success(moves)
        invariant seen == AddNew(allmoves, Names(moves))
      {
        assert es[..m + 1][..m] == es[..m];
        var (move, details) := es[m];
        if move !in seen {
          seen := seen + [move];
        }
        var text := JoinDetails(details);
        if text.Failure? {
          MovesFails(es, m + 1);
          return Failure(text.error);
        }
        assert Names(moves + [(move, text.value)]) == Names(moves) + [move];
        moves := moves + [(move, text.value)];
      }
      assert es[..|es|] == es;
      r := Success((moves, seen));
    }

    /** The first loop of `create`: `flat[poke]` for each Pokémon and the growing `allmoves`. */
    static method Collect(rawdata: Value) returns (r: Result<(seq<(string, seq<(string, string)>)>, seq<string>), PyError>)
      ensures r == CollectSpec(rawdata)
    {
      if !rawdata.Obj? {
        return Failure(AttributeError);
      }
      var pokes := rawdata.entries;
      var flat: seq<(string, seq<(string, string)>)> := [];
      var allmoves: seq<string> := [];
      for p := 0 to |pokes|
        invariant FlatOf(pokes[..p]) == Success(flat)
        invariant allmoves == Dedupe(AllNames(flat))
      {
        assert pokes[..p + 1][..p] == pokes[..p];
        var (poke, data) := pokes[p];
        var learnset := LearnsetOf(data);
        if learnset.Failure? {
          FlatFails(pokes, p + 1);
          return Failure(learnset.error);
        }
        var collected := CollectMoves(learnset.value, allmoves);
        if collected.Failure? {
          FlatFails(pokes, p + 1);
          return Failure(collected.error);
        }
        var (moves, seen) := collected.value;
        FlatStep(pokes, p, flat, moves);
        flat := flat + [(poke, moves)];
        allmoves := seen;
      }
      assert pokes[..|pokes|] == pokes;
      r := Success((flat, allmoves));
    }

    /** One turn of the second loop of `create`: the table for chunk `i`. */
    method CreateChunk(allmoves: seq<string>, i: nat) returns (loc: (string, seq<string>))
      requires i < ChunkCount(|allmoves|)
      modifies db
      ensures loc == (TableName(i), Chunk(allmoves, i))
      ensures db.log == old(db.log) + TableCreate(loc)
    {
      ChunkBounds(|allmoves|, i);
      var name := "learnset_" + IntToString(i);
      var u := i * 100;
      var v := Min((i + 1) * 100, |allmoves|);
      var slice := allmoves[u..v];
      var created := db.CreateTable(name, ["pokemon"] + slice, Texts((v - u) + 1), true);
      loc := (name, slice);
    }

    /** The second loop of `create`: one table per chunk of `allmoves`. */
    method CreateTables(allmoves: seq<string>) returns (locations: seq<(string, seq<string>)>)
      modifies db
      ensures locations == Locations(allmoves)
      ensures db.log == old(db.log) + CreateLog(locations)
    {
      locations := [];
      for i := 0 to ChunkCount(|allmoves|)
        invariant locations == LocationsUpTo(allmoves, i)
        invariant db.log == old(db.log) + CreateLog(locations)
      {
        var loc := CreateChunk(allmoves, i);
        CreateLogStep(locations, loc);
        LogAssoc(old(db.log), CreateLog(locations), TableCreate(loc));
        locations := locations + [loc];
      }
      assert locations == Locations(allmoves);
    }

    /** The INSERT for one Pokémon into one table, built as `create` builds it. */
    static method Insert(poke: string, learnset: seq<(string, string)>, loc: (string, seq<string>), order: set<string> -> seq<string>) returns (cmd: string)
      ensures cmd == InsertFor(poke, learnset, loc, order)
    {
      var (table, moves) := loc;
      var overlap := order(Overlap(moves, learnset));
      var thisLearnset: seq<string> := [];
      for q := 0 to |overlap|
        invariant thisLearnset == QuotedTexts(learnset, overlap[..q])
      {
        thisLearnset := thisLearnset + [Quote(MoveText(learnset, overlap[q]))];
      }
      assert overlap[..|overlap|] == overlap;
      var cols := Join(",", ["pokemon"] + overlap);
      var vals := Join(",", [Quote(poke)] + thisLearnset);
      cmd := "INSERT INTO " + table + " (" + cols + ") VALUES (" + vals + ")";
    }

    /** The inner loop of the third loop of `create`: one INSERT per table for a Pokémon. */
    method InsertPoke(poke: string, learnset: seq<(string, string)>, locations: seq<(string, seq<string>)>, order: set<string> -> seq<string>)
      modifies db
      ensures db.log == old(db.log) + TableInserts(poke, learnset, locations, order)
    {
      for t := 0 to |locations|
        invariant db.log == old(db.log) + TableInserts(poke, learnset, locations[..t], order)
      {
        assert locations[..t + 1][..t] == locations[..t];
        var cmd := Insert(poke, learnset, locations[t], order);
        LogAssoc(old(db.log), TableInserts(poke, learnset, locations[..t], order), [cmd]);
        db.Execute(cmd);
      }
      assert locations[..|locations|] == locations;
    }

    /** The third loop of `create`: the INSERTs of every Pokémon with a non-empty learnset. */
    method InsertAll(flat: seq<(string, seq<(string, string)>)>, locations: seq<(string, seq<string>)>, order: set<string> -> seq<string>)
      modifies db
      ensures db.log == old(db.log) + InsertLog(flat, locations, order)
    {
      for p := 0 to |flat|
        invariant db.log == old(db.log) + InsertLog(flat[..p], locations, order)
      {
        InsertLogStep(flat, p, locations, order);
        var (poke, learnset) := flat[p];
        if |learnset| > 0 {
          LogAssoc(old(db.log), InsertLog(flat[..p], locations, order), TableInserts(poke, learnset, locations, order));
          InsertPoke(poke, learnset, locations, order);
        } else {
          assert InsertLog(flat[..p + 1], locations, order) == InsertLog(flat[..p], locations, order) + [];
        }
      }
      assert flat[..|flat|] == flat;
    }

    /** `create`: collect, then one table per chunk, then the INSERTs of every Pokémon. */
    method Create(rawdata: Value, order: set<string> -> seq<string>) returns (res: Outcome<PyError>)
      modifies db
      ensures res == LearnsetOutcome(rawdata)
      ensures db.log == old(db.log) + LearnsetLog(rawdata, order)
    {
      var collected := Collect(rawdata);
      if collected.Failure? {
        return Fail(collected.error);
      }
      var flat := collected.value.0;
      var allmoves := collected.value.1;
      ghost var start := db.log;
      var locations := CreateTables(allmoves);
      InsertAll(flat, locations, order);
      ghost var inserts := InsertLog(flat, locations, order);
      assert LearnsetLog(rawdata, order) == CreateLog(locations) + inserts;
      LogAssoc(start, CreateLog(locations), inserts);
      res := Pass;
    }

    /** `__init__`: opens the handler and runs `create`; `fill` then does nothing. */
    static method Open(file: string, rawdata: Value, order: set<string> -> seq<string>)
      returns (handler: Learnset, res: Outcome<PyError>)
      ensures fresh(handler) && fresh(handler.db) && handler.db.file == file
      ensures res == LearnsetOutcome(rawdata)
      ensures handler.db.log == LearnsetLog(rawdata, order)
    {
      handler := new Learnset(file);
      res := handler.Create(rawdata, order);
    }
  }

  /** One more Pokémon whose moves collect without error extends `flat` and `allmoves`. */
  lemma FlatStep(pokes: seq<(string, Value)>, p: nat, flat: seq<(string, seq<(string, string)>)>, moves: seq<(string, string)>)
    requires p < |pokes| && FlatOf(pokes[..p]) == Success(flat)
    requires LearnsetOf(pokes[p].1).Success? && MovesOf(LearnsetOf(pokes[p].1).value) == Success(moves)
    ensures FlatOf(pokes[..p + 1]) == Success(flat + [(pokes[p].0, moves)])
    ensures AddNew(Dedupe(AllNames(flat)), Names(moves)) == Dedupe(AllNames(flat + [(pokes[p].0, moves)]))
  {
    assert pokes[..p + 1][..p] == pokes[..p];
    AddNewConcat([], AllNames(flat), Names(moves));
    assert (flat + [(pokes[p].0, moves)])[..|flat|] == flat;
  }

  lemma LogAssoc(a: seq<string>, b: seq<string>, c: seq<string>)
    ensures a + b + c == a + (b + c)
  {
  }

  lemma CreateLogStep(locs: seq<(string, seq<string>)>, loc: (string, seq<string>))
    ensures CreateLog(locs + [loc]) == CreateLog(locs) + TableCreate(loc)
  {
    assert (locs + [loc])[..|locs|] == locs;
  }

  lemma InsertLogStep(flat: seq<(string, seq<(string, string)>)>, p: nat, locs: seq<(string, seq<string>)>, order: set<string> -> seq<string>)
    requires p < |flat|
    ensures InsertLog(flat[..p + 1], locs, order)
         == InsertLog(flat[..p], locs, order) + (if flat[p].1 == [] then [] else TableInserts(flat[p].0, flat[p].1, locs, order))
  {
    assert flat[..p + 1][..p] == flat[..p];
  }

  lemma {:induction false} MovesFailsFrom(es: seq<(string, Value)>, k: nat)
    requires k <= |es| && MovesOf(es[..k]).Failure?
    ensures MovesOf(es) == MovesOf(es[..k])
    decreases |es| - k
  {
    if k < |es| {
      assert es[..k + 1][..k] == es[..k];
      MovesFailsFrom(es, k + 1);
    } else {
      assert es[..k] == es;
    }
  }

  lemma MovesFails(es: seq<(string, Value)>, k: nat)
    requires k <= |es| && MovesOf(es[..k]).Failure?
    ensures MovesOf(es) == MovesOf(es[..k])
  {
    MovesFailsFrom(es, k);
  }

  lemma {:induction false} FlatFails(pokes: seq<(string, Value)>, k: nat)
    requires k <= |pokes| && FlatOf(pokes[..k]).Failure?
    ensures FlatOf(pokes) == FlatOf(pokes[..k])
    decreases |pokes| - k
  {
    if k < |pokes| {
      assert pokes[..k + 1][..k] == pokes[..k];
      FlatFails(pokes, k + 1);
    } else {
      assert pokes[..k] == pokes;
    }
  }
}

module LearnsetProperties {
  import opened Builtins
  import opened Json
  import opened Learnsets
  import Database

  lemma {:induction false} FieldsZip(columns: seq<string>, types: seq<string>)
    requires |columns| == |types|
    ensures |Database.TableFields(columns, types)| == |columns|
    ensures forall i :: 0 <= i < |columns| ==> Database.TableFields(columns, types)[i] == Database.Field(columns[i], types[i])
  {
    if columns != [] {
      FieldsZip(columns[1..], types[1..]);
    }
  }

  lemma PokemonField()
    ensures Database.Field("pokemon", "TEXT") == "pokemon TEXT"
  {
  }

  /**
   * Every chunk's table is dropped and re-created with a TEXT column
   * `pokemon` followed by a TEXT column per move of the chunk.
   */
  lemma TableColumns(loc: (string, seq<string>))
    ensures var fields := Database.TableFields(["pokemon"] + loc.1, Texts(|loc.1| + 1));
      && TableCreate(loc) == [Database.DropCommand(loc.0), Database.CreateCommand(loc.0, fields)]
      && |fields| == |loc.1| + 1 && fields[0] == "pokemon TEXT"
      && forall i :: 0 <= i < |loc.1| ==> fields[i + 1] == loc.1[i] + " TEXT"
  {
    var columns := ["pokemon"] + loc.1;
    var types := Texts(|loc.1| + 1);
    FieldsZip(columns, types);
    var fields := Database.TableFields(columns, types);
    assert fields != [];
    assert TableCreate(loc) == [Database.DropCommand(loc.0)] + [Database.CreateCommand(loc.0, fields)];
    assert fields[0] == Database.Field(columns[0], types[0]);
    PokemonField();
    forall i | 0 <= i < |loc.1|
      ensures fields[i + 1] == loc.1[i] + " TEXT"
    {
      assert columns[i + 1] == loc.1[i];
    }
  }

  /** Different chunks go to differently named tables. */
  lemma TableNamesDistinct(i: nat, j: nat)
    requires TableName(i) == TableName(j)
    ensures i == j
  {
    assert TableName(i)[9..] == IntToString(i);
    assert TableName(j)[9..] == IntToString(j);
  }

  /** The INSERTs of a Pokémon go into the tables in order, one each. */
  lemma {:induction false} InsertsPerTable(poke: string, learnset: seq<(string, string)>, locs: seq<(string, seq<string>)>, order: set<string> -> seq<string>, t: nat)
    requires t < |locs|
    ensures TableInserts(poke, learnset, locs, order)[t] == InsertFor(poke, learnset, locs[t], order)
  {
    if t < |locs| - 1 {
      InsertsPerTable(poke, learnset, locs[..|locs| - 1], order, t);
    }
  }

  /**
   * The columns of the INSERT into a table, after `pokemon`, are the moves
   * both in that table and in the Pokémon's learnset, each exactly once.
   */
  lemma InsertColumns(poke: string, learnset: seq<(string, string)>, loc: (string, seq<string>), order: set<string> -> seq<string>)
    requires ValidOrder(order)
    ensures var overlap := order(Overlap(loc.1, learnset));
      && Distinct(overlap)
      && (forall m :: m in overlap <==> m in loc.1 && m in Names(learnset))
      && InsertFor(poke, learnset, loc, order)
         == "INSERT INTO " + loc.0 + " (" + Join(",", ["pokemon"] + overlap) + ") VALUES (" + Join(",", [Quote(poke)] + QuotedTexts(learnset, overlap)) + ")"
  {
    var S := Overlap(loc.1, learnset);
    assert Listing(order(S), S);
    forall m
      ensures m in S <==> m in loc.1 && m in Names(learnset)
    {
      if m in Names(learnset) {
        var i :| 0 <= i < |learnset| && Names(learnset)[i] == m;
        assert learnset[i] in learnset;
      }
      if m in S {
        var e :| e in learnset && e.0 == m;
        var i :| 0 <= i < |learnset| && learnset[i] == e;
        assert Names(learnset)[i] == m;
      }
    }
  }

  /** The value written for a column is the joined details of that move. */
  lemma {:induction false} MoveTextOf(learnset: seq<(string, string)>, i: nat)
    requires i < |learnset|
    requires forall j :: i < j < |learnset| ==> learnset[j].0 != learnset[i].0
    ensures MoveText(learnset, learnset[i].0) == learnset[i].1
  {
    if i < |learnset| - 1 {
      MoveTextOf(learnset[..|learnset| - 1], i);
    }
  }

  /** The number of Pokémon with a non-empty learnset. */
  function NonEmpty(flat: seq<(string, seq<(string, string)>)>): nat
  {
    if flat == [] then 0 else NonEmpty(flat[..|flat| - 1]) + (if flat[|flat| - 1].1 == [] then 0 else 1)
  }

  /** One INSERT per table for every Pokémon that learns anything, none for the rest. */
  lemma {:induction false} InsertCount(flat: seq<(string, seq<(string, string)>)>, locs: seq<(string, seq<string>)>, order: set<string> -> seq<string>)
    ensures |InsertLog(flat, locs, order)| == |locs| * NonEmpty(flat)
  {
    if flat != [] {
      var front := flat[..|flat| - 1];
      InsertCount(front, locs, order);
      InsertLogStep(flat, |flat| - 1, locs, order);
      assert flat[..|flat|] == flat;
      MulStep(|locs|, NonEmpty(front));
    }
  }

  lemma MulStep(a: nat, c: nat)
    ensures a * (c + 1) == a * c + a
  {
  }

  /**
   * A Pokémon's moves keep the order and names of its learnset, each with
   * its joined details; collecting fails exactly when some details cannot
   * be joined.
   */
  lemma {:induction false} MovesMeaning(es: seq<(string, Value)>)
    ensures MovesOf(es).Success? <==> forall i :: 0 <= i < |es| ==> JoinDetails(es[i].1).Success?
    ensures MovesOf(es).Success? ==>
      var moves := MovesOf(es).value;
      && |moves| == |es|
      && forall i :: 0 <= i < |es| ==> moves[i].0 == es[i].0 && JoinDetails(es[i].1) == Success(moves[i].1)
  {
    if es != [] {
      var front := es[..|es| - 1];
      MovesMeaning(front);
      assert forall i :: 0 <= i < |front| ==> front[i] == es[i];
    }
  }

  /** `flat` lists the Pokémon in file order, each with the moves of its learnset. */
  lemma {:induction false} FlatMeaning(pokes: seq<(string, Value)>)
    ensures FlatOf(pokes).Success? ==>
      var flat := FlatOf(pokes).value;
      && |flat| == |pokes|
      && forall i :: 0 <= i < |pokes| ==>
           flat[i].0 == pokes[i].0 && LearnsetOf(pokes[i].1).Success?
           && MovesOf(LearnsetOf(pokes[i].1).value) == Success(flat[i].1)
  {
    if pokes != [] {
      var front := pokes[..|pokes| - 1];
      FlatMeaning(front);
      assert forall i :: 0 <= i < |front| ==> front[i] == pokes[i];
    }
  }

  lemma {:induction false} AllNamesHas(flat: seq<(string, seq<(string, string)>)>, p: nat, m: string)
    requires p < |flat| && m in Names(flat[p].1)
    ensures m in AllNames(flat)
  {
    if p < |flat| - 1 {
      AllNamesHas(flat[..|flat| - 1], p, m);
    }
  }

  /**
   * Every move a Pokémon learns has a column in some table, and the INSERT
   * of that Pokémon into that table fills it.
   */
  lemma EveryMoveStored(rawdata: Value, order: set<string> -> seq<string>, p: nat, m: string)
    requires ValidOrder(order)
    requires CollectSpec(rawdata).Success?
    requires p < |CollectSpec(rawdata).value.0|
    requires m in Names(CollectSpec(rawdata).value.0[p].1)
    ensures var (flat, allmoves) := CollectSpec(rawdata).value;
      var locations := Locations(allmoves);
      exists t :: 0 <= t < |locations| && m in locations[t].1
        && m in order(Overlap(locations[t].1, flat[p].1))
  {
    var (flat, allmoves) := CollectSpec(rawdata).value;
    AllNamesHas(flat, p, m);
    DedupeMeaning(AllNames(flat), m);
    var j :| 0 <= j < |allmoves| && allmoves[j] == m;
    MoveLocation(allmoves, j);
    var t := j / 100;
    LocationAt(allmoves, ChunkCount(|allmoves|), t);
    var loc := Locations(allmoves)[t];
    assert m in loc.1;
    InsertColumns(flat[p].0, flat[p].1, loc, order);
  }

  /** Nothing is executed when the data cannot be collected. */
  lemma FailureWritesNothing(rawdata: Value, order: set<string> -> seq<string>)
    requires !rawdata.Obj? || FlatOf(rawdata.entries).Failure?
    ensures LearnsetOutcome(rawdata).Fail? && LearnsetLog(rawdata, order) == []
  {
  }
}
