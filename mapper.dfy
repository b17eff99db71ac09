/**
 * The record-to-row mapping inside `Injector.fill` (src/CreateDatabase.py):
 * `Conversion` rules, `flatten_dict`, the split of a rule's path into a
 * lookup key and list indices, the reduction of several candidate values to
 * one, the coercion of that value to SQL literal text, and the INSERT text.
 */
module Mapper {
  import opened Builtins
  import opened Json
  import CleanSql

  // ---------------------------------------------------------------------
  // Conversion rules

  /** One step of a JSON path: a dictionary key or a list index. */
  datatype PathItem = Key(key: string) | Index(index: int)

  /** One element of a rule's `jsonpath`: a path step, or (for a rule with several paths) a whole path. */
  datatype PathEntry = Item(item: PathItem) | Sub(path: seq<PathItem>)

  /** A `Conversion`: the SQL column, where its value is found, and its SQL type. */
  datatype Conversion = Conversion(fieldname: string, jsonpath: seq<PathEntry>, colType: string, multipath: bool)

  /** `Conversion.__init__`; `jsonpath[0]` raises IndexError on an empty path. */
  function NewConversion(fieldname: string, jsonpath: seq<PathEntry>, colType: string): (r: Result<Conversion, PyError>)
    ensures r.Failure? <==> jsonpath == []
    ensures r.Failure? ==> r.error == IndexError
    ensures r.Success? ==> r.value.fieldname == fieldname && r.value.jsonpath == jsonpath && r.value.colType == colType
    ensures r.Success? ==> (r.value.multipath <==> jsonpath[0].Sub?)
  {
    if jsonpath == [] then Failure(IndexError)
    else Success(Conversion(fieldname, jsonpath, colType, jsonpath[0].Sub?))
  }

  // ---------------------------------------------------------------------
  // flatten_dict

  /** `[f"{k}/{val}" for val in subkeys]` */
  function Prefixed(k: string, subkeys: seq<string>): (r: seq<string>)
    ensures |r| == |subkeys|
    ensures forall i :: 0 <= i < |r| ==> r[i] == k + "/" + subkeys[i]
  {
    seq(|subkeys|, i requires 0 <= i < |subkeys| => k + "/" + subkeys[i])
  }

  /** The keys and values `flatten_dict(obj)` has gathered after the first `n` entries. */
  function FlattenPrefix(obj: Value, n: nat): (r: (seq<string>, seq<Value>))
    requires obj.Obj? && n <= |obj.entries|
    ensures |r.0| == |r.1|
    ensures forall v <- r.1 :: !v.Obj?
    decreases obj, n
  {
    if n == 0 then ([], [])
    else
      var front := FlattenPrefix(obj, n - 1);
      var (k, v) := obj.entries[n - 1];
      if v.Obj? then
        var sub := FlattenPrefix(v, |v.entries|);
        (front.0 + Prefixed(k, sub.0), front.1 + sub.1)
      else
        (front.0 + [k], front.1 + [v])
  }

  /** `flatten_dict(obj)`: every non-dict value under its `/`-joined key, in entry order. */
  function Flatten(obj: Value): (r: (seq<string>, seq<Value>))
    requires obj.Obj?
    ensures |r.0| == |r.1|
    ensures forall v <- r.1 :: !v.Obj?
  {
    FlattenPrefix(obj, |obj.entries|)
  }

  /** `flatten_dict`: recurses into each dict value and extends its own lists. */
  method FlattenDict(data: Value) returns (keys: seq<string>, vals: seq<Value>)
    requires data.Obj?
    ensures (keys, vals) == Flatten(data)
    decreases data
  {
    keys := [];
    vals := [];
    var i := 0;
    while i < |data.entries|
      invariant 0 <= i <= |data.entries|
      invariant (keys, vals) == FlattenPrefix(data, i)
    {
      var (k, v) := data.entries[i];
      if v.Obj? {
        var newkeys, newvals := FlattenDict(v);
        keys := keys + Prefixed(k, newkeys);
        vals := vals + newvals;
      } else {
        keys := keys + [k];
        vals := vals + [v];
      }
      i := i + 1;
    }
  }

  /** Two objects that agree on their first `n` entries flatten them alike. */
  lemma {:induction false} FlattenPrefixAgree(o1: Value, o2: Value, n: nat)
    requires o1.Obj? && o2.Obj? && n <= |o1.entries| && n <= |o2.entries|
    requires o1.entries[..n] == o2.entries[..n]
    ensures FlattenPrefix(o1, n) == FlattenPrefix(o2, n)
  {
    if n > 0 {
      assert o1.entries[..n - 1] == o1.entries[..n][..n - 1];
      assert o2.entries[..n - 1] == o2.entries[..n][..n - 1];
      assert o1.entries[n - 1] == o1.entries[..n][n - 1];
      assert o2.entries[n - 1] == o2.entries[..n][n - 1];
      FlattenPrefixAgree(o1, o2, n - 1);
    }
  }

  lemma {:induction false} FlattenConcatPrefix(a: seq<(string, Value)>, b: seq<(string, Value)>, m: nat)
    requires m <= |b|
    ensures FlattenPrefix(Obj(a + b), |a| + m) ==
      (Flatten(Obj(a)).0 + FlattenPrefix(Obj(b), m).0, Flatten(Obj(a)).1 + FlattenPrefix(Obj(b), m).1)
  {
    if m == 0 {
      FlattenConcatBase(a, b);
    } else {
      FlattenConcatPrefix(a, b, m - 1);
      FlattenConcatStep(a, b, m);
    }
  }

  lemma FlattenConcatBase(a: seq<(string, Value)>, b: seq<(string, Value)>)
    ensures FlattenPrefix(Obj(a + b), |a|) ==
      (Flatten(Obj(a)).0 + FlattenPrefix(Obj(b), 0).0, Flatten(Obj(a)).1 + FlattenPrefix(Obj(b), 0).1)
  {
    assert (a + b)[..|a|] == a[..|a|];
    FlattenPrefixAgree(Obj(a + b), Obj(a), |a|);
    var fa := Flatten(Obj(a));
    assert FlattenPrefix(Obj(b), 0) == ([], []);
    assert fa.0 + [] == fa.0 && fa.1 + [] == fa.1;
  }

  lemma FlattenConcatStep(a: seq<(string, Value)>, b: seq<(string, Value)>, m: nat)
    requires 0 < m <= |b|
    requires FlattenPrefix(Obj(a + b), |a| + m - 1) ==
      (Flatten(Obj(a)).0 + FlattenPrefix(Obj(b), m - 1).0, Flatten(Obj(a)).1 + FlattenPrefix(Obj(b), m - 1).1)
    ensures FlattenPrefix(Obj(a + b), |a| + m) ==
      (Flatten(Obj(a)).0 + FlattenPrefix(Obj(b), m).0, Flatten(Obj(a)).1 + FlattenPrefix(Obj(b), m).1)
  {
    assert (a + b)[|a| + m - 1] == b[m - 1];
    var (k, v) := b[m - 1];
    var fa := Flatten(Obj(a));
    var fb := FlattenPrefix(Obj(b), m - 1);
    if v.Obj? {
      var sub := FlattenPrefix(v, |v.entries|);
      assert FlattenPrefix(Obj(b), m) == (fb.0 + Prefixed(k, sub.0), fb.1 + sub.1);
      assert FlattenPrefix(Obj(a + b), |a| + m) == ((fa.0 + fb.0) + Prefixed(k, sub.0), (fa.1 + fb.1) + sub.1);
      assert (fa.0 + fb.0) + Prefixed(k, sub.0) == fa.0 + (fb.0 + Prefixed(k, sub.0));
      assert (fa.1 + fb.1) + sub.1 == fa.1 + (fb.1 + sub.1);
    } else {
      assert FlattenPrefix(Obj(b), m) == (fb.0 + [k], fb.1 + [v]);
      assert FlattenPrefix(Obj(a + b), |a| + m) == ((fa.0 + fb.0) + [k], (fa.1 + fb.1) + [v]);
      assert (fa.0 + fb.0) + [k] == fa.0 + (fb.0 + [k]);
      assert (fa.1 + fb.1) + [v] == fa.1 + (fb.1 + [v]);
    }
  }

  /** Flattening works entry group by entry group: the result of `a + b` is that of `a` followed by that of `b`. */
  lemma FlattenConcat(a: seq<(string, Value)>, b: seq<(string, Value)>)
    ensures Flatten(Obj(a + b)) == (Flatten(Obj(a)).0 + Flatten(Obj(b)).0, Flatten(Obj(a)).1 + Flatten(Obj(b)).1)
  {
    FlattenConcatPrefix(a, b, |b|);
  }

  /**
   * One entry alone: a non-dict value is kept under its own key (lists
   * included); a dict value is replaced by its own flattening with every key
   * prefixed `k/`, so an empty dict leaves nothing.
   */
  lemma FlattenSingle(k: string, v: Value)
    ensures !v.Obj? ==> Flatten(Obj([(k, v)])) == ([k], [v])
    ensures v.Obj? ==> Flatten(Obj([(k, v)])) == (Prefixed(k, Flatten(v).0), Flatten(v).1)
    ensures v == Obj([]) ==> Flatten(Obj([(k, v)])) == ([], [])
  {
    var o := Obj([(k, v)]);
    assert FlattenPrefix(o, 0) == ([], []);
    assert o.entries[0] == (k, v);
    if v.Obj? {
      var sub := Flatten(v);
      assert Flatten(o) == ([] + Prefixed(k, sub.0), [] + sub.1);
      assert [] + Prefixed(k, sub.0) == Prefixed(k, sub.0) && [] + sub.1 == sub.1;
    } else {
      assert Flatten(o) == ([] + [k], [] + [v]);
      assert [] + [k] == [k] && [] + [v] == [v];
    }
  }

  /** An object without nested dicts flattens to its own keys and values. */
  lemma {:induction false} FlattenFlatPrefix(es: seq<(string, Value)>, n: nat)
    requires n <= |es|
    requires forall i :: 0 <= i < |es| ==> !es[i].1.Obj?
    ensures FlattenPrefix(Obj(es), n).0 == seq(n, i requires 0 <= i < n => es[i].0)
    ensures FlattenPrefix(Obj(es), n).1 == seq(n, i requires 0 <= i < n => es[i].1)
  {
    if n > 0 {
      FlattenFlatPrefix(es, n - 1);
    }
  }

  lemma FlattenFlat(es: seq<(string, Value)>)
    requires forall i :: 0 <= i < |es| ==> !es[i].1.Obj?
    ensures Flatten(Obj(es)).0 == seq(|es|, i requires 0 <= i < |es| => es[i].0)
    ensures Flatten(Obj(es)).1 == seq(|es|, i requires 0 <= i < |es| => es[i].1)
  {
    FlattenFlatPrefix(es, |es|);
  }

  // ---------------------------------------------------------------------
  // Splitting a path into its lookup key and its indices

  predicate IsIndex(e: PathEntry)
  {
    e.Item? && e.item.Index?
  }

  /** The items of `p` that are not ints, in order (the `path` list before the join). */
  function KeyParts(p: seq<PathEntry>): (r: seq<PathEntry>)
    ensures forall e <- r :: !IsIndex(e)
  {
    if p == [] then []
    else if IsIndex(p[|p| - 1]) then KeyParts(p[..|p| - 1])
    else KeyParts(p[..|p| - 1]) + [p[|p| - 1]]
  }

  /** The int items of `p`, in order (the `idx` list). */
  function Indices(p: seq<PathEntry>): seq<int>
  {
    if p == [] then []
    else if IsIndex(p[|p| - 1]) then Indices(p[..|p| - 1]) + [p[|p| - 1].item.index]
    else Indices(p[..|p| - 1])
  }

  /** `"/".join(path)`, which raises TypeError when a part is a list rather than a string. */
  function KeyText(parts: seq<PathEntry>): (r: Result<string, PyError>)
  {
    if forall i :: 0 <= i < |parts| ==> parts[i].Item? && parts[i].item.Key? then
      Success(Join("/", seq(|parts|, i requires 0 <= i < |parts| && parts[i].Item? && parts[i].item.Key? => parts[i].item.key)))
    else Failure(TypeError)
  }

  /** The lookup key and the indices of one path. */
  function SplitSpec(p: seq<PathEntry>): Result<(string, seq<int>), PyError>
  {
    var key := KeyText(KeyParts(p));
    if key.Failure? then Failure(key.error) else Success((key.value, Indices(p)))
  }

  /** The `for item in p` loop that sorts the items of a path into `path` and `idx`, then the join. */
  method SplitPath(p: seq<PathEntry>) returns (r: Result<(string, seq<int>), PyError>)
    ensures r == SplitSpec(p)
  {
    var path: seq<PathEntry> := [];
    var idx: seq<int> := [];
    for k := 0 to |p|
      invariant path == KeyParts(p[..k]) && idx == Indices(p[..k])
    {
      assert p[..k + 1][..k] == p[..k];
      if p[k].Item? && p[k].item.Index? {
        idx := idx + [p[k].item.index];
      } else {
        path := path + [p[k]];
      }
    }
    assert p[..|p|] == p;
    var key := KeyText(path);
    if key.Failure? {
      return Failure(key.error);
    }
    r := Success((key.value, idx));
  }

  lemma {:induction false} PartsConcat(p: seq<PathEntry>, q: seq<PathEntry>)
    ensures KeyParts(p + q) == KeyParts(p) + KeyParts(q)
    ensures Indices(p + q) == Indices(p) + Indices(q)
    decreases |q|
  {
    if q == [] {
      assert p + q == p;
    } else {
      var q' := q[..|q| - 1];
      assert (p + q)[..|p + q| - 1] == p + q';
      PartsConcat(p, q');
    }
  }

  /** Every item of a path lands in exactly one of the two lists. */
  lemma {:induction false} PartsCount(p: seq<PathEntry>)
    ensures |KeyParts(p)| + |Indices(p)| == |p|
  {
    if p != [] {
      PartsCount(p[..|p| - 1]);
    }
  }

  function KeyPath(ks: seq<string>): seq<PathEntry>
  {
    seq(|ks|, i requires 0 <= i < |ks| => Item(Key(ks[i])))
  }

  function IndexPath(ns: seq<int>): seq<PathEntry>
  {
    seq(|ns|, i requires 0 <= i < |ns| => Item(Index(ns[i])))
  }

  lemma {:induction false} KeyPathParts(ks: seq<string>)
    ensures KeyParts(KeyPath(ks)) == KeyPath(ks) && Indices(KeyPath(ks)) == []
  {
    if ks != [] {
      var path := KeyPath(ks);
      var front := KeyPath(ks[..|ks| - 1]);
      assert path[..|ks| - 1] == front;
      KeyPathParts(ks[..|ks| - 1]);
      assert !IsIndex(path[|ks| - 1]);
      assert KeyParts(path) == KeyParts(front) + [path[|ks| - 1]];
      assert front + [path[|ks| - 1]] == path;
    }
  }

  lemma {:induction false} IndexPathParts(ns: seq<int>)
    ensures KeyParts(IndexPath(ns)) == [] && Indices(IndexPath(ns)) == ns
  {
    if ns != [] {
      var path := IndexPath(ns);
      assert path[..|ns| - 1] == IndexPath(ns[..|ns| - 1]);
      IndexPathParts(ns[..|ns| - 1]);
      assert IsIndex(path[|ns| - 1]);
      assert ns[..|ns| - 1] + [ns[|ns| - 1]] == ns;
    }
  }

  /**
   * A path of string keys then int indices splits into the keys joined by
   * `/` and the indices in order; the int items may also be interleaved
   * anywhere without changing the result (see `PartsConcat`).
   */
  lemma SplitSeparates(ks: seq<string>, ns: seq<int>)
    ensures SplitSpec(KeyPath(ks) + IndexPath(ns)) == Success((Join("/", ks), ns))
  {
    PartsConcat(KeyPath(ks), IndexPath(ns));
    KeyPathParts(ks);
    IndexPathParts(ns);
    assert KeyPath(ks) + [] == KeyPath(ks);
    assert KeyParts(KeyPath(ks) + IndexPath(ns)) == KeyPath(ks);
    assert Indices(KeyPath(ks) + IndexPath(ns)) == ns;
    KeyTextOfKeys(ks);
  }

  lemma KeyTextOfKeys(ks: seq<string>)
    ensures KeyText(KeyPath(ks)) == Success(Join("/", ks))
  {
    var parts := KeyPath(ks);
    var names := seq(|parts|, i requires 0 <= i < |parts| && parts[i].Item? && parts[i].item.Key? => parts[i].item.key);
    assert names == ks;
  }

  predicate HasList(p: seq<PathEntry>)
  {
    exists i :: 0 <= i < |p| && p[i].Sub?
  }

  lemma {:induction false} KeyPartsHasList(p: seq<PathEntry>)
    ensures HasList(KeyParts(p)) <==> HasList(p)
  {
    if p != [] {
      var front := p[..|p| - 1];
      var last := p[|p| - 1];
      KeyPartsHasList(front);
      assert p == front + [last];
      var kf := KeyParts(front);
      if IsIndex(last) {
        assert KeyParts(p) == kf;
        assert HasList(p) <==> HasList(front) by {
          if HasList(p) {
            var i :| 0 <= i < |p| && p[i].Sub?;
            assert i < |front| && front[i].Sub?;
          }
          if HasList(front) {
            var i :| 0 <= i < |front| && front[i].Sub?;
            assert p[i].Sub?;
          }
        }
      } else {
        var kp := kf + [last];
        assert KeyParts(p) == kp;
        assert HasList(kp) <==> HasList(kf) || last.Sub? by {
          if HasList(kp) {
            var i :| 0 <= i < |kp| && kp[i].Sub?;
            if i < |kf| { assert kf[i].Sub?; }
          }
          if HasList(kf) {
            var i :| 0 <= i < |kf| && kf[i].Sub?;
            assert kp[i].Sub?;
          }
          if last.Sub? { assert kp[|kf|].Sub?; }
        }
        assert HasList(p) <==> HasList(front) || last.Sub? by {
          if HasList(p) {
            var i :| 0 <= i < |p| && p[i].Sub?;
            if i < |front| { assert front[i].Sub?; }
          }
          if HasList(front) {
            var i :| 0 <= i < |front| && front[i].Sub?;
            assert p[i].Sub?;
          }
          if last.Sub? { assert p[|front|].Sub?; }
        }
      }
    }
  }

  /** Splitting fails, with TypeError, exactly when a list sits among the items of the path. */
  lemma SplitFailsIffList(p: seq<PathEntry>)
    ensures SplitSpec(p).Failure? <==> HasList(p)
    ensures SplitSpec(p).Failure? ==> SplitSpec(p).error == TypeError
  {
    KeyPartsHasList(p);
    var parts := KeyParts(p);
    assert forall i :: 0 <= i < |parts| ==> !IsIndex(parts[i]);
    if HasList(parts) {
      var i :| 0 <= i < |parts| && parts[i].Sub?;
      assert !parts[i].Item?;
    } else {
      assert forall i :: 0 <= i < |parts| ==> parts[i].Item? && parts[i].item.Key?;
    }
  }

  // ---------------------------------------------------------------------
  // Looking a key up and applying the indices

  /** `{k: v for k, v in zip(keys, vals)}` as a sequence of entries; a later key overrides an earlier one. */
  function Zip(keys: seq<string>, vals: seq<Value>): (r: seq<(string, Value)>)
    requires |keys| == |vals|
    ensures |r| == |keys| && forall i :: 0 <= i < |r| ==> r[i] == (keys[i], vals[i])
  {
    seq(|keys|, i requires 0 <= i < |keys| => (keys[i], vals[i]))
  }

  /** `flat_data.get(path, None)` */
  function FlatGet(keys: seq<string>, vals: seq<Value>, key: string): (r: Value)
    requires |keys| == |vals|
    ensures (forall i :: 0 <= i < |keys| ==> keys[i] != key) ==> r == Null
    ensures r != Null ==> key in keys
  {
    match Get(Zip(keys, vals), key)
    case None => Null
    case Some(v) => v
  }

  /** The position `value[i]` reads in a sequence of length `n`, counting from the end when `i` is negative. */
  function Position(n: nat, i: int): (r: Option<nat>)
    ensures r.Some? ==> r.value < n
  {
    if 0 <= i < n then Some(i) else if i < 0 && 0 <= i + n then Some(i + n) else None
  }

  /** `value[i]`, an IndexError turned into None; a TypeError or KeyError escapes. */
  function IndexStep(v: Value, i: int): (r: Result<Value, PyError>)
  {
    match v
    case Arr(xs) =>
      var p := Position(|xs|, i);
      Success(if p.Some? then xs[p.value] else Null)
    case Str(s) =>
      var p := Position(|s|, i);
      Success(if p.Some? then Str([s[p.value]]) else Null)
    case Obj(_) => Failure(KeyError(IntToString(i)))
    case _ => Failure(TypeError)
  }

  /** The value after applying the first indices in turn. */
  function IndexAll(v: Value, idx: seq<int>): Result<Value, PyError>
  {
    if idx == [] then Success(v)
    else
      var r := IndexAll(v, idx[..|idx| - 1]);
      if r.Failure? then r else IndexStep(r.value, idx[|idx| - 1])
  }

  /** The `for i in idx` loop with its `try`/`except IndexError`. */
  method ApplyIndices(value: Value, idx: seq<int>) returns (r: Result<Value, PyError>)
    ensures r == IndexAll(value, idx)
  {
    var v := value;
    for k := 0 to |idx|
      invariant IndexAll(value, idx[..k]) == Success(v)
    {
      assert idx[..k + 1][..k] == idx[..k];
      var step := IndexStep(v, idx[k]);
      if step.Failure? {
        assert IndexAll(value, idx[..k + 1]) == step;
        PrefixFailureSticks(value, idx, k + 1);
        return step;
      }
      v := step.value;
    }
    assert idx[..|idx|] == idx;
    r := Success(v);
  }

  lemma {:induction false} FailureSticks(v: Value, idx: seq<int>, rest: seq<int>)
    requires IndexAll(v, idx).Failure?
    ensures IndexAll(v, idx + rest) == IndexAll(v, idx)
    decreases |rest|
  {
    if rest == [] {
      assert idx + rest == idx;
    } else {
      var rest' := rest[..|rest| - 1];
      assert (idx + rest)[..|idx + rest| - 1] == idx + rest';
      FailureSticks(v, idx, rest');
    }
  }

  lemma PrefixFailureSticks(v: Value, idx: seq<int>, k: nat)
    requires k <= |idx| && IndexAll(v, idx[..k]).Failure?
    ensures IndexAll(v, idx) == IndexAll(v, idx[..k])
  {
    FailureSticks(v, idx[..k], idx[k..]);
    assert idx[..k] + idx[k..] == idx;
  }

  /** A negative index counts from the end: `xs[i - len(xs)]` is `xs[i]`, for lists and strings alike. */
  lemma NegativeIndex(v: Value, i: int)
    requires v.Arr? || v.Str?
    requires 0 <= i < (if v.Arr? then |v.items| else |v.s|)
    ensures IndexStep(v, i - (if v.Arr? then |v.items| else |v.s|)) == IndexStep(v, i)
    ensures v.Arr? ==> IndexStep(v, i) == Success(v.items[i])
    ensures v.Str? ==> IndexStep(v, i) == Success(Str([v.s[i]]))
  {
  }

  /** An index past either end gives None instead of an error. */
  lemma OutOfRangeIsNone(v: Value, i: int)
    requires v.Arr? || v.Str?
    requires var n := if v.Arr? then |v.items| else |v.s|; i >= n || i < -n
    ensures IndexStep(v, i) == Success(Null)
  {
  }

  /**
   * Once a lookup or an index has given None, any further index raises
   * TypeError: a missing key followed by an index, or a second index after
   * an out-of-range one, is not caught.
   */
  lemma NoneThenIndexFails(v: Value, idx: seq<int>, rest: seq<int>)
    requires IndexAll(v, idx) == Success(Null) && rest != []
    ensures IndexAll(v, idx + rest) == Failure(TypeError)
  {
    var first := idx + rest[..1];
    assert first[..|first| - 1] == idx;
    assert IndexAll(v, first) == Failure(TypeError);
    FailureSticks(v, first, rest[1..]);
    assert first + rest[1..] == idx + rest;
  }

  lemma MissingKeyWithIndex(keys: seq<string>, vals: seq<Value>, key: string, idx: seq<int>)
    requires |keys| == |vals| && key !in keys && idx != []
    ensures IndexAll(FlatGet(keys, vals, key), idx) == Failure(TypeError)
  {
    assert [] + idx == idx;
    NoneThenIndexFails(FlatGet(keys, vals, key), [], idx);
  }

  // ---------------------------------------------------------------------
  // The candidate values of one rule

  /** What `for item in p` visits for one element of a multi-path `jsonpath`. */
  function Iterated(e: PathEntry): (r: Result<seq<PathEntry>, PyError>)
    ensures r.Failure? <==> IsIndex(e)
  {
    match e
    case Sub(items) => Success(seq(|items|, i requires 0 <= i < |items| => Item(items[i])))
    case Item(Key(s)) => Success(seq(|s|, i requires 0 <= i < |s| => Item(Key([s[i]]))))
    case Item(Index(_)) => Failure(TypeError)
  }

  /** The paths `for p in jpath` visits: the whole `jsonpath` for a single path, each element of it otherwise. */
  function PathSources(c: Conversion): (r: seq<Result<seq<PathEntry>, PyError>>)
    ensures !c.multipath ==> r == [Success(c.jsonpath)]
    ensures c.multipath ==> |r| == |c.jsonpath|
  {
    if !c.multipath then [Success(c.jsonpath)]
    else seq(|c.jsonpath|, i requires 0 <= i < |c.jsonpath| => Iterated(c.jsonpath[i]))
  }

  /** One path resolved against the flattened record: its lookup key and its value. */
  function ResolvePath(keys: seq<string>, vals: seq<Value>, src: Result<seq<PathEntry>, PyError>): (r: Result<(string, Value), PyError>)
    requires |keys| == |vals|
    ensures r.Success? && r.value.1 != Null ==> r.value.0 in keys
  {
    if src.Failure? then Failure(src.error)
    else
      var split := SplitSpec(src.value);
      if split.Failure? then Failure(split.error)
      else
        var (key, idx) := split.value;
        var found := FlatGet(keys, vals, key);
        var v := IndexAll(found, idx);
        if v.Failure? then Failure(v.error)
        else
          assert v.value != Null ==> found != Null by {
            if found == Null && idx != [] {
              assert [] + idx == idx;
              NoneThenIndexFails(found, [], idx);
            }
          }
          Success((key, v.value))
  }

  /** The candidate values of a rule (`vals`) and the lookup keys that gave a value (flagged in `data_fields`). */
  datatype Candidates = Candidates(values: seq<Value>, seen: seq<string>)

  function CandidatesOf(keys: seq<string>, vals: seq<Value>, srcs: seq<Result<seq<PathEntry>, PyError>>): (r: Result<Candidates, PyError>)
    requires |keys| == |vals|
    ensures r.Success? ==> |r.value.values| == |srcs|
    ensures r.Success? ==> forall k <- r.value.seen :: k in keys
  {
    if srcs == [] then Success(Candidates([], []))
    else
      var front := CandidatesOf(keys, vals, srcs[..|srcs| - 1]);
      if front.Failure? then front
      else
        var res := ResolvePath(keys, vals, srcs[|srcs| - 1]);
        if res.Failure? then Failure(res.error)
        else
          var (key, v) := res.value;
          Success(Candidates(front.value.values + [v], front.value.seen + (if v != Null then [key] else [])))
  }

  /** The `for p in jpath` loop of one rule. */
  method GatherCandidates(keys: seq<string>, vals: seq<Value>, srcs: seq<Result<seq<PathEntry>, PyError>>)
    returns (r: Result<Candidates, PyError>)
    requires |keys| == |vals|
    ensures r == CandidatesOf(keys, vals, srcs)
  {
    var values: seq<Value> := [];
    var seen: seq<string> := [];
    for k := 0 to |srcs|
      invariant CandidatesOf(keys, vals, srcs[..k]) == Success(Candidates(values, seen))
    {
      assert srcs[..k + 1][..k] == srcs[..k];
      if srcs[k].Failure? {
        assert CandidatesOf(keys, vals, srcs[..k + 1]) == Failure(srcs[k].error);
        CandidatesFailureSticks(keys, vals, srcs, k + 1);
        return Failure(srcs[k].error);
      }
      var split := SplitPath(srcs[k].value);
      if split.Failure? {
        assert CandidatesOf(keys, vals, srcs[..k + 1]) == Failure(split.error);
        CandidatesFailureSticks(keys, vals, srcs, k + 1);
        return Failure(split.error);
      }
      var (path, idx) := split.value;
      var value := FlatGet(keys, vals, path);
      var indexed := ApplyIndices(value, idx);
      if indexed.Failure? {
        assert ResolvePath(keys, vals, srcs[k]) == Failure(indexed.error);
        assert CandidatesOf(keys, vals, srcs[..k + 1]) == Failure(indexed.error);
        CandidatesFailureSticks(keys, vals, srcs, k + 1);
        return Failure(indexed.error);
      }
      assert ResolvePath(keys, vals, srcs[k]) == Success((path, indexed.value));
      ghost var added := if indexed.value != Null then [path] else [];
      assert CandidatesOf(keys, vals, srcs[..k + 1]) == Success(Candidates(values + [indexed.value], seen + added));
      if indexed.value != Null {
        seen := seen + [path];
      } else {
        assert seen + added == seen;
      }
      values := values + [indexed.value];
    }
    assert srcs[..|srcs|] == srcs;
    r := Success(Candidates(values, seen));
  }

  lemma {:induction false} CandidatesFailureSticks(keys: seq<string>, vals: seq<Value>, srcs: seq<Result<seq<PathEntry>, PyError>>, k: nat)
    requires |keys| == |vals| && k <= |srcs|
    requires CandidatesOf(keys, vals, srcs[..k]).Failure?
    ensures CandidatesOf(keys, vals, srcs) == CandidatesOf(keys, vals, srcs[..k])
    decreases |srcs| - k
  {
    if k < |srcs| {
      assert srcs[..k + 1][..k] == srcs[..k];
      CandidatesFailureSticks(keys, vals, srcs, k + 1);
    } else {
      assert srcs[..k] == srcs;
    }
  }

  // ---------------------------------------------------------------------
  // Reducing the candidates to one value

  function DifferingMessage(field: string, v: Value, value: Value): string
  {
    "got differing values for field " + field + ", " + PyStr(v) + " vs " + PyStr(value)
  }

  /** The reduction after the candidates `vals`, which raises on a conflict. */
  function ReduceSpec(field: string, vals: seq<Value>): Result<Value, PyError>
  {
    if vals == [] then Success(Null)
    else
      var r := ReduceSpec(field, vals[..|vals| - 1]);
      var v := vals[|vals| - 1];
      if r.Failure? then r
      else if r.value == Null then Success(v)
      else if !PyEq(v, r.value) && v != Null then Failure(ValueError(DifferingMessage(field, v, r.value)))
      else r
  }

  /** The `for v in vals` loop that keeps the first value and checks the others against it. */
  method Reduce(field: string, vals: seq<Value>) returns (r: Result<Value, PyError>)
    ensures r == ReduceSpec(field, vals)
  {
    var value := Null;
    for k := 0 to |vals|
      invariant ReduceSpec(field, vals[..k]) == Success(value)
    {
      assert vals[..k + 1][..k] == vals[..k];
      var v := vals[k];
      if value == Null {
        value := v;
      } else if !PyEq(v, value) && v != Null {
        var e := ValueError(DifferingMessage(field, v, value));
        assert ReduceSpec(field, vals[..k + 1]) == Failure(e);
        ReduceFailureSticks(field, vals, k + 1);
        return Failure(e);
      }
    }
    assert vals[..|vals|] == vals;
    r := Success(value);
  }

  lemma {:induction false} ReduceFailureSticks(field: string, vals: seq<Value>, k: nat)
    requires k <= |vals| && ReduceSpec(field, vals[..k]).Failure?
    ensures ReduceSpec(field, vals) == ReduceSpec(field, vals[..k])
    decreases |vals| - k
  {
    if k < |vals| {
      assert vals[..k + 1][..k] == vals[..k];
      ReduceFailureSticks(field, vals, k + 1);
    } else {
      assert vals[..k] == vals;
    }
  }

  /** The first candidate that is not None, or None when there is none. */
  function FirstNonNull(vals: seq<Value>): (r: Value)
    ensures r == Null <==> forall i :: 0 <= i < |vals| ==> vals[i] == Null
  {
    if vals == [] then Null
    else if vals[0] != Null then vals[0]
    else
      var r := FirstNonNull(vals[1..]);
      assert forall i :: 1 <= i < |vals| ==> vals[i] == vals[1..][i - 1];
      r
  }

  lemma {:induction false} FirstNonNullSnoc(vals: seq<Value>, v: Value)
    ensures FirstNonNull(vals + [v]) == if FirstNonNull(vals) == Null then v else FirstNonNull(vals)
  {
    if vals != [] {
      assert (vals + [v])[1..] == vals[1..] + [v];
      FirstNonNullSnoc(vals[1..], v);
    } else {
      assert [] + [v] == [v];
    }
  }

  /** Every candidate that is not None equals the first one that is not None. */
  predicate Agree(vals: seq<Value>)
  {
    forall j :: 0 <= j < |vals| && vals[j] != Null ==> PyEq(vals[j], FirstNonNull(vals))
  }

  /**
   * The reduction succeeds exactly when the candidates agree, and then gives
   * the first candidate that is not None (None when all are None, and the
   * field is then omitted).
   */
  lemma {:induction false} ReduceMeaning(field: string, vals: seq<Value>)
    ensures ReduceSpec(field, vals).Success? <==> Agree(vals)
    ensures ReduceSpec(field, vals).Success? ==> ReduceSpec(field, vals).value == FirstNonNull(vals)
  {
    if vals != [] {
      var front := vals[..|vals| - 1];
      var v := vals[|vals| - 1];
      assert vals == front + [v];
      ReduceMeaning(field, front);
      FirstNonNullSnoc(front, v);
      var r := ReduceSpec(field, front);
      if FirstNonNull(front) != Null {
        assert FirstNonNull(vals) == FirstNonNull(front);
        assert Agree(vals) ==> Agree(front) by {
          if Agree(vals) {
            forall j | 0 <= j < |front| && front[j] != Null
              ensures PyEq(front[j], FirstNonNull(front))
            {
              assert vals[j] == front[j];
            }
          }
        }
        if r.Success? && (PyEq(v, r.value) || v == Null) {
          forall j | 0 <= j < |vals| && vals[j] != Null
            ensures PyEq(vals[j], FirstNonNull(vals))
          {
            if j < |front| {
              assert front[j] == vals[j];
            }
          }
        }
      } else {
        assert forall j :: 0 <= j < |front| ==> vals[j] == front[j];
        assert FirstNonNull(vals) == v;
        PyEqRefl(v);
        assert Agree(vals);
      }
    }
  }

  /** A conflict is reported as ValueError naming the field. */
  lemma {:induction false} ReduceError(field: string, vals: seq<Value>)
    requires ReduceSpec(field, vals).Failure?
    ensures ReduceSpec(field, vals).error.ValueError?
    ensures StartsWith(ReduceSpec(field, vals).error.msg, "got differing values for field " + field + ", ")
  {
    var front := vals[..|vals| - 1];
    if ReduceSpec(field, front).Failure? {
      ReduceError(field, front);
    } else {
      var v := vals[|vals| - 1];
      var value := ReduceSpec(field, front).value;
      var head := "got differing values for field " + field + ", ";
      assert DifferingMessage(field, v, value) == head + (PyStr(v) + " vs " + PyStr(value));
    }
  }

  // ---------------------------------------------------------------------
  // Coercion to SQL literal text

  /**
   * The literal text one value becomes in the INSERT, by the rule's SQL type;
   * any type other than TEXT and BOOL, INT included, emits `str(value)`.
   */
  function Coerce(colType: string, value: Value): (r: string)
    ensures colType == "INT" && value.Bool? ==> r == "101"
    ensures colType == "INT" && value.Int? ==> r == IntToString(value.i) && ParseInt(r) == Some(value.i)
    ensures colType != "TEXT" && colType != "BOOL" && !(colType == "INT" && value.Bool?) ==> r == PyStr(value)
    ensures colType == "TEXT" ==>
      |r| >= 2 && r[0] == '\'' && r[|r| - 1] == '\''
      && r[1..|r| - 1] == CleanSql.RemoveSqlIllegalCharacters(PyStr(value))
    ensures colType == "BOOL" ==> (r == "True" <==> Truthy(value)) && (r == "False" <==> !Truthy(value))
  {
    var v := if colType == "INT" && value.Bool? then Int(101) else value;
    if colType == "TEXT" then
      var r := "'" + CleanSql.RemoveSqlIllegalCharacters(PyStr(v)) + "'";
      assert r[1..|r| - 1] == CleanSql.RemoveSqlIllegalCharacters(PyStr(v));
      r
    else if colType == "BOOL" then (if Truthy(v) then "True" else "False")
    else PyStr(v)
  }

  /** A TEXT literal holds exactly two quotes, its delimiters, so its content cannot end it early. */
  lemma TextLiteralQuotes(value: Value)
    ensures CountChar(Coerce("TEXT", value), '\'') == 2
  {
    var inner := CleanSql.RemoveSqlIllegalCharacters(PyStr(value));
    CleanSql.OnlyAllowed(PyStr(value));
    assert !CleanSql.IsAllowed('\'');
    assert forall i :: 0 <= i < |inner| ==> inner[i] != '\'';
    CountAbsent(inner, '\'');
    CountConcat("'", inner, '\'');
    CountConcat("'" + inner, "'", '\'');
  }

  // ---------------------------------------------------------------------
  // One row

  /** The fields and values of one INSERT, and the lookup keys that gave a value. */
  datatype Row = Row(fields: seq<string>, values: seq<string>, seen: seq<string>)

  /** What one rule's candidates reduce to (`value` after line 163), or the error on the way. */
  function Reduced(keys: seq<string>, vals: seq<Value>, c: Conversion): Result<Value, PyError>
    requires |keys| == |vals|
  {
    var cands := CandidatesOf(keys, vals, PathSources(c));
    if cands.Failure? then Failure(cands.error) else ReduceSpec(c.fieldname, cands.value.values)
  }

  /**
   * The row after one more rule `c`: the rule fails exactly when its reduction
   * does; a None reduction adds nothing; any other adds the rule's field and
   * the coerced value.
   */
  function RowAdd(keys: seq<string>, vals: seq<Value>, row: Row, c: Conversion): (r: Result<Row, PyError>)
    requires |keys| == |vals|
    ensures r.Success? <==> Reduced(keys, vals, c).Success?
    ensures r.Failure? ==> r.error == Reduced(keys, vals, c).error
    ensures r.Success? ==> forall k <- r.value.seen :: k in row.seen || k in keys
    ensures r.Success? && Reduced(keys, vals, c).value == Null ==>
      r.value.fields == row.fields && r.value.values == row.values
    ensures r.Success? && Reduced(keys, vals, c).value != Null ==>
      r.value.fields == row.fields + [c.fieldname]
      && r.value.values == row.values + [Coerce(c.colType, Reduced(keys, vals, c).value)]
  {
    var cands := CandidatesOf(keys, vals, PathSources(c));
    if cands.Failure? then Failure(cands.error)
    else
      var value := ReduceSpec(c.fieldname, cands.value.values);
      if value.Failure? then Failure(value.error)
      else
        var seen := row.seen + cands.value.seen;
        if value.value == Null then Success(Row(row.fields, row.values, seen))
        else Success(Row(row.fields + [c.fieldname], row.values + [Coerce(c.colType, value.value)], seen))
  }

  /** The row after resolving the rules `convs` in order. */
  function RowSpec(keys: seq<string>, vals: seq<Value>, convs: seq<Conversion>): (r: Result<Row, PyError>)
    requires |keys| == |vals|
  {
    if convs == [] then Success(Row([], [], []))
    else
      var front := RowSpec(keys, vals, convs[..|convs| - 1]);
      if front.Failure? then front else RowAdd(keys, vals, front.value, convs[|convs| - 1])
  }

  /** Whether rule `c` gets a column: its value reduces without error and is not None. */
  predicate Kept(keys: seq<string>, vals: seq<Value>, c: Conversion)
    requires |keys| == |vals|
  {
    var red := Reduced(keys, vals, c);
    red.Success? && red.value != Null
  }

  /** One flag per rule: whether it gets a column. */
  function Keeps(keys: seq<string>, vals: seq<Value>, convs: seq<Conversion>): (r: seq<bool>)
    requires |keys| == |vals|
    ensures |r| == |convs|
    ensures forall j :: 0 <= j < |convs| ==> r[j] == Kept(keys, vals, convs[j])
  {
    seq(|convs|, j requires 0 <= j < |convs| => Kept(keys, vals, convs[j]))
  }

  /** The positions, in order, of the raised flags of `keep`. */
  function Positions(keep: seq<bool>): (r: seq<nat>)
    ensures forall i :: 0 <= i < |r| ==> r[i] < |keep|
  {
    if keep == [] then []
    else
      var n := |keep| - 1;
      Positions(keep[..n]) + (if keep[n] then [n] else [])
  }

  /** The positions, in order, of the rules that get a column. */
  function KeptRules(keys: seq<string>, vals: seq<Value>, convs: seq<Conversion>): seq<nat>
    requires |keys| == |vals|
  {
    Positions(Keeps(keys, vals, convs))
  }

  /** The `for convert in self.convert` loop of one record. */
  method BuildRow(keys: seq<string>, vals: seq<Value>, convs: seq<Conversion>) returns (r: Result<Row, PyError>)
    requires |keys| == |vals|
    ensures r == RowSpec(keys, vals, convs)
  {
    var fields: seq<string> := [];
    var values: seq<string> := [];
    var seen: seq<string> := [];
    for k := 0 to |convs|
      invariant RowSpec(keys, vals, convs[..k]) == Success(Row(fields, values, seen))
    {
      assert convs[..k + 1][..k] == convs[..k];
      var c := convs[k];
      var cands := GatherCandidates(keys, vals, PathSources(c));
      if cands.Failure? {
        assert RowSpec(keys, vals, convs[..k + 1]) == Failure(cands.error);
        RowFailureSticks(keys, vals, convs, k + 1);
        return Failure(cands.error);
      }
      seen := seen + cands.value.seen;
      var value := Reduce(c.fieldname, cands.value.values);
      if value.Failure? {
        assert RowAdd(keys, vals, Row(fields, values, seen), c) == Failure(value.error);
        assert RowSpec(keys, vals, convs[..k + 1]) == Failure(value.error);
        RowFailureSticks(keys, vals, convs, k + 1);
        return Failure(value.error);
      }
      if value.value != Null {
        values := values + [Coerce(c.colType, value.value)];
        fields := fields + [c.fieldname];
      }
    }
    assert convs[..|convs|] == convs;
    r := Success(Row(fields, values, seen));
  }

  lemma {:induction false} RowFailureSticks(keys: seq<string>, vals: seq<Value>, convs: seq<Conversion>, k: nat)
    requires |keys| == |vals| && k <= |convs|
    requires RowSpec(keys, vals, convs[..k]).Failure?
    ensures RowSpec(keys, vals, convs) == RowSpec(keys, vals, convs[..k])
    decreases |convs| - k
  {
    if k < |convs| {
      assert convs[..k + 1][..k] == convs[..k];
      RowFailureSticks(keys, vals, convs, k + 1);
    } else {
      assert convs[..k] == convs;
    }
  }

  /** `a` is `b` with some elements left out, the rest in order. */
  predicate Subsequence(a: seq<string>, b: seq<string>)
    decreases |b|
  {
    a == [] || (b != [] && ((a[|a| - 1] == b[|b| - 1] && Subsequence(a[..|a| - 1], b[..|b| - 1])) || Subsequence(a, b[..|b| - 1])))
  }

  function FieldNames(convs: seq<Conversion>): (r: seq<string>)
    ensures |r| == |convs| && forall i :: 0 <= i < |r| ==> r[i] == convs[i].fieldname
  {
    seq(|convs|, i requires 0 <= i < |convs| => convs[i].fieldname)
  }

  /** A row pairs each field with one value, and every key flagged as seen is a key of the flattened record. */
  lemma {:induction false} RowPairs(keys: seq<string>, vals: seq<Value>, convs: seq<Conversion>)
    requires |keys| == |vals|
    requires RowSpec(keys, vals, convs).Success?
    ensures |RowSpec(keys, vals, convs).value.fields| == |RowSpec(keys, vals, convs).value.values|
    ensures forall k <- RowSpec(keys, vals, convs).value.seen :: k in keys
  {
    if convs != [] {
      RowPairs(keys, vals, convs[..|convs| - 1]);
    }
  }

  /** The fields of a row follow the declaration order of the rules, each rule giving at most one. */
  lemma {:induction false} RowOrder(keys: seq<string>, vals: seq<Value>, convs: seq<Conversion>)
    requires |keys| == |vals|
    requires RowSpec(keys, vals, convs).Success?
    ensures Subsequence(RowSpec(keys, vals, convs).value.fields, FieldNames(convs))
  {
    if convs != [] {
      var front := convs[..|convs| - 1];
      RowFieldsStep(keys, vals, convs);
      RowOrder(keys, vals, front);
      FieldNamesSnoc(convs);
      SubsequenceStep(RowSpec(keys, vals, convs).value.fields, RowSpec(keys, vals, front).value.fields,
                      FieldNames(front), convs[|convs| - 1].fieldname);
    }
  }

  lemma FieldNamesSnoc(convs: seq<Conversion>)
    requires convs != []
    ensures FieldNames(convs) == FieldNames(convs[..|convs| - 1]) + [convs[|convs| - 1].fieldname]
  {
  }

  lemma RowFieldsStep(keys: seq<string>, vals: seq<Value>, convs: seq<Conversion>)
    requires |keys| == |vals| && convs != []
    requires RowSpec(keys, vals, convs).Success?
    ensures RowSpec(keys, vals, convs[..|convs| - 1]).Success?
    ensures var fields := RowSpec(keys, vals, convs).value.fields;
      var before := RowSpec(keys, vals, convs[..|convs| - 1]).value.fields;
      fields == before || fields == before + [convs[|convs| - 1].fieldname]
  {
  }

  lemma SubsequenceStep(a: seq<string>, before: seq<string>, names: seq<string>, x: string)
    requires Subsequence(before, names)
    requires a == before || a == before + [x]
    ensures Subsequence(a, names + [x])
  {
    if a == before {
      SubsequenceExtend(a, names, x);
    } else {
      assert a[..|a| - 1] == before && (names + [x])[..|names|] == names;
    }
  }

  lemma SubsequenceExtend(a: seq<string>, b: seq<string>, x: string)
    requires Subsequence(a, b)
    ensures Subsequence(a, b + [x])
  {
    assert (b + [x])[..|b|] == b;
  }

  /** `Positions` is strictly increasing and holds exactly the raised flags. */
  lemma {:induction false} PositionsMeaning(keep: seq<bool>)
    ensures forall i, j :: 0 <= i < j < |Positions(keep)| ==> Positions(keep)[i] < Positions(keep)[j]
    ensures forall j :: 0 <= j < |keep| ==> (j in Positions(keep) <==> keep[j])
  {
    if keep != [] {
      var n := |keep| - 1;
      var front := keep[..n];
      PositionsMeaning(front);
      var p := Positions(keep);
      var fp := Positions(front);
      assert p == fp + (if keep[n] then [n] else []);
      forall i, j | 0 <= i < j < |p|
        ensures p[i] < p[j]
      {
        assert p[i] == fp[i] && fp[i] < |front|;
        if j < |fp| {
          assert p[j] == fp[j];
        } else {
          assert p[j] == n;
        }
      }
      forall j | 0 <= j < |keep|
        ensures j in p <==> keep[j]
      {
        if j < n {
          assert keep[j] == front[j];
          assert j in p <==> j in fp;
        } else {
          assert n !in fp;
        }
      }
    }
  }

  /** The kept rules come in declaration order, and a rule is kept exactly when its value is not None. */
  lemma KeptRulesMeaning(keys: seq<string>, vals: seq<Value>, convs: seq<Conversion>)
    requires |keys| == |vals|
    ensures var kept := KeptRules(keys, vals, convs);
      forall i, j :: 0 <= i < j < |kept| ==> kept[i] < kept[j]
    ensures forall j :: 0 <= j < |convs| ==>
      (j in KeptRules(keys, vals, convs) <==> Reduced(keys, vals, convs[j]).Success? && Reduced(keys, vals, convs[j]).value != Null)
  {
    var keep := Keeps(keys, vals, convs);
    PositionsMeaning(keep);
    forall j | 0 <= j < |convs|
      ensures j in KeptRules(keys, vals, convs) <==> Reduced(keys, vals, convs[j]).Success? && Reduced(keys, vals, convs[j]).value != Null
    {
      assert keep[j] == Kept(keys, vals, convs[j]);
    }
  }

  /** A row is built only when every rule's value reduces without error. */
  lemma {:induction false} RowSucceeds(keys: seq<string>, vals: seq<Value>, convs: seq<Conversion>)
    requires |keys| == |vals|
    requires RowSpec(keys, vals, convs).Success?
    ensures forall j {:trigger Reduced(keys, vals, convs[j])} :: 0 <= j < |convs| ==> Reduced(keys, vals, convs[j]).Success?
  {
    var built := (cs: seq<Conversion>) => RowSpec(keys, vals, cs).Success?;
    var reduces := (c: Conversion) => Reduced(keys, vals, c).Success?;
    forall k | 1 <= k <= |convs| && built(convs[..k])
      ensures built(convs[..k - 1]) && reduces(convs[k - 1])
    {
      RowStepSucceeds(keys, vals, convs[..k]);
      assert convs[..k][..k - 1] == convs[..k - 1];
    }
    assert convs[..|convs|] == convs;
    PrefixAll(convs, built, reduces);
    forall j | 0 <= j < |convs|
      ensures Reduced(keys, vals, convs[j]).Success?
    {
      assert reduces(convs[j]);
    }
  }

  /** If a property of prefixes passes down to shorter prefixes and marks their last element, it marks every element. */
  lemma {:induction false} PrefixAll<T>(s: seq<T>, q: seq<T> -> bool, p: T -> bool)
    requires q(s)
    requires forall k :: 1 <= k <= |s| && q(s[..k]) ==> q(s[..k - 1]) && p(s[k - 1])
    ensures forall j :: 0 <= j < |s| ==> p(s[j])
  {
    if s != [] {
      var n := |s| - 1;
      assert s[..|s|] == s;
      var front := s[..n];
      forall k | 1 <= k <= |front| && q(front[..k])
        ensures q(front[..k - 1]) && p(front[k - 1])
      {
        assert front[..k] == s[..k] && front[..k - 1] == s[..k - 1] && front[k - 1] == s[k - 1];
      }
      PrefixAll(front, q, p);
      forall j | 0 <= j < n
        ensures p(s[j])
      {
        assert front[j] == s[j];
      }
    }
  }

  /** The last rule of a built row reduced without error, and so did the rows before it. */
  lemma RowStepSucceeds(keys: seq<string>, vals: seq<Value>, convs: seq<Conversion>)
    requires |keys| == |vals|
    requires RowSpec(keys, vals, convs).Success?
    requires convs != []
    ensures RowSpec(keys, vals, convs[..|convs| - 1]).Success?
    ensures Reduced(keys, vals, convs[|convs| - 1]).Success?
  {
    var fr := RowSpec(keys, vals, convs[..|convs| - 1]);
    assert fr.Success?;
    assert RowAdd(keys, vals, fr.value, convs[|convs| - 1]).Success?;
  }

  /**
   * What a row holds: every rule reduced without error; the row has one field
   * per kept rule, in declaration order, named after that rule, and its value
   * is the rule's reduced value coerced to the rule's type. Rules whose value
   * is None appear in neither list.
   */
  lemma {:induction false} RowMeaning(keys: seq<string>, vals: seq<Value>, convs: seq<Conversion>)
    requires |keys| == |vals|
    requires RowSpec(keys, vals, convs).Success?
    ensures forall j {:trigger Reduced(keys, vals, convs[j])} :: 0 <= j < |convs| ==> Reduced(keys, vals, convs[j]).Success?
    ensures var row := RowSpec(keys, vals, convs).value; var kept := KeptRules(keys, vals, convs);
      |row.fields| == |kept| && |row.values| == |kept|
      && forall i :: 0 <= i < |kept| ==>
        row.fields[i] == convs[kept[i]].fieldname
        && row.values[i] == Coerce(convs[kept[i]].colType, Reduced(keys, vals, convs[kept[i]]).value)
  {
    RowSucceeds(keys, vals, convs);
    if convs != [] {
      var n := |convs| - 1;
      var front := convs[..n];
      var c := convs[n];
      var fr := RowSpec(keys, vals, front);
      assert fr.Success?;
      RowMeaning(keys, vals, front);
      var row := RowSpec(keys, vals, convs).value;
      assert RowSpec(keys, vals, convs) == RowAdd(keys, vals, fr.value, c);
      var kept := KeptRules(keys, vals, convs);
      var fk := KeptRules(keys, vals, front);
      assert Keeps(keys, vals, convs)[..n] == Keeps(keys, vals, front);
      assert kept == fk + (if Kept(keys, vals, c) then [n] else []);
      forall i | 0 <= i < |kept|
        ensures row.fields[i] == convs[kept[i]].fieldname
        ensures row.values[i] == Coerce(convs[kept[i]].colType, Reduced(keys, vals, convs[kept[i]]).value)
      {
        if i < |fk| {
          assert kept[i] == fk[i] && convs[fk[i]] == front[fk[i]];
          assert row.fields[i] == fr.value.fields[i] && row.values[i] == fr.value.values[i];
        } else {
          assert kept[i] == n;
        }
      }
    }
  }

  // ---------------------------------------------------------------------
  // The INSERT command

  function InsertCommand(name: string, fields: seq<string>, values: seq<string>): string
  {
    "INSERT INTO " + name + " (" + Join(", ", fields) + ")\nVALUES (" + Join(", ", values) + ")"
  }
}
