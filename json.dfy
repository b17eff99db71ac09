/**
 * The values `json.load` produces for the loader of src/CreateDatabase.py,
 * and the Python operations the loader applies to them: `==`, `str()`,
 * `bool()`, `< 0` and dictionary lookup.
 */
module Json {
  import opened Builtins

  /**
   * A decoded JSON value. `Null` is Python's None. A float is kept as the
   * text of its Python `repr`; an object keeps its entries in file order.
   */
  datatype Value =
    | Null
    | Bool(b: bool)
    | Int(i: int)
    | Float(repr: string)
    | Str(s: string)
    | Arr(items: seq<Value>)
    | Obj(entries: seq<(string, Value)>)

  /** The integer a bool or an int stands for in comparisons (`True == 1`). */
  function AsInt(v: Value): (r: Option<int>)
    ensures r.Some? <==> v.Bool? || v.Int?
  {
    match v
    case Bool(b) => Some(if b then 1 else 0)
    case Int(i) => Some(i)
    case _ => None
  }

  /**
   * Python's `==` on decoded values: numbers by value (`True == 1`), lists
   * pointwise, and dicts entry by entry in their stored order.
   */
  predicate PyEq(a: Value, b: Value)
    decreases a
  {
    match a
    case Null => b.Null?
    case Bool(_) => AsInt(b).Some? && AsInt(b) == AsInt(a)
    case Int(_) => AsInt(b).Some? && AsInt(b) == AsInt(a)
    case Float(r) => b.Float? && b.repr == r
    case Str(s) => b.Str? && b.s == s
    case Arr(xs) =>
      b.Arr? && |xs| == |b.items| && forall i :: 0 <= i < |xs| ==> PyEq(xs[i], b.items[i])
    case Obj(es) =>
      b.Obj? && |es| == |b.entries|
      && forall i :: 0 <= i < |es| ==> es[i].0 == b.entries[i].0 && PyEq(es[i].1, b.entries[i].1)
  }

  /** Every value equals itself. */
  lemma {:induction false} PyEqRefl(v: Value)
    ensures PyEq(v, v)
    decreases v
  {
    match v
    case Arr(xs) =>
      forall i | 0 <= i < |xs|
        ensures PyEq(xs[i], xs[i])
      {
        PyEqRefl(xs[i]);
      }
    case Obj(es) =>
      forall i | 0 <= i < |es|
        ensures PyEq(es[i].1, es[i].1)
      {
        PyEqRefl(es[i].1);
      }
    case _ =>
  }

  /** Equality is symmetric. */
  lemma {:induction false} PyEqSymmetric(a: Value, b: Value)
    requires PyEq(a, b)
    ensures PyEq(b, a)
    decreases a
  {
    match a
    case Arr(xs) =>
      forall i | 0 <= i < |xs|
        ensures PyEq(b.items[i], xs[i])
      {
        PyEqSymmetric(xs[i], b.items[i]);
      }
    case Obj(es) =>
      forall i | 0 <= i < |es|
        ensures PyEq(b.entries[i].1, es[i].1)
      {
        PyEqSymmetric(es[i].1, b.entries[i].1);
      }
    case _ =>
  }

  /** A bool and an int are equal exactly when they stand for the same number. */
  lemma BoolIntEq(b: bool, n: int)
    ensures PyEq(Bool(b), Int(n)) <==> n == (if b then 1 else 0)
    ensures PyEq(Int(n), Bool(b)) <==> n == (if b then 1 else 0)
  {
  }

  /** `repr` of a string: single quotes, unless the text holds a single quote and no double quote. */
  function QuoteText(s: string): (r: string)
    ensures |r| == |s| + 2 && r[1..|r| - 1] == s
    ensures r[0] == r[|r| - 1] && (r[0] == '\'' || r[0] == '"')
  {
    if '\'' in s && '"' !in s then "\"" + s + "\"" else "'" + s + "'"
  }

  /** `repr(v)`; the elements of a list or dict are shown this way by `str` too. */
  function PyRepr(v: Value): string
    decreases v
  {
    match v
    case Null => "None"
    case Bool(b) => if b then "True" else "False"
    case Int(i) => IntToString(i)
    case Float(r) => r
    case Str(s) => QuoteText(s)
    case Arr(xs) => "[" + Join(", ", seq(|xs|, i requires 0 <= i < |xs| => PyRepr(xs[i]))) + "]"
    case Obj(es) => "{" + Join(", ", seq(|es|, i requires 0 <= i < |es| => QuoteText(es[i].0) + ": " + PyRepr(es[i].1))) + "}"
  }

  /** `str(v)`: a string is itself, anything else its `repr`. */
  function PyStr(v: Value): string
  {
    if v.Str? then v.s else PyRepr(v)
  }

  /** What `str()` gives for each kind of scalar. */
  lemma PyStrScalars(v: Value)
    ensures v.Int? ==> ParseInt(PyStr(v)) == Some(v.i)
    ensures v.Bool? ==> PyStr(v) == (if v.b then "True" else "False")
    ensures v.Str? ==> PyStr(v) == v.s
    ensures v.Null? ==> PyStr(v) == "None"
  {
  }

  /** A float `repr` that stands for a non-zero number: a non-zero digit, or `inf`/`nan`. */
  predicate FloatNonZero(r: string)
  {
    exists i :: 0 <= i < |r| && (('1' <= r[i] <= '9') || r[i] == 'n')
  }

  /** `bool(v)` */
  predicate Truthy(v: Value)
  {
    match v
    case Null => false
    case Bool(b) => b
    case Int(i) => i != 0
    case Float(r) => FloatNonZero(r)
    case Str(s) => s != []
    case Arr(xs) => xs != []
    case Obj(es) => es != []
  }

  /** `v < 0`: numbers compare, anything else raises TypeError. */
  function LessThanZero(v: Value): (r: Result<bool, PyError>)
    ensures r.Failure? <==> !(v.Bool? || v.Int? || v.Float?)
    ensures r.Failure? ==> r.error == TypeError
    ensures v.Int? ==> r == Success(v.i < 0)
    ensures v.Bool? ==> r == Success(false)
  {
    match v
    case Bool(_) => Success(false)
    case Int(i) => Success(i < 0)
    case Float(r) => Success(|r| > 0 && r[0] == '-' && FloatNonZero(r))
    case _ => Failure(TypeError)
  }

  /** The position of the last entry of `es` with the given key, or -1 when there is none. */
  function LastIndex(es: seq<(string, Value)>, key: string): (r: int)
    ensures -1 <= r < |es|
    ensures r >= 0 ==> es[r].0 == key
    ensures forall j :: r < j < |es| ==> es[j].0 != key
  {
    if es == [] then -1
    else if es[|es| - 1].0 == key then |es| - 1
    else LastIndex(es[..|es| - 1], key)
  }

  /** `d.get(key)` on a dict: the value of the last entry with that key, as `json.load` keeps it. */
  function Get(es: seq<(string, Value)>, key: string): (r: Option<Value>)
    ensures r.None? <==> forall i :: 0 <= i < |es| ==> es[i].0 != key
    ensures r.Some? ==> exists i :: 0 <= i < |es| && es[i].0 == key && es[i].1 == r.value
  {
    var i := LastIndex(es, key);
    if i < 0 then None else Some(es[i].1)
  }

  /** Keys that appear in an object. */
  function Keys(es: seq<(string, Value)>): (r: set<string>)
    ensures forall k :: k in r <==> Get(es, k).Some?
  {
    set i | 0 <= i < |es| :: es[i].0
  }
}
