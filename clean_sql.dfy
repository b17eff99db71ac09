/**
 * `remove_sql_illegal_characters` (src/utils/clean_sql.py): the regular
 * expression substitution `[^a-zA-Z0-9_]` -> "" written as a filter over the
 * characters of the input, scanned from left to right.
 */
module CleanSql {
  import opened Builtins

  /** The characters the sanitiser keeps: `[a-zA-Z0-9_]`. */
  predicate IsAllowed(c: char)
  {
    IsLetter(c) || IsDigit(c) || c == '_'
  }

  predicate AllAllowed(s: string)
  {
    forall i :: 0 <= i < |s| ==> IsAllowed(s[i])
  }

  /** The cleaned text of `s[i..]`. */
  function CleanFrom(s: string, i: nat): (r: string)
    decreases |s| - i
  {
    if i >= |s| then []
    else if IsAllowed(s[i]) then [s[i]] + CleanFrom(s, i + 1)
    else CleanFrom(s, i + 1)
  }

  function RemoveSqlIllegalCharacters(s: string): (r: string)
  {
    CleanFrom(s, 0)
  }

  /** `a` is `b` with some characters removed, the rest kept in order. */
  predicate IsSubsequence(a: string, b: string)
    decreases |b|
  {
    a == [] || (b != [] && ((a[0] == b[0] && IsSubsequence(a[1..], b[1..])) || IsSubsequence(a, b[1..])))
  }

  /** Scanning `s` from `i + k` is scanning its suffix `s[i..]` from `k`. */
  lemma {:induction false} CleanFromShift(s: string, i: nat, k: nat)
    requires i <= |s|
    ensures CleanFrom(s, i + k) == CleanFrom(s[i..], k)
    decreases |s| - i - k
  {
    if i + k < |s| {
      assert s[i..][k] == s[i + k];
      CleanFromShift(s, i, k + 1);
    }
  }

  /** Cleaning from position `i` is cleaning the suffix that starts there. */
  lemma CleanFromSuffix(s: string, i: nat)
    requires i <= |s|
    ensures CleanFrom(s, i) == RemoveSqlIllegalCharacters(s[i..])
  {
    CleanFromShift(s, i, 0);
  }

  lemma {:induction false} OnlyAllowedFrom(s: string, i: nat)
    ensures AllAllowed(CleanFrom(s, i))
    decreases |s| - i
  {
    if i < |s| {
      OnlyAllowedFrom(s, i + 1);
    }
  }

  /** The output holds only allowed characters. */
  lemma OnlyAllowed(s: string)
    ensures AllAllowed(RemoveSqlIllegalCharacters(s))
  {
    OnlyAllowedFrom(s, 0);
  }

  lemma {:induction false} KeepsExactlyAllowedFrom(s: string, i: nat)
    requires i <= |s|
    ensures forall c :: multiset(CleanFrom(s, i))[c] == if IsAllowed(c) then multiset(s[i..])[c] else 0
    decreases |s| - i
  {
    if i < |s| {
      KeepsExactlyAllowedFrom(s, i + 1);
      assert s[i..] == [s[i]] + s[i + 1..];
      assert multiset(s[i..]) == multiset([s[i]]) + multiset(s[i + 1..]);
    }
  }

  /** Every allowed character of the input survives, as often as it occurs; nothing else does. */
  lemma KeepsExactlyAllowed(s: string)
    ensures forall c :: multiset(RemoveSqlIllegalCharacters(s))[c] == if IsAllowed(c) then multiset(s)[c] else 0
  {
    KeepsExactlyAllowedFrom(s, 0);
    assert s[0..] == s;
  }

  lemma {:induction false} KeepsOrderFrom(s: string, i: nat)
    requires i <= |s|
    ensures IsSubsequence(CleanFrom(s, i), s[i..])
    decreases |s| - i
  {
    if i < |s| {
      KeepsOrderFrom(s, i + 1);
      var rest := CleanFrom(s, i + 1);
      var t := s[i..];
      assert t[0] == s[i] && t[1..] == s[i + 1..];
      if IsAllowed(s[i]) {
        var r := [s[i]] + rest;
        assert r[0] == s[i] && r[1..] == rest;
        assert CleanFrom(s, i) == r;
      } else {
        assert CleanFrom(s, i) == rest;
        assert IsSubsequence(rest, t[1..]);
      }
    }
  }

  /** The surviving characters keep their original order. */
  lemma KeepsOrder(s: string)
    ensures IsSubsequence(RemoveSqlIllegalCharacters(s), s)
  {
    KeepsOrderFrom(s, 0);
    assert s[0..] == s;
  }

  lemma {:induction false} KeepsCleanTextFrom(s: string, i: nat)
    requires AllAllowed(s) && i <= |s|
    ensures CleanFrom(s, i) == s[i..]
    decreases |s| - i
  {
    if i < |s| {
      KeepsCleanTextFrom(s, i + 1);
      assert s[i..] == [s[i]] + s[i + 1..];
    }
  }

  /** Text made only of allowed characters is returned unchanged. */
  lemma KeepsCleanText(s: string)
    requires AllAllowed(s)
    ensures RemoveSqlIllegalCharacters(s) == s
  {
    KeepsCleanTextFrom(s, 0);
    assert s[0..] == s;
  }

  /** Cleaning twice is cleaning once. */
  lemma Idempotent(s: string)
    ensures RemoveSqlIllegalCharacters(RemoveSqlIllegalCharacters(s)) == RemoveSqlIllegalCharacters(s)
  {
    OnlyAllowed(s);
    KeepsCleanText(RemoveSqlIllegalCharacters(s));
  }

  /** Cleaning works piece by piece. */
  lemma {:induction false} CleanConcatFrom(a: string, b: string, i: nat)
    requires i <= |a|
    ensures CleanFrom(a + b, i) == CleanFrom(a, i) + RemoveSqlIllegalCharacters(b)
    decreases |a| - i
  {
    if i < |a| {
      assert (a + b)[i] == a[i];
      CleanConcatFrom(a, b, i + 1);
    } else {
      CleanFromSuffix(a + b, |a|);
      assert (a + b)[|a|..] == b;
    }
  }

  lemma CleanConcat(a: string, b: string)
    ensures RemoveSqlIllegalCharacters(a + b) == RemoveSqlIllegalCharacters(a) + RemoveSqlIllegalCharacters(b)
  {
    CleanConcatFrom(a, b, 0);
  }

  /**
   * The example of src/utils/clean_sql.py:12-14, scanned from the end of the
   * text backwards one character at a time.
   */
  lemma ExampleFrom14(s: string)
    requires s == "my table-n'ame!_123"
    ensures CleanFrom(s, 14) == "_123"
  {
    assert CleanFrom(s, 18) == "3";
    assert CleanFrom(s, 17) == "23";
    assert CleanFrom(s, 16) == "123";
    assert CleanFrom(s, 15) == "_123";
  }

  lemma ExampleFrom9(s: string)
    requires s == "my table-n'ame!_123"
    ensures CleanFrom(s, 9) == "name_123"
  {
    ExampleFrom14(s);
    assert CleanFrom(s, 13) == "e_123";
    assert CleanFrom(s, 12) == "me_123";
    assert CleanFrom(s, 11) == "ame_123";
    assert CleanFrom(s, 10) == "ame_123";
  }

  lemma ExampleFrom6(s: string)
    requires s == "my table-n'ame!_123"
    ensures CleanFrom(s, 6) == "lename_123"
  {
    ExampleFrom9(s);
    assert CleanFrom(s, 8) == "name_123";
    assert CleanFrom(s, 7) == "ename_123";
  }

  lemma ExampleFrom3(s: string)
    requires s == "my table-n'ame!_123"
    ensures CleanFrom(s, 3) == "tablename_123"
  {
    ExampleFrom6(s);
    assert CleanFrom(s, 5) == "blename_123";
    assert CleanFrom(s, 4) == "ablename_123";
  }

  lemma ExampleFrom0(s: string)
    requires s == "my table-n'ame!_123"
    ensures CleanFrom(s, 0) == "mytablename_123"
  {
    ExampleFrom3(s);
    assert CleanFrom(s, 2) == "tablename_123";
    assert CleanFrom(s, 1) == "ytablename_123";
  }

  /** The example of src/utils/clean_sql.py:12-14. */
  lemma Example()
    ensures RemoveSqlIllegalCharacters("my table-n'ame!_123") == "mytablename_123"
  {
    ExampleFrom0("my table-n'ame!_123");
  }
}
