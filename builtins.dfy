/**
 * The few Python built-ins the repository's core leans on, stated for ASCII
 * text: `str.title`, `str.lower`, `str.split()`, `int()`, `str()` of an int,
 * `str.join`, `str.replace`, `str.strip`, `str.count`, `str.startswith` and
 * the substring test `in`. Also the Option/Result wrappers and the Python
 * exceptions the core can raise.
 */
module Builtins {

  datatype Option<+T> = None | Some(value: T)

  datatype Result<+T, +E> = Success(value: T) | Failure(error: E)

  datatype Outcome<+E> = Pass | Fail(error: E)

  /** An argument annotated `str | list`: one text, or a list of texts. */
  datatype TextArg = One(text: string) | Many(items: seq<string>)

  /** The exceptions the modelled code raises or lets escape. */
  datatype PyError =
    | ValueError(msg: string)                 // raised by the repository's own code, with its message
    | UnpackError(expected: nat, got: nat)    // ValueError from `a, b, c = xs` when |xs| != 3
    | IntParseError(literal: string)          // ValueError from `int(s)`
    | KeyError(key: string)
    | IndexError
    | TypeError
    | AttributeError

  // ---------------------------------------------------------------------
  // Characters

  predicate IsUpper(c: char) { 'A' <= c <= 'Z' }
  predicate IsLower(c: char) { 'a' <= c <= 'z' }
  predicate IsLetter(c: char) { IsUpper(c) || IsLower(c) }
  predicate IsDigit(c: char) { '0' <= c <= '9' }

  /** Python's `str.isspace()` for one character (the characters `str.split()` splits on). */
  predicate IsSpace(c: char)
  {
    c == ' ' || ('\t' <= c <= '\r') || ('\U{1c}' <= c <= '\U{1f}') || c == '\U{85}' || c == '\U{a0}'
    || c == '\U{1680}' || ('\U{2000}' <= c <= '\U{200a}') || c == '\U{2028}' || c == '\U{2029}'
    || c == '\U{202f}' || c == '\U{205f}' || c == '\U{3000}'
  }

  function ToUpper(c: char): (r: char)
    ensures IsLetter(r) == IsLetter(c)
  {
    if IsLower(c) then (c as int - 32) as char else c
  }

  function ToLower(c: char): (r: char)
    ensures IsLetter(r) == IsLetter(c)
  {
    if IsUpper(c) then (c as int + 32) as char else c
  }

  /** `str.lower()` */
  function Lower(s: string): (r: string)
    ensures |r| == |s|
    ensures forall i :: 0 <= i < |s| ==> r[i] == ToLower(s[i])
  {
    seq(|s|, i requires 0 <= i < |s| => ToLower(s[i]))
  }

  // ---------------------------------------------------------------------
  // str.title(): a letter is upper-cased when it starts the string or follows
  // a non-letter, and lower-cased otherwise; other characters are kept.

  function CaseAt(c: char, afterLetter: bool): char
  {
    if !IsLetter(c) then c else if afterLetter then ToLower(c) else ToUpper(c)
  }

  function TitleFrom(s: string, afterLetter: bool): (r: string)
    ensures |r| == |s|
  {
    if s == [] then [] else [CaseAt(s[0], afterLetter)] + TitleFrom(s[1..], IsLetter(s[0]))
  }

  function Title(s: string): string
  {
    TitleFrom(s, false)
  }

  lemma {:induction false} TitleFromAt(s: string, afterLetter: bool, i: int)
    requires 0 <= i < |s|
    ensures TitleFrom(s, afterLetter)[i] == CaseAt(s[i], if i == 0 then afterLetter else IsLetter(s[i - 1]))
  {
    if i > 0 {
      TitleFromAt(s[1..], IsLetter(s[0]), i - 1);
    }
  }

  /** The character-by-character meaning of `str.title()`. */
  lemma TitleAt(s: string, i: int)
    requires 0 <= i < |s|
    ensures |Title(s)| == |s|
    ensures Title(s)[i] == CaseAt(s[i], i > 0 && IsLetter(s[i - 1]))
  {
    TitleFromAt(s, false, i);
  }

  /** Title-casing ignores the case the input was written in, and is idempotent. */
  lemma TitleIgnoresCase(s: string)
    ensures Title(Lower(s)) == Title(s)
    ensures Title(Title(s)) == Title(s)
  {
    var l := Lower(s);
    forall i | 0 <= i < |s| ensures Title(l)[i] == Title(s)[i] {
      TitleAt(s, i);
      TitleAt(l, i);
    }
    var t := Title(s);
    forall i | 0 <= i < |s| ensures Title(t)[i] == t[i] {
      TitleAt(s, i);
      TitleAt(t, i);
      if i > 0 {
        TitleAt(s, i - 1);
      }
    }
  }

  /** `[s.title() for s in items]`. */
  function TitleAll(items: seq<string>): (r: seq<string>)
    ensures |r| == |items|
    ensures forall i :: 0 <= i < |items| ==> r[i] == Title(items[i])
  {
    seq(|items|, i requires 0 <= i < |items| => Title(items[i]))
  }

  /** `[s.lower() for s in items]`. */
  function LowerAll(items: seq<string>): (r: seq<string>)
    ensures |r| == |items|
    ensures forall i :: 0 <= i < |items| ==> r[i] == Lower(items[i])
  {
    seq(|items|, i requires 0 <= i < |items| => Lower(items[i]))
  }

  lemma TitleAllIgnoresCase(items: seq<string>)
    ensures TitleAll(LowerAll(items)) == TitleAll(items)
    ensures TitleAll(TitleAll(items)) == TitleAll(items)
  {
    forall i | 0 <= i < |items| ensures Title(Lower(items[i])) == Title(items[i]) && Title(Title(items[i])) == Title(items[i]) {
      TitleIgnoresCase(items[i]);
    }
  }

  // ---------------------------------------------------------------------
  // str.split() with no argument

  predicate NoSpace(s: string)
  {
    forall i :: 0 <= i < |s| ==> !IsSpace(s[i])
  }

  /** A well-formed token of `str.split()`: non-empty and free of whitespace. */
  predicate IsToken(t: string)
  {
    t != [] && NoSpace(t)
  }

  function TokenLength(s: string): (n: nat)
    ensures n <= |s|
    ensures NoSpace(s[..n])
    ensures n < |s| ==> IsSpace(s[n])
  {
    if s == [] || IsSpace(s[0]) then 0
    else
      var n := 1 + TokenLength(s[1..]);
      assert s[..n] == [s[0]] + s[1..][..n - 1];
      n
  }

  /** Runs of whitespace separate tokens; leading and trailing whitespace is dropped. */
  function Split(s: string): (r: seq<string>)
    ensures forall t <- r :: IsToken(t)
    decreases |s|
  {
    if s == [] then []
    else if IsSpace(s[0]) then Split(s[1..])
    else
      var n := TokenLength(s);
      [s[..n]] + Split(s[n..])
  }

  // ---------------------------------------------------------------------
  // str.join

  function Join(sep: string, parts: seq<string>): string
  {
    if |parts| == 0 then ""
    else if |parts| == 1 then parts[0]
    else parts[0] + sep + Join(sep, parts[1..])
  }

  lemma TokenLengthOf(t: string, rest: string)
    requires IsToken(t)
    requires rest == [] || IsSpace(rest[0])
    ensures TokenLength(t + rest) == |t|
  {
    var s := t + rest;
    var n := TokenLength(s);
    assert s[..|t|] == t;
  }

  /** Joining tokens with single spaces and splitting again gives the tokens back. */
  lemma {:induction false} SplitJoin(toks: seq<string>)
    requires forall t <- toks :: IsToken(t)
    ensures Split(Join(" ", toks)) == toks
  {
    if |toks| == 1 {
      var t := toks[0];
      TokenLengthOf(t, []);
      assert t + [] == t;
      assert t[..|t|] == t && t[|t|..] == [];
    } else if |toks| > 1 {
      var t, rest := toks[0], Join(" ", toks[1..]);
      var s := t + " " + rest;
      assert s == t + (" " + rest);
      TokenLengthOf(t, " " + rest);
      assert s[..|t|] == t;
      assert s[|t|..] == " " + rest;
      assert (" " + rest)[1..] == rest;
      SplitJoin(toks[1..]);
      assert [t] + toks[1..] == toks;
    }
  }

  /** Joining one more part appends a separator and that part. */
  lemma {:induction false} JoinSnoc(sep: string, parts: seq<string>, x: string)
    ensures Join(sep, parts + [x]) == if parts == [] then x else Join(sep, parts) + sep + x
  {
    if |parts| == 1 {
      assert parts + [x] == [parts[0], x];
      assert [parts[0], x][1..] == [x];
    } else if |parts| > 1 {
      assert (parts + [x])[1..] == parts[1..] + [x];
      JoinSnoc(sep, parts[1..], x);
    } else {
      assert parts + [x] == [x];
    }
  }

  /** Total length of a list of strings. */
  function SumLengths(parts: seq<string>): nat
  {
    if parts == [] then 0 else |parts[0]| + SumLengths(parts[1..])
  }

  /** `sep.join(parts)` has the parts' characters plus one separator between each two. */
  lemma {:induction false} JoinLength(sep: string, parts: seq<string>)
    ensures |Join(sep, parts)| == SumLengths(parts) + (if parts == [] then 0 else |sep| * (|parts| - 1))
  {
    if |parts| > 1 {
      JoinLength(sep, parts[1..]);
    }
  }

  /** Total number of occurrences of `c` in a list of strings. */
  function SumCounts(parts: seq<string>, c: char): nat
  {
    if parts == [] then 0 else CountChar(parts[0], c) + SumCounts(parts[1..], c)
  }

  lemma {:induction false} CountConcat(a: string, b: string, c: char)
    ensures CountChar(a + b, c) == CountChar(a, c) + CountChar(b, c)
  {
    if a == [] {
      assert a + b == b;
    } else {
      assert (a + b)[1..] == a[1..] + b;
      CountConcat(a[1..], b, c);
    }
  }

  lemma {:induction false} CountAbsent(s: string, c: char)
    requires c !in s
    ensures CountChar(s, c) == 0
  {
    if s != [] {
      assert c !in s[1..] by {
        assert forall i :: 0 <= i < |s[1..]| ==> s[1..][i] == s[i + 1];
      }
      CountAbsent(s[1..], c);
    }
  }

  /** Occurrences of `c` in `sep.join(parts)`: those of the parts plus those of the separators. */
  lemma {:induction false} JoinCount(sep: string, parts: seq<string>, c: char)
    ensures CountChar(Join(sep, parts), c) == SumCounts(parts, c) + (if parts == [] then 0 else CountChar(sep, c) * (|parts| - 1))
  {
    if |parts| == 1 {
      assert parts[1..] == [];
    } else if |parts| > 1 {
      JoinCount(sep, parts[1..], c);
      CountConcat(parts[0], sep, c);
      CountConcat(parts[0] + sep, Join(sep, parts[1..]), c);
    }
  }

  // ---------------------------------------------------------------------
  // int() over an optionally signed decimal literal, and str() of an int

  predicate AllDigits(s: string)
  {
    forall i :: 0 <= i < |s| ==> IsDigit(s[i])
  }

  function DigitValue(c: char): nat
    requires IsDigit(c)
  {
    c as int - '0' as int
  }

  function DigitChar(d: nat): (c: char)
    requires d < 10
    ensures IsDigit(c) && DigitValue(c) == d
  {
    ('0' as int + d) as char
  }

  function DigitsValue(s: string): nat
    requires AllDigits(s)
  {
    if s == [] then 0 else DigitsValue(s[..|s| - 1]) * 10 + DigitValue(s[|s| - 1])
  }

  /** `int(s)`: an optional `+` or `-` followed by at least one decimal digit. */
  function ParseInt(s: string): Option<int>
  {
    if |s| > 0 && (s[0] == '+' || s[0] == '-') then
      if |s| > 1 && AllDigits(s[1..]) then
        var magnitude: int := DigitsValue(s[1..]);
        Some(if s[0] == '-' then -magnitude else magnitude)
      else None
    else if |s| > 0 && AllDigits(s) then Some(DigitsValue(s))
    else None
  }

  function NatToString(n: nat): (r: string)
    ensures |r| > 0 && AllDigits(r)
    ensures DigitsValue(r) == n
    ensures r[0] == '0' ==> n == 0
  {
    if n < 10 then [DigitChar(n)]
    else
      var front := NatToString(n / 10);
      var r := front + [DigitChar(n % 10)];
      assert r[..|r| - 1] == front;
      r
  }

  /** `str(n)` for an int: a minus sign when negative, then digits without leading zeros. */
  function IntToString(n: int): (r: string)
    ensures ParseInt(r) == Some(n)
    ensures NoSpace(r) && r != []
  {
    if n < 0 then
      var r := "-" + NatToString(-n);
      assert r[1..] == NatToString(-n);
      r
    else NatToString(n)
  }

  // ---------------------------------------------------------------------
  // Searching and rewriting text

  predicate StartsWith(s: string, prefix: string)
  {
    |prefix| <= |s| && s[..|prefix|] == prefix
  }

  /** The substring test `sub in s`. */
  predicate Contains(s: string, sub: string)
    decreases |s|
  {
    StartsWith(s, sub) || (|s| > 0 && Contains(s[1..], sub))
  }

  /** The first and last pieces of a concatenation can be read back off its ends. */
  lemma ConcatEnds(a: string, b: string, c: string)
    ensures |a + b + c| >= |a| + |c|
    ensures (a + b + c)[..|a|] == a && (a + b + c)[|a + b + c| - |c|..] == c
  {
  }

  /** `s.count(c)` for a one-character `c`. */
  function CountChar(s: string, c: char): nat
  {
    if s == [] then 0 else (if s[0] == c then 1 else 0) + CountChar(s[1..], c)
  }

  /** `s.lstrip()` */
  function TrimStart(s: string): (r: string)
    ensures |r| <= |s|
  {
    if s != [] && IsSpace(s[0]) then TrimStart(s[1..]) else s
  }

  /** `s.rstrip()` */
  function TrimEnd(s: string): (r: string)
    ensures |r| <= |s|
  {
    if s != [] && IsSpace(s[|s| - 1]) then TrimEnd(s[..|s| - 1]) else s
  }

  /** `lstrip()` removes exactly the leading whitespace: what is left is a suffix of `s` that does not start with a space. */
  lemma {:induction false} TrimStartMeaning(s: string)
    ensures var r := TrimStart(s);
      r == s[|s| - |r|..]
      && (forall i :: 0 <= i < |s| - |r| ==> IsSpace(s[i]))
      && (r == [] || !IsSpace(r[0]))
    decreases |s|
  {
    if s != [] && IsSpace(s[0]) {
      TrimStartMeaning(s[1..]);
      var r := TrimStart(s[1..]);
      forall i | 1 <= i < |s| - |r|
        ensures IsSpace(s[i])
      {
        assert s[i] == s[1..][i - 1];
      }
    }
  }

  /** `rstrip()` removes exactly the trailing whitespace: what is left is a prefix of `s` that does not end with a space. */
  lemma {:induction false} TrimEndMeaning(s: string)
    ensures var r := TrimEnd(s);
      r == s[..|r|]
      && (forall i :: |r| <= i < |s| ==> IsSpace(s[i]))
      && (r == [] || !IsSpace(r[|r| - 1]))
    decreases |s|
  {
    if s != [] && IsSpace(s[|s| - 1]) {
      TrimEndMeaning(s[..|s| - 1]);
      var r := TrimEnd(s[..|s| - 1]);
      forall i | |r| <= i < |s| - 1
        ensures IsSpace(s[i])
      {
        assert s[i] == s[..|s| - 1][i];
      }
    }
  }

  /** `s.strip()` */
  function Strip(s: string): string
  {
    TrimEnd(TrimStart(s))
  }

  /** `strip()` removes exactly the whitespace at both ends: what is left is a slice of `s` that starts and ends with a non-space. */
  lemma StripMeaning(s: string)
    ensures var r := Strip(s); var k := |s| - |TrimStart(s)|;
      k + |r| <= |s| && r == s[k..k + |r|]
      && (forall i :: 0 <= i < k ==> IsSpace(s[i]))
      && (forall i :: k + |r| <= i < |s| ==> IsSpace(s[i]))
      && (r == [] || (!IsSpace(r[0]) && !IsSpace(r[|r| - 1])))
  {
    var t := TrimStart(s);
    var r := TrimEnd(t);
    var k := |s| - |t|;
    TrimStartMeaning(s);
    TrimEndMeaning(t);
    assert t == s[k..];
    assert r == t[..|r|];
    assert r == s[k..k + |r|];
    forall i | k + |r| <= i < |s|
      ensures IsSpace(s[i])
    {
      assert s[i] == t[i - k];
    }
  }

  /** `s.replace(old, new)`: non-overlapping occurrences, scanning left to right. */
  function ReplaceAll(s: string, pat: string, repl: string): string
    requires |pat| > 0
    decreases |s|
  {
    if StartsWith(s, pat) then repl + ReplaceAll(s[|pat|..], pat, repl)
    else if s == [] then []
    else [s[0]] + ReplaceAll(s[1..], pat, repl)
  }

  /** A character absent from the text and from the replacement stays absent. */
  lemma {:induction false} ReplaceKeepsAbsent(s: string, pat: string, repl: string, c: char)
    requires |pat| > 0 && c !in s && c !in repl
    ensures c !in ReplaceAll(s, pat, repl)
    decreases |s|
  {
    if StartsWith(s, pat) {
      ReplaceKeepsAbsent(s[|pat|..], pat, repl, c);
    } else if s != [] {
      ReplaceKeepsAbsent(s[1..], pat, repl, c);
    }
  }

  /** Replacing a one-character string by text that lacks it removes that character. */
  lemma {:induction false} ReplaceRemovesChar(s: string, c: char, repl: string)
    requires c !in repl
    ensures c !in ReplaceAll(s, [c], repl)
    decreases |s|
  {
    if StartsWith(s, [c]) {
      ReplaceRemovesChar(s[1..], c, repl);
    } else if s != [] {
      ReplaceRemovesChar(s[1..], c, repl);
    }
  }

  predicate NoDoubleSlash(s: string)
  {
    forall i :: 0 <= i < |s| - 1 ==> !(s[i] == '/' && s[i + 1] == '/')
  }

  /** After `replace("//", "#")` no two slashes are adjacent. */
  lemma {:induction false} ReplaceDoubleSlash(s: string)
    ensures NoDoubleSlash(ReplaceAll(s, "//", "#"))
    ensures var r := ReplaceAll(s, "//", "#"); |r| > 0 && r[0] == '/' ==> |s| > 0 && s[0] == '/'
    decreases |s|
  {
    var r := ReplaceAll(s, "//", "#");
    if StartsWith(s, "//") {
      ReplaceDoubleSlash(s[2..]);
      var r' := ReplaceAll(s[2..], "//", "#");
      assert r == "#" + r';
      forall i | 0 <= i < |r| - 1 ensures !(r[i] == '/' && r[i + 1] == '/') {
        if i > 0 {
          assert r[i] == r'[i - 1] && r[i + 1] == r'[i];
        }
      }
    } else if s != [] {
      ReplaceDoubleSlash(s[1..]);
      var r' := ReplaceAll(s[1..], "//", "#");
      assert r == [s[0]] + r';
      forall i | 0 <= i < |r| - 1 ensures !(r[i] == '/' && r[i + 1] == '/') {
        if i > 0 {
          assert r[i] == r'[i - 1] && r[i + 1] == r'[i];
        }
      }
    }
  }
}
