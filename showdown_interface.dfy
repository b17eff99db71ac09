/**
 * `collect_data` (src/ShowdownInterface.py:17-85): turn the lines of a
 * Pokemon Showdown TypeScript data file into YAML text. The file is given
 * as its list of lines; the debug write and the YAML parse are not modelled.
 */
module ShowdownInterface {
  import opened Builtins

  // ---------------------------------------------------------------------
  // Dropping the preamble (lines 24-32)

  /**
   * Where the `for i, line in enumerate(raw)` search stops: the first line
   * from `k` on that starts with `export`, or the last line if none does.
   */
  function ExportFrom(raw: seq<string>, k: nat): (i: nat)
    requires k < |raw|
    ensures k <= i < |raw|
    decreases |raw| - k
  {
    if k + 1 >= |raw| || StartsWith(raw[k], "export") then k else ExportFrom(raw, k + 1)
  }

  /** `raw[i:]` with its first line replaced by `{`, or IndexError when there is no line. */
  function DropPreambleSpec(raw: seq<string>): Result<seq<string>, PyError>
  {
    if raw == [] then Failure(IndexError)
    else Success(["{\n"] + raw[ExportFrom(raw, 0) + 1..])
  }

  method DropPreamble(raw: seq<string>) returns (r: Result<seq<string>, PyError>)
    ensures r == DropPreambleSpec(raw)
  {
    var i := 0;
    var k := 0;
    while k < |raw|
      invariant 0 <= k <= |raw|
      invariant k < |raw| ==> ExportFrom(raw, 0) == ExportFrom(raw, k)
      invariant 0 < k ==> i == k - 1
      invariant 0 < k == |raw| ==> ExportFrom(raw, 0) == k - 1
    {
      i := k;
      if StartsWith(raw[k], "export") {
        break;
      }
      k := k + 1;
    }
    if raw == [] {
      return Failure(IndexError);
    }
    r := Success(["{\n"] + raw[i + 1..]);
  }

  // ---------------------------------------------------------------------
  // The rewriting loop (lines 34-75)

  /** The three loop variables `code_block`, `code_start_indent` and `had_ts_code`. */
  datatype State = State(codeBlock: bool, startIndent: int, hadTsCode: bool)

  const Initial := State(false, -1, false)

  /** At every iteration boundary a block is open exactly when its indent is recorded. */
  predicate Consistent(st: State)
  {
    (st.codeBlock <==> st.startIndent != -1) && st.startIndent >= -1
  }

  /** `line.count("\t")` */
  function Indent(line: string): nat
  {
    CountChar(line, '\t')
  }

  /** A line that opens a code block by its braces alone. */
  predicate OpensBlock(line: string)
  {
    ':' !in line && '}' !in line && '{' in line && Strip(line) != "{"
  }

  const Callback := "  callback: True,\n"

  /** A kept line: tabs become two spaces, then `//` becomes `#`. */
  function Rewrite(line: string): string
  {
    ReplaceAll(ReplaceAll(line, "\t", "  "), "//", "#")
  }

  /** One pass of the loop body: the new state and what it appends to `parsed`. */
  function Step(st: State, line: string): (r: (State, seq<string>))
    ensures Consistent(st) ==> Consistent(r.0)
  {
    var inBlock := st.codeBlock || OpensBlock(line) || Contains(line, "condition:");
    if inBlock && st.startIndent == -1 then
      (State(true, Indent(line), true), [])
    else if inBlock && Contains(Strip(line), "},") && Indent(line) == st.startIndent then
      (State(false, -1, st.hadTsCode), [])
    else if inBlock then
      (State(true, st.startIndent, st.hadTsCode), [])
    else
      var marker := Indent(line) == 1 && st.hadTsCode;
      (State(false, st.startIndent, st.hadTsCode && !marker),
       (if marker then [Callback] else []) + [Rewrite(line)])
  }

  /** The loop over a prefix of the lines: the state reached and everything appended. */
  function Run(lines: seq<string>): (r: (State, seq<string>))
    ensures Consistent(r.0)
  {
    if lines == [] then (Initial, [])
    else
      var prev := Run(lines[..|lines| - 1]);
      var next := Step(prev.0, lines[|lines| - 1]);
      (next.0, prev.1 + next.1)
  }

  method RewriteLines(raw: seq<string>) returns (parsed: seq<string>)
    ensures parsed == Run(raw).1
  {
    parsed := [];
    var codeBlock := false;
    var codeStartIndent: int := -1;
    var hadTsCode := false;
    var k := 0;
    while k < |raw|
      invariant 0 <= k <= |raw|
      invariant Run(raw[..k]) == (State(codeBlock, codeStartIndent, hadTsCode), parsed)
    {
      assert raw[..k + 1][..k] == raw[..k];
      ghost var step := Step(State(codeBlock, codeStartIndent, hadTsCode), raw[k]);
      ghost var before := parsed;
      var line := raw[k];
      var indent := CountChar(line, '\t');
      if !codeBlock {
        codeBlock := ':' !in line && '}' !in line && '{' in line && Strip(line) != "{";
      }
      if !codeBlock && Contains(line, "condition:") {
        codeBlock := true;
      }
      if codeBlock && codeStartIndent == -1 {
        codeStartIndent := indent;
        hadTsCode := true;
      } else if codeBlock && Contains(Strip(line), "},") && indent == codeStartIndent {
        codeStartIndent := -1;
        codeBlock := false;
      } else if !codeBlock {
        if indent == 1 && hadTsCode {
          parsed := parsed + [Callback];
          hadTsCode := false;
        }
        line := ReplaceAll(line, "\t", "  ");
        line := ReplaceAll(line, "//", "#");
        parsed := parsed + [line];
      }
      assert State(codeBlock, codeStartIndent, hadTsCode) == step.0;
      assert parsed == before + step.1;
      k := k + 1;
    }
    assert raw[..|raw|] == raw;
  }

  // ---------------------------------------------------------------------
  // Joining and trimming (lines 77-78)

  /** `s[:-2]`: everything but the last two characters, or nothing. */
  function DropLastTwo(s: string): (r: string)
    ensures |r| == if |s| < 2 then 0 else |s| - 2
    ensures r == s[..|r|]
  {
    if |s| < 2 then "" else s[..|s| - 2]
  }

  function CollectDataSpec(raw: seq<string>): Result<string, PyError>
  {
    match DropPreambleSpec(raw)
    case Failure(e) => Failure(e)
    case Success(lines) => Success(DropLastTwo(Join("", Run(lines).1)))
  }

  /** `collect_data` up to the YAML parse: the text it hands to `yaml.safe_load`. */
  method CollectData(raw: seq<string>) returns (r: Result<string, PyError>)
    ensures r == CollectDataSpec(raw)
  {
    var lines := DropPreamble(raw);
    if lines.Failure? {
      return Failure(lines.error);
    }
    var parsed := RewriteLines(lines.value);
    var text := Join("", parsed);
    r := Success(if |text| < 2 then "" else text[..|text| - 2]);
  }

  // ---------------------------------------------------------------------
  // Properties

  /** The search stops at the first `export` line, or at the last line when there is none. */
  lemma {:induction false} ExportFromIsFirst(raw: seq<string>, k: nat)
    requires k < |raw|
    ensures forall j :: k <= j < ExportFrom(raw, k) ==> !StartsWith(raw[j], "export")
    ensures StartsWith(raw[ExportFrom(raw, k)], "export") || ExportFrom(raw, k) == |raw| - 1
    decreases |raw| - k
  {
    if k + 1 < |raw| && !StartsWith(raw[k], "export") {
      ExportFromIsFirst(raw, k + 1);
    }
  }

  /** Without an `export` line only the last line survives, as `{`; with none at all, IndexError. */
  lemma NoExportLine(raw: seq<string>)
    requires forall j :: 0 <= j < |raw| ==> !StartsWith(raw[j], "export")
    ensures DropPreambleSpec(raw) == if raw == [] then Failure(IndexError) else Success(["{\n"])
  {
    if raw != [] {
      ExportFromIsFirst(raw, 0);
      var e := ExportFrom(raw, 0);
      assert !StartsWith(raw[e], "export");
      assert e == |raw| - 1;
      assert raw[e + 1..] == [];
      assert ["{\n"] + raw[e + 1..] == ["{\n"];
    }
  }

  /** The state before the line at index `k`. */
  function StateBefore(lines: seq<string>, k: nat): State
    requires k <= |lines|
  {
    Run(lines[..k]).0
  }

  /** The line is inside, opens or closes a code block. */
  predicate InBlock(st: State, line: string)
  {
    st.codeBlock || OpensBlock(line) || Contains(line, "condition:")
  }

  /** A block-opening line seen outside any block. */
  predicate Enters(st: State, line: string)
  {
    !st.codeBlock && InBlock(st, line)
  }

  /** A kept line at indent 1: the place a pending `callback: True,` is written. */
  predicate MarkerSpot(st: State, line: string)
  {
    !InBlock(st, line) && Indent(line) == 1
  }

  /**
   * One line's effect. Block lines append nothing; a kept line appends its
   * rewrite, preceded by the callback marker exactly when a block was
   * dropped since the last marker and the line sits at indent 1.
   */
  lemma StepEffect(st: State, line: string)
    requires Consistent(st)
    ensures InBlock(st, line) ==> Step(st, line).1 == []
    ensures Enters(st, line) ==> Step(st, line).0 == State(true, Indent(line), true)
    ensures st.codeBlock ==> (Step(st, line).0.codeBlock
      <==> !(Contains(Strip(line), "},") && Indent(line) == st.startIndent))
    ensures st.codeBlock && Step(st, line).0.codeBlock ==> Step(st, line).0.startIndent == st.startIndent
    ensures !InBlock(st, line) ==>
      Step(st, line).1 == (if MarkerSpot(st, line) && st.hadTsCode then [Callback] else []) + [Rewrite(line)]
    ensures Step(st, line).0.hadTsCode <==> Enters(st, line) || (st.hadTsCode && !MarkerSpot(st, line))
  {
  }

  lemma RunSnoc(lines: seq<string>, k: nat)
    requires k < |lines|
    ensures Run(lines[..k + 1]) == (Step(StateBefore(lines, k), lines[k]).0,
                                   Run(lines[..k]).1 + Step(StateBefore(lines, k), lines[k]).1)
  {
    assert lines[..k + 1][..k] == lines[..k];
  }

  /** Whether the line at each index enters a code block. */
  function EntersAt(lines: seq<string>): (r: seq<bool>)
    ensures |r| == |lines|
  {
    seq(|lines|, j requires 0 <= j < |lines| => Enters(StateBefore(lines, j), lines[j]))
  }

  /** Whether the line at each index is a kept line at indent 1. */
  function MarkerSpots(lines: seq<string>): (r: seq<bool>)
    ensures |r| == |lines|
  {
    seq(|lines|, j requires 0 <= j < |lines| => MarkerSpot(StateBefore(lines, j), lines[j]))
  }

  /** Some `enter[j]` before `k` is followed by no `marker[m]` before `k`. */
  predicate PendingIn(enter: seq<bool>, marker: seq<bool>, k: nat)
    requires k <= |enter| && k <= |marker|
  {
    exists j :: 0 <= j < k && enter[j] && forall m :: j < m < k ==> !marker[m]
  }

  lemma PendingInStep(enter: seq<bool>, marker: seq<bool>, k: nat)
    requires 0 < k <= |enter| && k <= |marker|
    ensures PendingIn(enter, marker, k) <==>
      enter[k - 1] || (PendingIn(enter, marker, k - 1) && !marker[k - 1])
  {
    if PendingIn(enter, marker, k) && !enter[k - 1] {
      var j :| 0 <= j < k && enter[j] && forall m :: j < m < k ==> !marker[m];
      assert j < k - 1;
    }
  }

  /** Some code block was entered before index `k` and no kept line at indent 1 followed it. */
  predicate Pending(lines: seq<string>, k: nat)
    requires k <= |lines|
  {
    PendingIn(EntersAt(lines), MarkerSpots(lines), k)
  }

  lemma {:induction false} HadTsCodeAt(lines: seq<string>, k: nat)
    requires k <= |lines|
    ensures StateBefore(lines, k).hadTsCode <==> Pending(lines, k)
  {
    if k > 0 {
      HadTsCodeAt(lines, k - 1);
      RunSnoc(lines, k - 1);
      StepEffect(StateBefore(lines, k - 1), lines[k - 1]);
      PendingInStep(EntersAt(lines), MarkerSpots(lines), k);
    }
  }

  /**
   * `had_ts_code` is set exactly when some code block has been entered and no
   * kept line at indent 1 has come after it.
   */
  lemma HadTsCodeMeans(lines: seq<string>)
    ensures Run(lines).0.hadTsCode <==>
      exists j :: 0 <= j < |lines| && Enters(StateBefore(lines, j), lines[j])
        && forall m :: j < m < |lines| ==> !MarkerSpot(StateBefore(lines, m), lines[m])
  {
    HadTsCodeAt(lines, |lines|);
    assert lines[..|lines|] == lines;
    var n, enter, marker := |lines|, EntersAt(lines), MarkerSpots(lines);
    if PendingIn(enter, marker, n) {
      var j :| 0 <= j < n && enter[j] && forall m :: j < m < n ==> !marker[m];
      assert Enters(StateBefore(lines, j), lines[j]);
      assert forall m :: j < m < n ==> !MarkerSpot(StateBefore(lines, m), lines[m]) by {
        forall m | j < m < n ensures !MarkerSpot(StateBefore(lines, m), lines[m]) {
          assert !marker[m];
        }
      }
    } else {
      forall j | 0 <= j < n && Enters(StateBefore(lines, j), lines[j])
        ensures exists m :: j < m < n && MarkerSpot(StateBefore(lines, m), lines[m])
      {
        assert enter[j];
        var m :| j < m < n && marker[m];
        assert MarkerSpot(StateBefore(lines, m), lines[m]);
      }
    }
  }

  /** What ends up in `parsed` holds no tab and no `//`. */
  predicate Clean(s: string)
  {
    '\t' !in s && NoDoubleSlash(s)
  }

  lemma RewriteIsClean(line: string)
    ensures Clean(Rewrite(line))
  {
    var once := ReplaceAll(line, "\t", "  ");
    ReplaceRemovesChar(line, '\t', "  ");
    ReplaceKeepsAbsent(once, "//", "#", '\t');
    ReplaceDoubleSlash(once);
  }

  /** Every appended line, markers included, is free of tabs and of `//`. */
  lemma {:induction false} OutputIsClean(lines: seq<string>)
    ensures forall e <- Run(lines).1 :: Clean(e)
  {
    if lines != [] {
      var p := lines[..|lines| - 1];
      OutputIsClean(p);
      var st, line := Run(p).0, lines[|lines| - 1];
      RewriteIsClean(line);
      assert Clean(Callback);
      assert forall e <- Step(st, line).1 :: Clean(e);
    }
  }

  /**
   * Inside a block entered at index `j`, the state stays in that block, with
   * the opening line's indent, until a `},` line at that indent.
   */
  lemma {:induction false} StaysInBlock(lines: seq<string>, j: nat, m: nat)
    requires j < m <= |lines|
    requires Enters(StateBefore(lines, j), lines[j])
    requires forall x :: j < x < m ==> !(Contains(Strip(lines[x]), "},") && Indent(lines[x]) == Indent(lines[j]))
    ensures StateBefore(lines, m).codeBlock && StateBefore(lines, m).startIndent == Indent(lines[j])
  {
    var st := StateBefore(lines, m - 1);
    RunSnoc(lines, m - 1);
    assert StateBefore(lines, m) == Step(st, lines[m - 1]).0;
    if m - 1 == j {
      EnterStep(st, lines[j]);
    } else {
      StaysInBlock(lines, j, m - 1);
      assert st.codeBlock && st.startIndent == Indent(lines[j]);
      InsideStep(st, lines[m - 1]);
    }
  }

  lemma EnterStep(st: State, line: string)
    requires Enters(st, line) && Consistent(st)
    ensures Step(st, line).0 == State(true, Indent(line), true)
  {
  }

  lemma InsideStep(st: State, line: string)
    requires st.codeBlock && Consistent(st)
    ensures Step(st, line).0.codeBlock <==> !(Contains(Strip(line), "},") && Indent(line) == st.startIndent)
    ensures Step(st, line).0.codeBlock ==> Step(st, line).0.startIndent == st.startIndent
  {
  }

  /**
   * Every line from a block's opening line through the first later `},` line
   * at the same indent is dropped, both ends included; after it no block is open.
   */
  lemma BlockDropped(lines: seq<string>, j: nat, c: nat)
    requires j < c < |lines|
    requires Enters(StateBefore(lines, j), lines[j])
    requires forall x :: j < x < c ==> !(Contains(Strip(lines[x]), "},") && Indent(lines[x]) == Indent(lines[j]))
    requires Contains(Strip(lines[c]), "},") && Indent(lines[c]) == Indent(lines[j])
    ensures forall x :: j <= x <= c ==> Step(StateBefore(lines, x), lines[x]).1 == []
    ensures !StateBefore(lines, c + 1).codeBlock
  {
    forall x | j <= x <= c ensures Step(StateBefore(lines, x), lines[x]).1 == [] {
      StepEffect(StateBefore(lines, x), lines[x]);
      if x > j {
        StaysInBlock(lines, j, x);
      }
    }
    StaysInBlock(lines, j, c);
    StepEffect(StateBefore(lines, c), lines[c]);
    RunSnoc(lines, c);
  }
}
