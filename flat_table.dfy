/**
 * The flat table `getStringTableLineSuspiciousness` (src/githubActionsHelper.ts, lines 250-341):
 * one row per selected line, in the order given, with the line's location, a collapsed list of the
 * tests that cover it (failing tests first) and one cell per algorithm of the normalised ranking.
 */
module FlatTable {
  import opened Types
  import Ranking
  import Stacktrace
  import Table

  /** The width the stack-trace cells are cut to (line 317). */
  const StacktraceWidth: nat := 50

  /**
   * The location cell (lines 283-286): with a path (even an empty one, since the test is
   * `!= undefined`), a link to the line followed by a space; without one, `file$method#L<n>`.
   */
  function FlatLocation(line: Line, ctx: Context): (r: string)
    ensures line.enclosing.file.path.Some? ==>
      r == Table.BlobUrl(ctx, line.enclosing.file.path.value) + "#L" + NatToString(line.lineNumber) + " "
    ensures line.enclosing.file.path.None? ==>
      r == line.enclosing.file.name + "$" + line.enclosing.name + "#L" + NatToString(line.lineNumber)
    ensures line.enclosing.file.path.None? ==>
      EndsWith(r, "#L" + NatToString(line.lineNumber)) && StartsWith(r, line.enclosing.file.name + "$")
  {
    var anchor := "#L" + NatToString(line.lineNumber);
    match line.enclosing.file.path
    case Some(path) => Table.BlobUrl(ctx, path) + anchor + " "
    case None =>
      var r := line.enclosing.file.name + "$" + line.enclosing.name + anchor;
      assert r[|r| - |anchor|..] == anchor;
      assert r[..|line.enclosing.file.name + "$"|] == line.enclosing.file.name + "$";
      r
  }

  /** The test executed that very line (`coverage.line === line && coverage.covered`, line 291). */
  predicate Covers(test: TestCase, line: Line)
  {
    exists c :: c in test.coverage && c.lineId == line.id && c.covered
  }

  /** The `filter` of lines 288-292, keeping the tests' order. */
  function CoveringOf(tests: seq<TestCase>, line: Line): (r: seq<TestCase>)
    ensures forall t :: t in r <==> t in tests && Covers(t, line)
  {
    if |tests| == 0 then []
    else
      var before := CoveringOf(tests[..|tests| - 1], line);
      assert forall t :: t in tests <==> t in tests[..|tests| - 1] || t == Last(tests);
      if Covers(Last(tests), line) then before + [Last(tests)] else before
  }

  /** The tests whose `passed` flag is `passed`, in their order. */
  function WithResult(tests: seq<TestCase>, passed: bool): (r: seq<TestCase>)
    ensures forall t :: t in r <==> t in tests && t.passed == passed
  {
    if |tests| == 0 then []
    else
      var before := WithResult(tests[..|tests| - 1], passed);
      assert forall t :: t in tests <==> t in tests[..|tests| - 1] || t == Last(tests);
      if Last(tests).passed == passed then before + [Last(tests)] else before
  }

  /**
   * The tests covering the line after the sort of lines 294-302. Its comparator orders failing
   * before passing and is consistent, so the stable sort is the failing tests followed by the
   * passing ones, each in their original order.
   */
  function CoveringTests(tests: seq<TestCase>, line: Line): seq<TestCase>
  {
    var covering := CoveringOf(tests, line);
    WithResult(covering, false) + WithResult(covering, true)
  }

  lemma {:induction false} WithResultSplit(tests: seq<TestCase>)
    ensures multiset(WithResult(tests, false)) + multiset(WithResult(tests, true)) == multiset(tests)
  {
    if |tests| > 0 {
      WithResultSplit(tests[..|tests| - 1]);
      assert tests == tests[..|tests| - 1] + [Last(tests)];
    }
  }

  /**
   * The covering-tests list holds exactly the tests that executed the line, each as often as in
   * the input, and every failing test comes before every passing one.
   */
  lemma {:induction false} CoveringTestsSpec(tests: seq<TestCase>, line: Line)
    ensures forall t :: t in CoveringTests(tests, line) <==> t in tests && Covers(t, line)
    ensures multiset(CoveringTests(tests, line)) == multiset(CoveringOf(tests, line))
    ensures forall p, q :: 0 <= p < q < |CoveringTests(tests, line)| && CoveringTests(tests, line)[p].passed ==>
      CoveringTests(tests, line)[q].passed
  {
    var covering := CoveringOf(tests, line);
    var failing, passing := WithResult(covering, false), WithResult(covering, true);
    var r := CoveringTests(tests, line);
    WithResultSplit(covering);
    forall t ensures t in r <==> t in tests && Covers(t, line) {
      assert t in r <==> t in failing || t in passing;
    }
    forall p, q | 0 <= p < q < |r| && r[p].passed ensures r[q].passed {
      if p >= |failing| {
        assert r[q] == passing[q - |failing|];
        assert r[q] in passing;
      }
    }
  }

  /**
   * The stack-trace cell (lines 316-318): a missing or empty trace reads `---`; a non-empty one reads
   * as `substringStacktraceOnlyOnSpaces(trace, 50)` returns it, which is the trace itself (line 410),
   * so a trace longer than 50 characters is printed whole, not as the text the splitter builds.
   */
  function StacktraceCell(test: TestCase): (r: string)
    ensures test.stacktrace.None? || test.stacktrace == Some("") ==> r == "---"
    ensures test.stacktrace.Some? && |test.stacktrace.value| > 0 ==> r == test.stacktrace.value
    ensures test.stacktrace.Some? && |test.stacktrace.value| > StacktraceWidth ==>
      r != Stacktrace.Wrapped(test.stacktrace.value, StacktraceWidth)
  {
    match test.stacktrace
    case Some(s) =>
      if |s| > StacktraceWidth then Stacktrace.WrappedDiffers(s, StacktraceWidth); s
      else if |s| > 0 then s
      else "---"
    case None => "---"
  }

  /** One test's row of the sub-table (lines 313-319). */
  function TestRow(test: TestCase): string
  {
    "<tr><td>" + test.testName + "</td><td>" + (if test.passed then "✅" else "❌") + "</td><td>"
      + StacktraceCell(test) + "</td></tr>"
  }

  /** One test's row, its cell taken from the splitter as the source calls it (lines 313-319). */
  method TestRowText(test: TestCase) returns (row: string)
    ensures row == TestRow(test)
  {
    var cell := "---";
    if test.stacktrace.Some? && |test.stacktrace.value| > 0 {
      cell := Stacktrace.SubstringStacktraceOnlyOnSpaces(test.stacktrace.value, StacktraceWidth);
    }
    row := "<tr><td>" + test.testName + "</td><td>" + (if test.passed then "✅" else "❌") + "</td><td>"
      + cell + "</td></tr>";
  }

  /** The rows of the sub-table, one per test in order. */
  function TestRows(tests: seq<TestCase>): string
  {
    if |tests| == 0 then "" else TestRows(tests[..|tests| - 1]) + TestRow(Last(tests))
  }

  const TestsOpen: string :=
    "<details><summary>Tests that cover this line</summary>"
    + "<table><thead><tr><th>Test Case</th><th>Result</th><th>Stacktrace</th></tr></thead><tbody>"

  const TestsClose: string := "</tbody></table></details>"

  /** The collapsed sub-table of the covering tests (lines 304-322); empty when no test covers the line. */
  function TestsText(covering: seq<TestCase>): (r: string)
    ensures |covering| == 0 <==> r == ""
  {
    if |covering| == 0 then "" else TestsOpen + TestRows(covering) + TestsClose
  }

  lemma {:induction false} TestRowsStep(tests: seq<TestCase>, i: nat)
    requires i < |tests|
    ensures TestRows(tests[..i + 1]) == TestRows(tests[..i]) + TestRow(tests[i])
  {
    assert tests[..i + 1][..i] == tests[..i];
  }

  /** The `forEach` of lines 312-320 appending one row per covering test. */
  method CoveringTestsText(tests: seq<TestCase>, line: Line) returns (r: string)
    ensures r == TestsText(CoveringTests(tests, line))
  {
    var covering := CoveringTests(tests, line);
    r := "";
    if |covering| > 0 {
      r := TestsOpen;
      var i := 0;
      while i < |covering|
        invariant 0 <= i <= |covering|
        invariant r == TestsOpen + TestRows(covering[..i])
      {
        var row := TestRowText(covering[i]);
        TestRowsStep(covering, i);
        AppendAssoc(TestsOpen, TestRows(covering[..i]), row);
        r := r + row;
        i := i + 1;
      }
      assert covering[..i] == covering;
      r := r + TestsClose;
    }
  }

  /** The algorithm cells of a line (lines 324-333), one per algorithm of the ranking. */
  function FlatCells(line: Line, ranking: seq<string>, ctx: Context): (r: seq<string>)
    ensures |r| == |ranking|
    ensures forall i :: 0 <= i < |ranking| ==> r[i] == Table.ValueText(line, ranking[i], ctx)
  {
    seq(|ranking|, i requires 0 <= i < |ranking| => Table.ValueText(line, ranking[i], ctx))
  }

  /** A missing metric reads `---`; a present one reads as `toFixed(2)` of the value of the line's first metric of that algorithm. */
  lemma {:induction false} FlatCellsSpec(line: Line, ranking: seq<string>, ctx: Context, i: nat)
    requires i < |ranking|
    ensures (forall m :: m in line.metrics ==> m.algorithm != ranking[i]) ==> FlatCells(line, ranking, ctx)[i] == "---"
    ensures forall k :: FirstOf(line.metrics, ranking[i], k) ==>
      FlatCells(line, ranking, ctx)[i] == ctx.fixed2(line.metrics[k].value)
  {
  }

  /** One line's row (lines 283-337). */
  function FlatRow(line: Line, ranking: seq<string>, tests: seq<TestCase>, ctx: Context): string
  {
    Table.Row(FlatLocation(line, ctx) + TestsText(CoveringTests(tests, line)), FlatCells(line, ranking, ctx))
  }

  function FlatRows(lines: seq<Line>, ranking: seq<string>, tests: seq<TestCase>, ctx: Context): string
  {
    if |lines| == 0 then "" else FlatRows(lines[..|lines| - 1], ranking, tests, ctx) + FlatRow(Last(lines), ranking, tests, ctx)
  }

  lemma {:induction false} FlatRowsStep(lines: seq<Line>, ranking: seq<string>, tests: seq<TestCase>, ctx: Context, i: nat)
    requires i < |lines|
    ensures FlatRows(lines[..i + 1], ranking, tests, ctx) == FlatRows(lines[..i], ranking, tests, ctx) + FlatRow(lines[i], ranking, tests, ctx)
  {
    assert lines[..i + 1][..i] == lines[..i];
  }

  const FlatTitle: string := "Line Suspiciousness by Algorithm"

  /** The table for lines and an already normalised ranking; nothing at all when there are no lines. */
  function FlatBody(lines: seq<Line>, ranking: seq<string>, tests: seq<TestCase>, ctx: Context): (r: string)
    ensures |lines| == 0 <==> r == ""
  {
    if |lines| == 0 then "" else Table.Header(FlatTitle, ranking) + FlatRows(lines, ranking, tests, ctx)
  }

  /** The body of the `forEach` of lines 282-338 for one line. */
  method FlatRowText(line: Line, names: seq<string>, tests: seq<TestCase>, ctx: Context) returns (row: string)
    ensures row == FlatRow(line, names, tests, ctx)
  {
    var testsText := CoveringTestsText(tests, line);
    row := Table.Row(FlatLocation(line, ctx) + testsText, FlatCells(line, names, ctx));
  }

  /** The header and the `forEach` over the lines appending one row each (lines 268-339). */
  method FlatTableText(lines: seq<Line>, names: seq<string>, tests: seq<TestCase>, ctx: Context) returns (body: string)
    ensures body == FlatBody(lines, names, tests, ctx)
  {
    body := "";
    if |lines| > 0 {
      body := Table.HeaderText(FlatTitle, names);
      var i := 0;
      while i < |lines|
        invariant 0 <= i <= |lines|
        invariant body == Table.Header(FlatTitle, names) + FlatRows(lines[..i], names, tests, ctx)
      {
        var row := FlatRowText(lines[i], names, tests, ctx);
        FlatRowsStep(lines, names, tests, ctx, i);
        AppendAssoc(Table.Header(FlatTitle, names), FlatRows(lines[..i], names, tests, ctx), row);
        body := body + row;
        i := i + 1;
      }
      assert lines[..i] == lines;
    }
  }

  /** `getStringTableLineSuspiciousness`: normalise the ranking in place (lines 258-266), then render. */
  method RenderFlatTable(lines: seq<Line>, ranking: array<string>, order: string, tests: seq<TestCase>, ctx: Context)
    returns (body: string)
    modifies ranking
    ensures ranking[..] == Ranking.Normalized(old(ranking[..]), order)
    ensures body == FlatBody(lines, ranking[..], tests, ctx)
  {
    Ranking.NormalizeRanking(ranking, order);
    body := FlatTableText(lines, ranking[..], tests, ctx);
  }
}
