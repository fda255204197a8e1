/**
 * The Markdown scaffolding the two renderers share (src/githubActionsHelper.ts, lines 175-185 and
 * 270-280): a title, a header row naming the algorithms, and a separator row with one centred
 * column per algorithm after the location column.
 */
module Table {
  import opened Types

  /** The location column's separator `|---|` (lines 181, 276). */
  const LeadSeparator: string := "|---|"

  /** One centred column's separator `:---:|` (lines 183, 278). */
  const ColumnSeparator: string := ":---:|"

  /** The separator row the `for` loop builds, before its newline. */
  function Separator(n: nat): string
  {
    if n == 0 then LeadSeparator else Separator(n - 1) + ColumnSeparator
  }

  /** The separator row is the location column's separator followed by exactly `n` centred columns. */
  lemma {:induction false} SeparatorShape(n: nat)
    ensures |Separator(n)| == |LeadSeparator| + |ColumnSeparator| * n
    ensures Separator(n)[..|LeadSeparator|] == LeadSeparator
    ensures forall i :: 0 <= i < n ==>
      Separator(n)[|LeadSeparator| + |ColumnSeparator| * i..|LeadSeparator| + |ColumnSeparator| * (i + 1)] == ColumnSeparator
  {
    if n > 0 {
      SeparatorShape(n - 1);
      var prev := Separator(n - 1);
      var w := |ColumnSeparator|;
      assert Separator(n) == prev + ColumnSeparator;
      forall i | 0 <= i < n
        ensures Separator(n)[|LeadSeparator| + w * i..|LeadSeparator| + w * (i + 1)] == ColumnSeparator
      {
        if i < n - 1 {
          assert Separator(n)[|LeadSeparator| + w * i..|LeadSeparator| + w * (i + 1)]
              == prev[|LeadSeparator| + w * i..|LeadSeparator| + w * (i + 1)];
        } else {
          assert |LeadSeparator| + w * i == |prev|;
        }
      }
    }
  }

  /** The `for` loop of lines 181-184 (and 276-279) appending one centred column per algorithm. */
  method SeparatorRow(n: nat) returns (r: string)
    ensures r == Separator(n)
  {
    r := LeadSeparator;
    for i := 0 to n
      invariant r == Separator(i)
    {
      r := r + ColumnSeparator;
    }
  }

  /** The title, the row of algorithm names and the separator row (lines 175-185, 270-280). */
  function Header(title: string, ranking: seq<string>): string
  {
    "## " + title + "\n" + "|Line | ⬇ " + Join(ranking, " | ") + "|\n" + Separator(|ranking|) + "\n"
  }

  /** The title and header lines, then the separator row the `for` loop builds (lines 175-185, 270-280). */
  method HeaderText(title: string, ranking: seq<string>) returns (r: string)
    ensures r == Header(title, ranking)
  {
    var separator := SeparatorRow(|ranking|);
    r := "## " + title + "\n" + "|Line | ⬇ " + Join(ranking, " | ") + "|\n" + separator + "\n";
  }

  /** A table row: the location cell, then one cell per algorithm (lines 243, 335-337). */
  function Row(location: string, cells: seq<string>): string
  {
    "|" + location + "| " + Join(cells, " | ") + "|\n"
  }

  /** The address of a file of the repository at the commit under analysis (lines 191, 285). */
  function BlobUrl(ctx: Context, path: string): string
  {
    "https://github.com/" + ctx.repoOwner + "/" + ctx.repoName + "/blob/" + ctx.commitSha + path
  }

  /**
   * A metric value as a cell shows it (lines 202-204, 219-222, 325-331): `toFixed(2)` of the value of
   * the line's first metric of that algorithm, or `---` when the line has none.
   */
  function ValueText(line: Line, algorithm: string, ctx: Context): (r: string)
    ensures (forall m :: m in line.metrics ==> m.algorithm != algorithm) ==> r == "---"
    ensures forall k :: FirstOf(line.metrics, algorithm, k) ==> r == ctx.fixed2(line.metrics[k].value)
  {
    FindMetricFirst(line.metrics, algorithm);
    match MetricOf(line, algorithm)
    case Some(v) => ctx.fixed2(v)
    case None => "---"
  }
}
