/**
 * The block table `getStringTableLineSuspiciousnessWithCodeBlock` (src/githubActionsHelper.ts,
 * lines 92-248): one row per group of nearby lines of one method, with a location spanning the
 * group and, per algorithm, a cell listing every line of the group and a `---` placeholder for
 * each line number skipped inside it.
 */
module BlockTable {
  import opened Types
  import Ranking
  import Grouping
  import Table

  /** `**L<n> 𑗅** ` (lines 212-222). */
  function Label(n: nat): string
  {
    "**L" + NatToString(n) + " \U{115C5}** "
  }

  /** A line's entry for one algorithm (lines 219-223); `---` when the line has no such metric. */
  function LineEntry(line: Line, algorithm: string, ctx: Context): string
  {
    Label(line.lineNumber) + Table.ValueText(line, algorithm, ctx)
  }

  /** The entry standing for a skipped line number (lines 212-214). */
  function Placeholder(n: nat): string
  {
    Label(n) + "---<br>"
  }

  /** What the `while` loop of lines 211-216 appends between line numbers `lo` and `hi`. */
  function Gap(lo: nat, hi: nat): string
    decreases hi
  {
    if hi <= lo + 1 then "" else Gap(lo, hi - 1) + Placeholder(hi - 1)
  }

  /** The placeholders for `lo + 1`, ..., `hi - 1`, one each. */
  function Placeholders(lo: nat, hi: nat): (r: seq<string>)
    ensures |r| == if hi <= lo + 1 then 0 else hi - lo - 1
    ensures forall i :: 0 <= i < |r| ==> r[i] == Placeholder(lo + 1 + i)
  {
    if hi <= lo + 1 then [] else seq(hi - lo - 1, i requires 0 <= i < hi - lo - 1 => Placeholder(lo + 1 + i))
  }

  /** The loop emits exactly the placeholders for the skipped numbers, in increasing order. */
  lemma {:induction false} GapSpec(lo: nat, hi: nat)
    ensures Gap(lo, hi) == Concat(Placeholders(lo, hi))
    decreases hi
  {
    if hi > lo + 1 {
      GapSpec(lo, hi - 1);
      PlaceholdersSnoc(lo, hi);
      ConcatSnoc(Placeholders(lo, hi - 1), Placeholder(hi - 1));
    }
  }

  lemma PlaceholdersSnoc(lo: nat, hi: nat)
    requires hi > lo + 1
    ensures Placeholders(lo, hi) == Placeholders(lo, hi - 1) + [Placeholder(hi - 1)]
  {
    var r, init := Placeholders(lo, hi), Placeholders(lo, hi - 1);
    assert forall i :: 0 <= i < |init| ==> r[i] == init[i];
  }

  /** The `while` loop of lines 210-216. */
  method GapText(lo: nat, hi: nat) returns (r: string)
    ensures r == Gap(lo, hi)
  {
    r := "";
    var previous := lo;
    while previous < hi - 1
      invariant previous == lo || previous <= hi - 1
      invariant lo <= previous
      invariant r == Gap(lo, previous + 1)
    {
      r := r + Placeholder(previous + 1);
      previous := previous + 1;
    }
  }

  /** The string the inner `map` of lines 200-225 yields for the `k`-th line of the group. */
  function CellPart(g: seq<Line>, k: nat, algorithm: string, ctx: Context): string
    requires k < |g|
  {
    (if k != 0 && g[k].lineNumber > g[k - 1].lineNumber + 1 then Gap(g[k - 1].lineNumber, g[k].lineNumber) else "")
      + LineEntry(g[k], algorithm, ctx)
  }

  /**
   * Before a line `b` that follows a line `a` with `b > a + 1` come exactly `b - a - 1`
   * placeholders, for `a + 1` to `b - 1`; every other line gets its entry alone.
   */
  lemma {:induction false} CellPartSpec(g: seq<Line>, k: nat, algorithm: string, ctx: Context)
    requires k < |g|
    ensures k > 0 && g[k].lineNumber > g[k - 1].lineNumber + 1 ==>
      var a, b := g[k - 1].lineNumber, g[k].lineNumber;
      |Placeholders(a, b)| == b - a - 1 &&
      CellPart(g, k, algorithm, ctx) == Concat(Placeholders(a, b)) + LineEntry(g[k], algorithm, ctx)
    ensures k == 0 || g[k].lineNumber <= g[k - 1].lineNumber + 1 ==>
      CellPart(g, k, algorithm, ctx) == LineEntry(g[k], algorithm, ctx)
  {
    if k > 0 {
      GapSpec(g[k - 1].lineNumber, g[k].lineNumber);
    }
  }

  function CellParts(g: seq<Line>, algorithm: string, ctx: Context): (r: seq<string>)
    ensures |r| == |g|
    ensures forall k :: 0 <= k < |g| ==> r[k] == CellPart(g, k, algorithm, ctx)
  {
    seq(|g|, k requires 0 <= k < |g| => CellPart(g, k, algorithm, ctx))
  }

  /** One algorithm's cell: the parts joined with `<br>` (lines 227-239). */
  function BlockCell(g: seq<Line>, algorithm: string, ctx: Context): string
  {
    Join(CellParts(g, algorithm, ctx), "<br>")
  }

  /** One part of a cell, built as in lines 200-224: the placeholders for the skipped numbers, then the entry. */
  method CellPartText(g: seq<Line>, k: nat, algorithm: string, ctx: Context) returns (part: string)
    requires k < |g|
    ensures part == CellPart(g, k, algorithm, ctx)
  {
    part := "";
    if k != 0 && g[k].lineNumber > g[k - 1].lineNumber + 1 {
      part := GapText(g[k - 1].lineNumber, g[k].lineNumber);
    }
    part := part + LineEntry(g[k], algorithm, ctx);
  }

  /** The `forEach` of lines 229-238 joining the parts. */
  method BlockCellText(g: seq<Line>, algorithm: string, ctx: Context) returns (r: string)
    ensures r == BlockCell(g, algorithm, ctx)
  {
    ghost var parts := CellParts(g, algorithm, ctx);
    r := "";
    var k := 0;
    while k < |g|
      invariant 0 <= k <= |g|
      invariant r == Join(parts[..k], "<br>")
    {
      var part := CellPartText(g, k, algorithm, ctx);
      JoinStep(parts, k, "<br>");
      if k != 0 {
        r := r + "<br>";
      }
      r := r + part;
      k := k + 1;
    }
    assert parts[..k] == parts;
  }

  /** The cells of a group, one per algorithm of the ranking (lines 198-240). */
  function BlockCells(g: seq<Line>, ranking: seq<string>, ctx: Context): (r: seq<string>)
    ensures |r| == |ranking|
    ensures forall i :: 0 <= i < |ranking| ==> r[i] == BlockCell(g, ranking[i], ctx)
  {
    seq(|ranking|, i requires 0 <= i < |ranking| => BlockCell(g, ranking[i], ctx))
  }

  /** The anchor `#L<first>`, with `-L<last>` for a group of more than one line (lines 193-195). */
  function Anchor(g: seq<Line>): string
    requires |g| > 0
  {
    "#L" + NatToString(g[0].lineNumber) + (if |g| > 1 then "-L" + NatToString(Last(g).lineNumber) else "")
  }

  /** The location of a group (lines 189-195): a link when the path is a non-empty string, else `file$method`. */
  function BlockLocation(g: seq<Line>, ctx: Context): (r: string)
    requires |g| > 0
    ensures EndsWith(r, "#L" + NatToString(g[0].lineNumber)) <==> |g| == 1
    ensures |g| > 1 ==> EndsWith(r, "#L" + NatToString(g[0].lineNumber) + "-L" + NatToString(Last(g).lineNumber))
    ensures var file := g[0].enclosing.file;
      file.path.Some? && |file.path.value| > 0 ==> StartsWith(r, Table.BlobUrl(ctx, file.path.value))
    ensures var file := g[0].enclosing.file;
      !(file.path.Some? && |file.path.value| > 0) ==> StartsWith(r, file.name + "$" + g[0].enclosing.name)
  {
    var file := g[0].enclosing.file;
    var base := if file.path.Some? && |file.path.value| > 0 then Table.BlobUrl(ctx, file.path.value)
      else file.name + "$" + g[0].enclosing.name;
    AnchorFacts(base, g);
    base + Anchor(g)
  }

  lemma {:induction false} AnchorFacts(base: string, g: seq<Line>)
    requires |g| > 0
    ensures StartsWith(base + Anchor(g), base)
    ensures EndsWith(base + Anchor(g), "#L" + NatToString(g[0].lineNumber)) <==> |g| == 1
    ensures |g| > 1 ==> EndsWith(base + Anchor(g), "#L" + NatToString(g[0].lineNumber) + "-L" + NatToString(Last(g).lineNumber))
  {
    var first := "#L" + NatToString(g[0].lineNumber);
    var r := base + Anchor(g);
    assert r[..|base|] == base;
    if |g| > 1 {
      var tail := "-L" + NatToString(Last(g).lineNumber);
      assert r == base + first + tail;
      assert r[|r| - |first + tail|..] == first + tail;
      assert r[|r| - |tail|..] == tail;
      AnchorsDiffer(r, g[0].lineNumber, Last(g).lineNumber);
    } else {
      assert r[|r| - |first|..] == first;
    }
  }

  /** Text ending in `-L<last>` never ends in `#L<first>`: the two anchors cannot be confused. */
  lemma {:induction false} AnchorsDiffer(r: string, first: nat, last: nat)
    requires EndsWith(r, "-L" + NatToString(last))
    ensures !EndsWith(r, "#L" + NatToString(first))
  {
    var f, l := "#L" + NatToString(first), "-L" + NatToString(last);
    NatToStringDigits(first);
    NatToStringDigits(last);
    assert r[|r| - |l|..] == l;
    if |f| <= |r| {
      var tail := r[|r| - |f|..];
      if |f| <= |l| {
        var i := |l| - |f|;
        assert tail[0] == l[i];
        assert i == 0 || i == 1 || '0' <= l[i] <= '9';
        assert tail[0] != f[0];
      } else {
        var i := |f| - |l|;
        assert tail[i] == l[0];
        assert i == 1 || '0' <= f[i] <= '9';
        assert tail[i] != f[i];
      }
    }
  }

  /** One group's row (line 243). */
  function BlockRow(g: seq<Line>, ranking: seq<string>, ctx: Context): string
    requires |g| > 0
  {
    Table.Row(BlockLocation(g, ctx), BlockCells(g, ranking, ctx))
  }

  function BlockRows(groups: seq<seq<Line>>, ranking: seq<string>, ctx: Context): string
    requires Grouping.NonEmptyGroups(groups)
  {
    if |groups| == 0 then ""
    else BlockRows(groups[..|groups| - 1], ranking, ctx) + BlockRow(Last(groups), ranking, ctx)
  }

  lemma {:induction false} BlockRowsStep(groups: seq<seq<Line>>, ranking: seq<string>, ctx: Context, i: nat)
    requires Grouping.NonEmptyGroups(groups) && i < |groups|
    ensures Grouping.NonEmptyGroups(groups[..i]) && Grouping.NonEmptyGroups(groups[..i + 1])
    ensures BlockRows(groups[..i + 1], ranking, ctx) == BlockRows(groups[..i], ranking, ctx) + BlockRow(groups[i], ranking, ctx)
  {
    assert groups[..i + 1][..i] == groups[..i];
  }

  const BlockTitle: string := "Lines Code Block Suspiciousness by Algorithm"

  /** The table for sorted groups and an already normalised ranking; nothing at all without groups. */
  function BlockBody(groups: seq<seq<Line>>, ranking: seq<string>, ctx: Context): (r: string)
    requires Grouping.NonEmptyGroups(groups)
    ensures |groups| == 0 <==> r == ""
  {
    if |groups| == 0 then "" else Table.Header(BlockTitle, ranking) + BlockRows(groups, ranking, ctx)
  }

  /** The cells of one group: for each algorithm, its cell (lines 198-240). */
  method BlockCellsText(g: seq<Line>, names: seq<string>, ctx: Context) returns (cells: seq<string>)
    ensures cells == BlockCells(g, names, ctx)
  {
    cells := [];
    for i := 0 to |names|
      invariant cells == BlockCells(g, names[..i], ctx)
    {
      var cell := BlockCellText(g, names[i], ctx);
      cells := cells + [cell];
    }
    assert names[..|names|] == names;
  }

  /** The header and the `forEach` over the groups appending one row each (lines 173-245). */
  method BlockTableText(groups: seq<seq<Line>>, names: seq<string>, ctx: Context) returns (body: string)
    requires Grouping.NonEmptyGroups(groups)
    ensures body == BlockBody(groups, names, ctx)
  {
    body := "";
    if |groups| > 0 {
      body := Table.HeaderText(BlockTitle, names);
      var i := 0;
      while i < |groups|
        invariant 0 <= i <= |groups|
        invariant Grouping.NonEmptyGroups(groups[..i])
        invariant body == Table.Header(BlockTitle, names) + BlockRows(groups[..i], names, ctx)
      {
        var g := groups[i];
        var cells := BlockCellsText(g, names, ctx);
        BlockRowsStep(groups, names, ctx, i);
        AppendAssoc(Table.Header(BlockTitle, names), BlockRows(groups[..i], names, ctx), BlockRow(g, names, ctx));
        body := body + Table.Row(BlockLocation(g, ctx), cells);
        i := i + 1;
      }
      assert groups[..i] == groups;
    }
  }

  /**
   * `getStringTableLineSuspiciousnessWithCodeBlock`: normalise the ranking in place (lines
   * 99-107), group the lines (109-140), sort the groups (143-171) and render them (173-245).
   */
  method RenderBlockTable(lines: seq<Line>, ranking: array<string>, order: string, ctx: Context)
    returns (body: string, built: seq<seq<Line>>, groups: seq<seq<Line>>)
    modifies ranking
    ensures ranking[..] == Ranking.Normalized(old(ranking[..]), order)
    ensures Grouping.AllWellFormed(built) && Grouping.Separated(built)
    ensures forall m :: Grouping.CoversMethod(built, lines, m)
    ensures forall m :: Grouping.GroupsOf(built, m) == Grouping.Runs(Grouping.Flatten(Grouping.GroupsOf(built, m)))
    ensures multiset(groups) == multiset(built) && Grouping.NonEmptyGroups(groups)
    ensures forall p, q :: 0 <= p < q < |groups| ==> Grouping.GroupMax(groups[p], order) >= Grouping.GroupMax(groups[q], order)
    ensures body == BlockBody(groups, ranking[..], ctx)
  {
    Ranking.NormalizeRanking(ranking, order);
    built := Grouping.BuildGroups(lines);
    groups := Grouping.SortGroups(built, order);
    body := BlockTableText(groups, ranking[..], ctx);
  }
}
