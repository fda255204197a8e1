/**
 * The body-building part of `createCommitPRCommentLineSuspiciousnessThreshold`
 * (src/githubActionsHelper.ts, lines 18-80): select the lines, sort them by the order algorithm,
 * and assemble either the "no bug" banner or the warning banner with the two collapsed tables.
 * The body is the value handed to the comment sink (line 82), which is not part of this model.
 */
module Report {
  import opened Types
  import Sorting
  import Selection
  import Ranking
  import Grouping
  import FlatTable
  import BlockTable

  const NoBugBanner: string := "✅" + " **GZoltar didn't find any possible bug in your code** \U{1F64C}"
  const BugsBanner: string := "⚠" + "️ **GZoltar found possible bugs** ⚠️"
  const FlatDetails: string := "<details>\n<summary>Line Suspiciousness by Algorithm</summary>\n\n"
  const BlockDetails: string := "<details>\n<summary>Lines Code Block Suspiciousness by Algorithm</summary>\n\n"
  const SectionEnd: string := "</details>\n"
  const Trailer: string := "\n\n"

  /** The body when nothing was selected (lines 55-56 and 80). */
  const NoBugBody: string := NoBugBanner + Trailer

  /** The body when lines were selected (lines 58-80), from the sorted lines, the normalised ranking and the sorted groups. */
  function FoundBody(lines: seq<Line>, names: seq<string>, groups: seq<seq<Line>>, tests: seq<TestCase>, ctx: Context): string
    requires Grouping.NonEmptyGroups(groups)
  {
    BugsBanner + FlatDetails + FlatTable.FlatBody(lines, names, tests, ctx) + SectionEnd
      + BlockDetails + BlockTable.BlockBody(groups, names, ctx) + SectionEnd + Trailer
  }

  /** The two outcomes are told apart by their first character: a body is never both. */
  lemma {:induction false} FoundBodyDiffers(lines: seq<Line>, names: seq<string>, groups: seq<seq<Line>>, tests: seq<TestCase>, ctx: Context)
    requires Grouping.NonEmptyGroups(groups)
    ensures FoundBody(lines, names, groups, tests, ctx)[0] == BugsBanner[0] != NoBugBody[0]
  {
  }

  /** Nothing is selected exactly when no parsed line reaches the threshold of any algorithm of the ranking. */
  lemma {:induction false} NothingSelectedIff(ranking: seq<string>, thresholds: seq<real>, parsed: seq<Line>)
    ensures |Selection.Selected(ranking, thresholds, parsed)| == 0 <==>
      forall x :: x in parsed ==> !Selection.Qualifies(x, ranking, thresholds)
  {
    var selected := Selection.Selected(ranking, thresholds, parsed);
    Selection.SelectedSound(ranking, thresholds, parsed, |ranking|);
    Selection.SelectedComplete(ranking, thresholds, parsed, |ranking|);
    if |selected| > 0 {
      assert selected[0] in selected;
    }
    forall x | x in parsed && Selection.Qualifies(x, ranking, thresholds) ensures |selected| > 0 {
      var i :| 0 <= i < |ranking| && Selection.Meets(x, ranking[i], Selection.ThresholdAt(thresholds, i));
      assert Selection.HasLineNumber(selected, x.lineNumber);
    }
  }

  /**
   * Lines 18-80: select on the ranking as given, sort the selected lines in place by the order
   * algorithm, and assemble the body; the two renderers normalise the ranking in place, the second
   * time without effect.
   */
  method BuildBody(ranking: array<string>, thresholds: seq<real>, order: string, parsed: seq<Line>,
                   tests: seq<TestCase>, ctx: Context)
    returns (body: string, lines: seq<Line>, built: seq<seq<Line>>, groups: seq<seq<Line>>)
    modifies ranking
    ensures multiset(lines) == multiset(Selection.Selected(old(ranking[..]), thresholds, parsed))
    ensures Sorting.AllKeyed(lines, Selection.OrderKey(order)) ==> Sorting.Descending(lines, Selection.OrderKey(order))
    ensures |lines| == 0 <==> forall x :: x in parsed ==> !Selection.Qualifies(x, old(ranking[..]), thresholds)
    ensures |lines| == 0 ==> body == NoBugBody && ranking[..] == old(ranking[..])
    ensures |lines| > 0 ==> ranking[..] == Ranking.Normalized(old(ranking[..]), order)
    ensures |lines| == 0 ==> built == [] && groups == []
    ensures Grouping.AllWellFormed(built) && Grouping.Separated(built)
    ensures forall m :: Grouping.CoversMethod(built, lines, m)
    ensures multiset(groups) == multiset(built) && Grouping.NonEmptyGroups(groups)
    ensures forall p, q :: 0 <= p < q < |groups| ==> Grouping.GroupMax(groups[p], order) >= Grouping.GroupMax(groups[q], order)
    ensures |lines| > 0 ==> body == FoundBody(lines, ranking[..], groups, tests, ctx)
    ensures |lines| > 0 ==> body != NoBugBody
  {
    var names := ranking[..];
    var selected := Selection.SelectLines(names, thresholds, parsed);
    NothingSelectedIff(names, thresholds, parsed);
    var a := Sorting.ToArray(selected);
    Sorting.SortDescending(a, Selection.OrderKey(order));
    lines := a[..];
    if Sorting.AllKeyed(lines, Selection.OrderKey(order)) {
      Sorting.InMultiset(selected, lines, Selection.OrderKey(order), true);
    }
    built, groups := [], [];
    if |lines| == 0 {
      body := NoBugBanner;
    } else {
      body := BugsBanner;
      body := body + FlatDetails;
      var flat := FlatTable.RenderFlatTable(lines, ranking, order, tests, ctx);
      body := body + flat;
      body := body + SectionEnd;
      body := body + BlockDetails;
      ghost var normalized := ranking[..];
      var block;
      block, built, groups := BlockTable.RenderBlockTable(lines, ranking, order, ctx);
      Ranking.NormalizedIdempotent(names, order);
      assert ranking[..] == normalized;
      assert flat == FlatTable.FlatBody(lines, ranking[..], tests, ctx);
      body := body + block;
      body := body + SectionEnd;
    }
    body := body + Trailer;
    if |lines| > 0 {
      FoundBodyDiffers(lines, ranking[..], groups, tests, ctx);
    }
  }
}
