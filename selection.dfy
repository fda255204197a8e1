/**
 * Line selection (src/githubActionsHelper.ts, lines 19-34): for every algorithm of the ranking, in
 * order, every parsed line that the algorithm scores at or above its threshold is pushed, unless a
 * line with the same line number was pushed before.
 */
module Selection {
  import opened Types

  /** `sflThreshold[index]`; past the end it is `undefined`, and `value >= undefined` is false. */
  function ThresholdAt(thresholds: seq<real>, i: nat): Option<real>
  {
    if i < |thresholds| then Some(thresholds[i]) else None
  }

  /** Some metric of `algorithm` reaches the threshold (the `some` of lines 23-27). */
  predicate Meets(line: Line, algorithm: string, threshold: Option<real>)
  {
    threshold.Some? && exists m :: m in line.metrics && m.algorithm == algorithm && m.value >= threshold.value
  }

  /** Some algorithm of the ranking flags the line at or above its own threshold. */
  predicate Qualifies(line: Line, ranking: seq<string>, thresholds: seq<real>)
  {
    exists i :: 0 <= i < |ranking| && Meets(line, ranking[i], ThresholdAt(thresholds, i))
  }

  predicate HasLineNumber(lines: seq<Line>, n: nat)
  {
    exists l :: l in lines && l.lineNumber == n
  }

  predicate DistinctLineNumbers(lines: seq<Line>)
  {
    forall p, q :: 0 <= p < q < |lines| ==> lines[p].lineNumber != lines[q].lineNumber
  }

  /** The push of line 31, guarded by the duplicate test of line 30 (by line number, not identity). */
  function Keep(lines: seq<Line>, line: Line): seq<Line>
  {
    if HasLineNumber(lines, line.lineNumber) then lines else lines + [line]
  }

  /** One algorithm's pass over the parsed lines, starting from the lines kept so far. */
  function Pass(kept: seq<Line>, parsed: seq<Line>, algorithm: string, threshold: Option<real>): seq<Line>
  {
    if |parsed| == 0 then kept
    else
      var before := Pass(kept, parsed[..|parsed| - 1], algorithm, threshold);
      if Meets(Last(parsed), algorithm, threshold) then Keep(before, Last(parsed)) else before
  }

  /** The lines kept after the passes of the first `i` algorithms. */
  function SelectedUpTo(ranking: seq<string>, thresholds: seq<real>, parsed: seq<Line>, i: nat): seq<Line>
    requires i <= |ranking|
  {
    if i == 0 then []
    else Pass(SelectedUpTo(ranking, thresholds, parsed, i - 1), parsed, ranking[i - 1], ThresholdAt(thresholds, i - 1))
  }

  function Selected(ranking: seq<string>, thresholds: seq<real>, parsed: seq<Line>): seq<Line>
  {
    SelectedUpTo(ranking, thresholds, parsed, |ranking|)
  }

  /** A pass only appends, and what it appends is a parsed line that meets the threshold. */
  lemma {:induction false} PassExtends(kept: seq<Line>, parsed: seq<Line>, algorithm: string, threshold: Option<real>)
    ensures var r := Pass(kept, parsed, algorithm, threshold);
      |kept| <= |r| && r[..|kept|] == kept &&
      forall l :: l in r ==> l in kept || (l in parsed && Meets(l, algorithm, threshold))
  {
    if |parsed| > 0 {
      var init := parsed[..|parsed| - 1];
      PassExtends(kept, init, algorithm, threshold);
      var before := Pass(kept, init, algorithm, threshold);
      assert (before + [Last(parsed)])[..|kept|] == before[..|kept|];
      forall l | l in init ensures l in parsed {
        assert l in parsed[..|parsed| - 1];
      }
    }
  }

  /** After a pass, every parsed line that meets the threshold has its line number among the kept lines. */
  lemma {:induction false} PassComplete(kept: seq<Line>, parsed: seq<Line>, algorithm: string, threshold: Option<real>)
    ensures forall x :: x in parsed && Meets(x, algorithm, threshold) ==>
      HasLineNumber(Pass(kept, parsed, algorithm, threshold), x.lineNumber)
  {
    if |parsed| > 0 {
      var init := parsed[..|parsed| - 1];
      PassComplete(kept, init, algorithm, threshold);
      var before := Pass(kept, init, algorithm, threshold);
      var r := Pass(kept, parsed, algorithm, threshold);
      forall x | x in parsed && Meets(x, algorithm, threshold) ensures HasLineNumber(r, x.lineNumber) {
        if x == Last(parsed) {
          if !HasLineNumber(before, x.lineNumber) {
            assert x in r;
          }
        } else {
          assert parsed == init + [Last(parsed)];
          assert x in init;
          var l :| l in before && l.lineNumber == x.lineNumber;
          assert l in r;
        }
      }
    }
  }

  /** A pass never keeps two lines with one line number. */
  lemma {:induction false} PassDistinct(kept: seq<Line>, parsed: seq<Line>, algorithm: string, threshold: Option<real>)
    requires DistinctLineNumbers(kept)
    ensures DistinctLineNumbers(Pass(kept, parsed, algorithm, threshold))
  {
    if |parsed| > 0 {
      PassDistinct(kept, parsed[..|parsed| - 1], algorithm, threshold);
    }
  }

  /** Every selected line is a parsed line that some algorithm flags at or above its threshold. */
  lemma {:induction false} SelectedSound(ranking: seq<string>, thresholds: seq<real>, parsed: seq<Line>, i: nat)
    requires i <= |ranking|
    ensures forall l :: l in SelectedUpTo(ranking, thresholds, parsed, i) ==>
      l in parsed && exists k :: 0 <= k < i && Meets(l, ranking[k], ThresholdAt(thresholds, k))
  {
    if i > 0 {
      SelectedSound(ranking, thresholds, parsed, i - 1);
      PassExtends(SelectedUpTo(ranking, thresholds, parsed, i - 1), parsed, ranking[i - 1], ThresholdAt(thresholds, i - 1));
    }
  }

  /**
   * Every parsed line that some algorithm flags is selected, or an earlier selected line has its
   * line number.
   */
  lemma {:induction false} SelectedComplete(ranking: seq<string>, thresholds: seq<real>, parsed: seq<Line>, i: nat)
    requires i <= |ranking|
    ensures forall x, k :: x in parsed && 0 <= k < i && Meets(x, ranking[k], ThresholdAt(thresholds, k)) ==>
      HasLineNumber(SelectedUpTo(ranking, thresholds, parsed, i), x.lineNumber)
  {
    if i > 0 {
      var before := SelectedUpTo(ranking, thresholds, parsed, i - 1);
      var r := SelectedUpTo(ranking, thresholds, parsed, i);
      SelectedComplete(ranking, thresholds, parsed, i - 1);
      PassExtends(before, parsed, ranking[i - 1], ThresholdAt(thresholds, i - 1));
      PassComplete(before, parsed, ranking[i - 1], ThresholdAt(thresholds, i - 1));
      forall x, k | x in parsed && 0 <= k < i && Meets(x, ranking[k], ThresholdAt(thresholds, k))
        ensures HasLineNumber(r, x.lineNumber)
      {
        if k < i - 1 {
          var l :| l in before && l.lineNumber == x.lineNumber;
          var p :| 0 <= p < |before| && before[p] == l;
          assert r[p] == l;
        }
      }
    }
  }

  lemma {:induction false} SelectedDistinct(ranking: seq<string>, thresholds: seq<real>, parsed: seq<Line>, i: nat)
    requires i <= |ranking|
    ensures DistinctLineNumbers(SelectedUpTo(ranking, thresholds, parsed, i))
  {
    if i > 0 {
      SelectedDistinct(ranking, thresholds, parsed, i - 1);
      PassDistinct(SelectedUpTo(ranking, thresholds, parsed, i - 1), parsed, ranking[i - 1], ThresholdAt(thresholds, i - 1));
    }
  }

  /** The nested `forEach` loops of lines 20-34, pushing into a local list. */
  method SelectLines(ranking: seq<string>, thresholds: seq<real>, parsed: seq<Line>) returns (lines: seq<Line>)
    ensures lines == Selected(ranking, thresholds, parsed)
    ensures forall l :: l in lines ==> l in parsed && Qualifies(l, ranking, thresholds)
    ensures forall x :: x in parsed && Qualifies(x, ranking, thresholds) ==> HasLineNumber(lines, x.lineNumber)
    ensures DistinctLineNumbers(lines)
  {
    lines := [];
    var i := 0;
    while i < |ranking|
      invariant 0 <= i <= |ranking|
      invariant lines == SelectedUpTo(ranking, thresholds, parsed, i)
    {
      var threshold := ThresholdAt(thresholds, i);
      ghost var start := lines;
      var j := 0;
      while j < |parsed|
        invariant 0 <= j <= |parsed|
        invariant lines == Pass(start, parsed[..j], ranking[i], threshold)
      {
        var line := parsed[j];
        assert parsed[..j + 1][..j] == parsed[..j];
        if Meets(line, ranking[i], threshold) && !HasLineNumber(lines, line.lineNumber) {
          lines := lines + [line];
        }
        j := j + 1;
      }
      assert parsed[..j] == parsed;
      i := i + 1;
    }
    SelectedSound(ranking, thresholds, parsed, |ranking|);
    SelectedComplete(ranking, thresholds, parsed, |ranking|);
    SelectedDistinct(ranking, thresholds, parsed, |ranking|);
  }

  /** The key of the sort of lines 36-53: the order algorithm's value, missing when the line has none. */
  function OrderKey(order: string): Line -> Option<real>
  {
    line => MetricOf(line, order)
  }
}
