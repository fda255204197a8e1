/**
 * Block grouping (src/githubActionsHelper.ts, lines 109-171): the selected lines are partitioned
 * by method (in first-seen order), each method's lines are sorted by line number and cut into runs
 * whose consecutive line numbers are at most five apart, and the runs of all methods are sorted by
 * their largest order-algorithm value, a missing value counting as 0.
 */
module Grouping {
  import opened Types
  import Sorting

  /** `lineSeparationThreshold` (line 111). */
  const LineSeparationThreshold: nat := 5

  function MethodId(line: Line): nat
  {
    line.enclosing.id
  }

  /** `[...new Set(lines.map(line => line.method))]`: each method once, in first-seen order. */
  function UniqueMethods(lines: seq<Line>): (r: seq<nat>)
    ensures forall p, q :: 0 <= p < q < |r| ==> r[p] != r[q]
    ensures forall m :: m in r <==> exists l :: l in lines && MethodId(l) == m
  {
    if |lines| == 0 then []
    else
      var before := UniqueMethods(lines[..|lines| - 1]);
      var m := MethodId(Last(lines));
      assert forall l :: l in lines <==> l in lines[..|lines| - 1] || l == Last(lines);
      if m in before then before else before + [m]
  }

  /** `lines.filter(line => line.method === method)`. */
  function LinesOfMethod(lines: seq<Line>, m: nat): (r: seq<Line>)
    ensures forall l :: l in r <==> l in lines && MethodId(l) == m
  {
    if |lines| == 0 then []
    else
      var before := LinesOfMethod(lines[..|lines| - 1], m);
      assert forall l :: l in lines <==> l in lines[..|lines| - 1] || l == Last(lines);
      if MethodId(Last(lines)) == m then before + [Last(lines)] else before
  }

  predicate Ascending(s: seq<Line>)
  {
    forall p, q :: 0 <= p < q < |s| ==> s[p].lineNumber <= s[q].lineNumber
  }

  predicate SameMethod(g: seq<Line>)
  {
    forall k :: 0 <= k < |g| ==> MethodId(g[k]) == MethodId(g[0])
  }

  /** Consecutive members are at most `LineSeparationThreshold` apart. */
  predicate Close(g: seq<Line>)
  {
    forall k :: 0 <= k < |g| - 1 ==> g[k + 1].lineNumber - g[k].lineNumber <= LineSeparationThreshold
  }

  /** Consecutive groups of one method are more than `LineSeparationThreshold` apart. */
  predicate Separated(groups: seq<seq<Line>>)
  {
    forall k ::
      0 <= k < |groups| - 1 && |groups[k]| > 0 && |groups[k + 1]| > 0 && MethodId(groups[k][0]) == MethodId(groups[k + 1][0])
      ==> groups[k + 1][0].lineNumber - Last(groups[k]).lineNumber > LineSeparationThreshold
  }

  predicate NonEmptyGroups(groups: seq<seq<Line>>)
  {
    forall k :: 0 <= k < |groups| ==> |groups[k]| > 0
  }

  function Flatten(groups: seq<seq<Line>>): seq<Line>
  {
    if |groups| == 0 then [] else groups[0] + Flatten(groups[1..])
  }

  lemma {:induction false} FlattenAppend(a: seq<seq<Line>>, b: seq<seq<Line>>)
    ensures Flatten(a + b) == Flatten(a) + Flatten(b)
  {
    if |a| == 0 {
      assert a + b == b;
    } else {
      assert (a + b)[1..] == a[1..] + b;
      FlattenAppend(a[1..], b);
    }
  }

  /**
   * The runs that the accumulator loop of lines 122-139 cuts a method's sorted lines into: a line
   * joins the current run when it is at most five after the run's last line, and starts a new
   * run otherwise.
   */
  function Runs(s: seq<Line>): (r: seq<seq<Line>>)
    ensures |r| > 0 <==> |s| > 0
    ensures NonEmptyGroups(r)
  {
    if |s| == 0 then [] else Extend(Runs(s[..|s| - 1]), Last(s))
  }

  /** One step of the loop: `x` joins the last run, or starts a new one. */
  function Extend(prev: seq<seq<Line>>, x: Line): (r: seq<seq<Line>>)
    requires NonEmptyGroups(prev)
    ensures |r| > 0
    ensures NonEmptyGroups(r)
  {
    if |prev| > 0 && x.lineNumber - Last(Last(prev)).lineNumber <= LineSeparationThreshold
    then prev[..|prev| - 1] + [Last(prev) + [x]]
    else prev + [[x]]
  }

  lemma {:induction false} FlattenExtend(prev: seq<seq<Line>>, x: Line)
    requires NonEmptyGroups(prev)
    ensures Flatten(Extend(prev, x)) == Flatten(prev) + [x]
  {
    var r := Extend(prev, x);
    if |prev| > 0 && x.lineNumber - Last(Last(prev)).lineNumber <= LineSeparationThreshold {
      var front := prev[..|prev| - 1];
      assert prev == front + [Last(prev)];
      FlattenAppend(front, [Last(prev)]);
      FlattenAppend(front, [Last(prev) + [x]]);
      assert Flatten([Last(prev)]) == Last(prev) + [] && Flatten([Last(prev) + [x]]) == Last(prev) + [x] + [] by {
        assert [Last(prev)][1..] == [] && [Last(prev) + [x]][1..] == [];
      }
    } else {
      FlattenAppend(prev, [[x]]);
      assert Flatten([[x]]) == [x] + [] by {
        assert [[x]][1..] == [];
      }
    }
  }

  /** Concatenating the runs gives back the lines, in order. */
  lemma {:induction false} RunsFlatten(s: seq<Line>)
    ensures Flatten(Runs(s)) == s
  {
    if |s| > 0 {
      RunsFlatten(s[..|s| - 1]);
      FlattenExtend(Runs(s[..|s| - 1]), Last(s));
      assert s == s[..|s| - 1] + [Last(s)];
    }
  }

  /** Inside a run, consecutive lines are at most five apart. */
  lemma {:induction false} RunsClose(s: seq<Line>)
    ensures forall k :: 0 <= k < |Runs(s)| ==> Close(Runs(s)[k])
  {
    if |s| > 0 {
      RunsClose(s[..|s| - 1]);
    }
  }

  /** Between one run and the next, the gap is more than five. */
  lemma {:induction false} RunsSeparated(s: seq<Line>)
    ensures forall k :: 0 <= k < |Runs(s)| - 1 ==>
      Runs(s)[k + 1][0].lineNumber - Last(Runs(s)[k]).lineNumber > LineSeparationThreshold
  {
    if |s| > 0 {
      var prev, x := Runs(s[..|s| - 1]), Last(s);
      RunsSeparated(s[..|s| - 1]);
      var r: seq<seq<Line>> := Runs(s);
      if |prev| > 0 && x.lineNumber - Last(Last(prev)).lineNumber <= LineSeparationThreshold {
        forall k | 0 <= k < |r| - 1
          ensures r[k + 1][0].lineNumber - Last(r[k]).lineNumber > LineSeparationThreshold
        {
          assert r[k] == prev[k];
          assert r[k + 1][0] == prev[k + 1][0];
        }
      }
    }
  }

  /** The last line of the last run is the last line. */
  lemma {:induction false} RunsLast(s: seq<Line>)
    requires |s| > 0
    ensures Last(Last(Runs(s))) == Last(s)
  {
  }

  /** Runs of ascending lines are ascending. */
  lemma {:induction false} RunsAscending(s: seq<Line>)
    requires Ascending(s)
    ensures forall k :: 0 <= k < |Runs(s)| ==> Ascending(Runs(s)[k])
  {
    if |s| > 0 {
      var init, x := s[..|s| - 1], Last(s);
      RunsAscending(init);
      var prev := Runs(init);
      if |prev| > 0 {
        RunsLast(init);
        var g := Last(prev);
        assert Ascending(g);
        assert Last(g).lineNumber <= x.lineNumber;
        assert Ascending(g + [x]) by {
          forall p, q | 0 <= p < q < |g| + 1 ensures (g + [x])[p].lineNumber <= (g + [x])[q].lineNumber {
            if q == |g| {
              assert g[p].lineNumber <= Last(g).lineNumber;
            }
          }
        }
      }
    }
  }

  /** Runs of lines of one method hold lines of that method only. */
  lemma {:induction false} RunsSameMethod(s: seq<Line>, m: nat)
    requires forall k :: 0 <= k < |s| ==> MethodId(s[k]) == m
    ensures forall k, j :: 0 <= k < |Runs(s)| && 0 <= j < |Runs(s)[k]| ==> MethodId(Runs(s)[k][j]) == m
  {
    if |s| > 0 {
      RunsSameMethod(s[..|s| - 1], m);
    }
  }

  /** One turn of the loop of lines 123-136: the line joins the current run or closes it and starts the next. */
  lemma {:induction false} RunsStep(sorted: seq<Line>, i: nat, runs: seq<seq<Line>>, current: seq<Line>)
    requires i < |sorted|
    requires i == 0 ==> runs == [] && current == []
    requires i > 0 ==> |current| > 0 && runs + [current] == Runs(sorted[..i])
    ensures |current| == 0 || sorted[i].lineNumber - Last(current).lineNumber <= LineSeparationThreshold ==>
      runs + [current + [sorted[i]]] == Runs(sorted[..i + 1])
    ensures |current| > 0 && sorted[i].lineNumber - Last(current).lineNumber > LineSeparationThreshold ==>
      (runs + [current]) + [[sorted[i]]] == Runs(sorted[..i + 1])
  {
    var line := sorted[i];
    assert sorted[..i + 1][..i] == sorted[..i];
    var prev := Runs(sorted[..i]);
    assert Runs(sorted[..i + 1]) == Extend(prev, line);
    if i > 0 {
      assert prev[..|prev| - 1] == runs && Last(prev) == current;
    } else {
      assert current + [line] == [line];
    }
  }

  /** The loop of lines 122-139 over one method's sorted lines, with the accumulator `current`. */
  method SplitRuns(sorted: seq<Line>) returns (runs: seq<seq<Line>>)
    ensures runs == Runs(sorted)
  {
    runs := [];
    var current: seq<Line> := [];
    var i := 0;
    while i < |sorted|
      invariant 0 <= i <= |sorted|
      invariant i == 0 ==> runs == [] && current == []
      invariant i > 0 ==> |current| > 0 && runs + [current] == Runs(sorted[..i])
    {
      var line := sorted[i];
      RunsStep(sorted, i, runs, current);
      if |current| == 0 || line.lineNumber - current[|current| - 1].lineNumber <= LineSeparationThreshold {
        current := current + [line];
      } else {
        runs := runs + [current];
        current := [line];
      }
      i := i + 1;
    }
    assert sorted[..i] == sorted;
    if |current| > 0 {
      runs := runs + [current];
    }
  }

  /** The comparator `(a, b) => a.lineNumber - b.lineNumber` as a key for the descending sort. */
  function LineNumberKey(): Line -> Option<real>
  {
    (line: Line) => Some(-(line.lineNumber as real))
  }

  /** The groups whose first line belongs to method `m`. */
  function GroupsOf(groups: seq<seq<Line>>, m: nat): seq<seq<Line>>
  {
    if |groups| == 0 then []
    else
      var g := Last(groups);
      GroupsOf(groups[..|groups| - 1], m) + (if |g| > 0 && MethodId(g[0]) == m then [g] else [])
  }

  lemma {:induction false} GroupsOfAppend(a: seq<seq<Line>>, b: seq<seq<Line>>, m: nat)
    ensures GroupsOf(a + b, m) == GroupsOf(a, m) + GroupsOf(b, m)
    decreases |b|
  {
    if |b| == 0 {
      assert a + b == a;
    } else {
      assert (a + b)[..|a + b| - 1] == a + b[..|b| - 1];
      GroupsOfAppend(a, b[..|b| - 1], m);
    }
  }

  lemma {:induction false} GroupsOfUniform(gs: seq<seq<Line>>, owner: nat, m: nat)
    requires forall k :: 0 <= k < |gs| ==> |gs[k]| > 0 && MethodId(gs[k][0]) == owner
    ensures GroupsOf(gs, m) == if owner == m then gs else []
  {
    if |gs| > 0 {
      GroupsOfUniform(gs[..|gs| - 1], owner, m);
      assert gs == gs[..|gs| - 1] + [Last(gs)];
    }
  }

  /** Every group is a non-empty run of one method: ascending, and consecutive lines at most five apart. */
  predicate WellFormedGroup(g: seq<Line>)
  {
    |g| > 0 && SameMethod(g) && Ascending(g) && Close(g)
  }

  predicate AllWellFormed(groups: seq<seq<Line>>)
  {
    forall k :: 0 <= k < |groups| ==> WellFormedGroup(groups[k])
  }

  /**
   * The groups of method `m`, concatenated, are `m`'s lines sorted by line number, and each of them
   * is more than `LineSeparationThreshold` after the one before it.
   */
  predicate CoversMethod(groups: seq<seq<Line>>, lines: seq<Line>, m: nat)
  {
    && Ascending(Flatten(GroupsOf(groups, m)))
    && multiset(Flatten(GroupsOf(groups, m))) == multiset(LinesOfMethod(lines, m))
    && Separated(GroupsOf(groups, m))
  }

  /** The methods in `done` are covered, and no group belongs to any other method. */
  ghost predicate CoversExactly(groups: seq<seq<Line>>, lines: seq<Line>, done: seq<nat>)
  {
    && (forall m :: m in done ==> CoversMethod(groups, lines, m))
    && (forall m :: m !in done ==> GroupsOf(groups, m) == [])
  }

  /** The runs of one method's sorted lines are well formed, separated, and all of that method. */
  lemma {:induction false} RunsOfMethod(sorted: seq<Line>, m: nat)
    requires Ascending(sorted)
    requires forall k :: 0 <= k < |sorted| ==> MethodId(sorted[k]) == m
    ensures AllWellFormed(Runs(sorted)) && Separated(Runs(sorted))
    ensures forall k :: 0 <= k < |Runs(sorted)| ==> MethodId(Runs(sorted)[k][0]) == m
    ensures Flatten(Runs(sorted)) == sorted
  {
    var r := Runs(sorted);
    RunsFlatten(sorted);
    RunsClose(sorted);
    RunsSeparated(sorted);
    RunsAscending(sorted);
    RunsSameMethod(sorted, m);
    forall k | 0 <= k < |r| ensures WellFormedGroup(r[k]) && MethodId(r[k][0]) == m {
      assert forall j :: 0 <= j < |r[k]| ==> MethodId(r[k][j]) == m;
    }
  }

  lemma {:induction false} SeparatedAppend(a: seq<seq<Line>>, b: seq<seq<Line>>)
    requires AllWellFormed(a) && AllWellFormed(b) && Separated(a) && Separated(b)
    requires |a| > 0 && |b| > 0 ==> MethodId(Last(a)[0]) != MethodId(b[0][0])
    ensures AllWellFormed(a + b) && Separated(a + b)
  {
    var c := a + b;
    forall k | 0 <= k < |c| ensures WellFormedGroup(c[k]) {
      if k < |a| {
        assert c[k] == a[k];
      } else {
        assert c[k] == b[k - |a|];
      }
    }
    forall k | 0 <= k < |c| - 1 && |c[k]| > 0 && |c[k + 1]| > 0 && MethodId(c[k][0]) == MethodId(c[k + 1][0])
      ensures c[k + 1][0].lineNumber - Last(c[k]).lineNumber > LineSeparationThreshold
    {
      if k < |a| - 1 {
        assert c[k] == a[k] && c[k + 1] == a[k + 1];
      } else if k >= |a| {
        assert c[k] == b[k - |a|] && c[k + 1] == b[k + 1 - |a|];
      }
    }
  }

  /** Appending one method's runs adds them to that method's groups and to no other method's. */
  lemma {:induction false} GroupsOfStep(groups: seq<seq<Line>>, m: nat, runs: seq<seq<Line>>, m': nat)
    requires forall k :: 0 <= k < |runs| ==> |runs[k]| > 0 && MethodId(runs[k][0]) == m
    ensures GroupsOf(groups + runs, m') == if m' == m then GroupsOf(groups, m') + runs else GroupsOf(groups, m')
  {
    GroupsOfAppend(groups, runs, m');
    GroupsOfUniform(runs, m, m');
    if m' != m {
      assert GroupsOf(groups, m') + [] == GroupsOf(groups, m');
    }
  }

  lemma {:induction false} CoversStep(groups: seq<seq<Line>>, lines: seq<Line>, done: seq<nat>, m: nat, runs: seq<seq<Line>>)
    requires CoversExactly(groups, lines, done) && m !in done
    requires forall k :: 0 <= k < |runs| ==> |runs[k]| > 0 && MethodId(runs[k][0]) == m
    requires Ascending(Flatten(runs)) && multiset(Flatten(runs)) == multiset(LinesOfMethod(lines, m))
    requires Separated(runs)
    ensures CoversExactly(groups + runs, lines, done + [m])
  {
    forall m' | m' in done + [m] ensures CoversMethod(groups + runs, lines, m') {
      if m' == m {
        CoversNew(groups, lines, m, runs);
      } else {
        GroupsOfStep(groups, m, runs, m');
      }
    }
    forall m' | m' !in done + [m] ensures GroupsOf(groups + runs, m') == [] {
      GroupsOfStep(groups, m, runs, m');
    }
  }

  /** A method with no groups yet is covered once its runs are appended. */
  lemma {:induction false} CoversNew(groups: seq<seq<Line>>, lines: seq<Line>, m: nat, runs: seq<seq<Line>>)
    requires GroupsOf(groups, m) == []
    requires forall k :: 0 <= k < |runs| ==> |runs[k]| > 0 && MethodId(runs[k][0]) == m
    requires Ascending(Flatten(runs)) && multiset(Flatten(runs)) == multiset(LinesOfMethod(lines, m))
    requires Separated(runs)
    ensures CoversMethod(groups + runs, lines, m)
  {
    GroupsOfStep(groups, m, runs, m);
    assert GroupsOf(groups + runs, m) == runs;
  }

  /**
   * The body of the `forEach` of lines 120-140 for one method: sort the method's lines by line
   * number (line 121) and cut them into runs.
   */
  method RunsOfOneMethod(lines: seq<Line>, m: nat) returns (runs: seq<seq<Line>>)
    ensures AllWellFormed(runs) && Separated(runs)
    ensures forall k :: 0 <= k < |runs| ==> MethodId(runs[k][0]) == m
    ensures Ascending(Flatten(runs)) && multiset(Flatten(runs)) == multiset(LinesOfMethod(lines, m))
    ensures (exists l :: l in lines && MethodId(l) == m) ==> |runs| > 0
  {
    var mine := LinesOfMethod(lines, m);
    var a := Sorting.ToArray(mine);
    Sorting.SortDescending(a, LineNumberKey());
    var sorted := a[..];
    SortedByLineNumber(mine, sorted);
    forall k | 0 <= k < |sorted| ensures MethodId(sorted[k]) == m {
      assert sorted[k] in multiset(mine);
    }
    runs := SplitRuns(sorted);
    RunsOfMethod(sorted, m);
    if exists l :: l in lines && MethodId(l) == m {
      var l :| l in lines && MethodId(l) == m;
      assert l in mine;
      assert l in multiset(sorted);
    }
  }

  /** Lines 109-140: partition by method, sort each method's lines, cut them into runs. */
  method BuildGroups(lines: seq<Line>) returns (groups: seq<seq<Line>>)
    ensures AllWellFormed(groups)
    ensures Separated(groups)
    ensures forall m :: CoversMethod(groups, lines, m)
    ensures forall m :: GroupsOf(groups, m) == Runs(Flatten(GroupsOf(groups, m)))
  {
    var methods := UniqueMethods(lines);
    groups := [];
    var j := 0;
    while j < |methods|
      invariant 0 <= j <= |methods|
      invariant AllWellFormed(groups) && Separated(groups)
      invariant j == 0 ==> groups == []
      invariant j > 0 ==> |groups| > 0 && MethodId(Last(groups)[0]) == methods[j - 1]
      invariant CoversExactly(groups, lines, methods[..j])
    {
      var m := methods[j];
      assert m in methods;
      var runs := RunsOfOneMethod(lines, m);
      if j > 0 {
        assert methods[j - 1] != m;
      }
      SeparatedAppend(groups, runs);
      assert m !in methods[..j];
      CoversStep(groups, lines, methods[..j], m, runs);
      assert methods[..j + 1] == methods[..j] + [m];
      groups := groups + runs;
      j := j + 1;
    }
    assert methods[..j] == methods;
    CoversAll(groups, lines);
    forall m ensures GroupsOf(groups, m) == Runs(Flatten(GroupsOf(groups, m))) {
      GroupsAreRuns(groups, lines, m);
    }
  }

  /** Once every method that has lines is covered, every method is: the others have no lines and no groups. */
  lemma {:induction false} CoversAll(groups: seq<seq<Line>>, lines: seq<Line>)
    requires CoversExactly(groups, lines, UniqueMethods(lines))
    ensures forall m :: CoversMethod(groups, lines, m)
  {
    var methods := UniqueMethods(lines);
    forall m ensures CoversMethod(groups, lines, m) {
      if m !in methods {
        forall k | 0 <= k < |lines| ensures MethodId(lines[k]) != m {
          assert lines[k] in lines;
        }
        NoLinesOfMethod(lines, m);
      }
    }
  }

  lemma {:induction false} NoLinesOfMethod(lines: seq<Line>, m: nat)
    requires forall k :: 0 <= k < |lines| ==> MethodId(lines[k]) != m
    ensures LinesOfMethod(lines, m) == []
  {
    if |lines| > 0 {
      NoLinesOfMethod(lines[..|lines| - 1], m);
    }
  }

  /** A close group more than five after the lines before it is one more run of their concatenation. */
  lemma {:induction false} RunsAppendGroup(s: seq<Line>, g: seq<Line>)
    requires |g| > 0 && Close(g)
    requires |s| > 0 ==> g[0].lineNumber - Last(s).lineNumber > LineSeparationThreshold
    ensures Runs(s + g) == Runs(s) + [g]
    decreases |g|
  {
    if |g| == 1 {
      RunsAppendOne(s, g[0]);
      assert [g[0]] == g;
    } else {
      var init, x := g[..|g| - 1], Last(g);
      SplitLast(g);
      forall k | 0 <= k < |init| - 1 ensures init[k + 1].lineNumber - init[k].lineNumber <= LineSeparationThreshold {
        assert init[k] == g[k] && init[k + 1] == g[k + 1];
      }
      assert Last(init) == g[|g| - 2];
      calc {
        Runs(s + g);
        { SnocAssoc(s, init, x); }
        Runs((s + init) + [x]);
        { RunsSnoc(s + init, x); }
        Extend(Runs(s + init), x);
        { RunsAppendGroup(s, init); }
        Extend(Runs(s) + [init], x);
        { JoinLast(Runs(s), init, x); }
        Runs(s) + [init + [x]];
      }
    }
  }

  /** A line more than five after the lines before it starts a run of its own. */
  lemma RunsAppendOne(s: seq<Line>, x: Line)
    requires |s| > 0 ==> x.lineNumber - Last(s).lineNumber > LineSeparationThreshold
    ensures Runs(s + [x]) == Runs(s) + [[x]]
  {
    RunsSnoc(s, x);
    if |s| > 0 {
      RunsLast(s);
    }
  }

  lemma SplitLast<T>(g: seq<T>)
    requires |g| > 0
    ensures g[..|g| - 1] + [g[|g| - 1]] == g
  {
  }

  lemma SnocAssoc<T>(a: seq<T>, b: seq<T>, x: T)
    ensures a + (b + [x]) == (a + b) + [x]
  {
  }

  /** One more line is one more step of the accumulator. */
  lemma RunsSnoc(s: seq<Line>, x: Line)
    ensures Runs(s + [x]) == Extend(Runs(s), x)
  {
    assert (s + [x])[..|s|] == s;
  }

  /** A line at most five after the last line of the last run joins that run. */
  lemma JoinLast(prev: seq<seq<Line>>, last: seq<Line>, x: Line)
    requires NonEmptyGroups(prev) && |last| > 0
    requires x.lineNumber - Last(last).lineNumber <= LineSeparationThreshold
    ensures Extend(prev + [last], x) == prev + [last + [x]]
  {
    var p := prev + [last];
    assert p[..|p| - 1] == prev;
  }

  /** One more group adds its lines at the end. */
  lemma FlattenSnoc(gs: seq<seq<Line>>, g: seq<Line>)
    ensures Flatten(gs + [g]) == Flatten(gs) + g
  {
    FlattenAppend(gs, [g]);
    assert Flatten([g]) == g + Flatten([]);
    assert g + [] == g;
  }

  /** Close groups of one method, each more than five after the one before, are the runs of their concatenation. */
  lemma {:induction false} SeparatedRuns(gs: seq<seq<Line>>, m: nat)
    requires forall k :: 0 <= k < |gs| ==> |gs[k]| > 0 && Close(gs[k]) && MethodId(gs[k][0]) == m
    requires Separated(gs)
    ensures Runs(Flatten(gs)) == gs
  {
    if |gs| > 0 {
      var init, g := gs[..|gs| - 1], Last(gs);
      assert Separated(init) by {
        forall k | 0 <= k < |init| - 1 && |init[k]| > 0 && |init[k + 1]| > 0 && MethodId(init[k][0]) == MethodId(init[k + 1][0])
          ensures init[k + 1][0].lineNumber - Last(init[k]).lineNumber > LineSeparationThreshold
        {
          assert init[k] == gs[k] && init[k + 1] == gs[k + 1];
        }
      }
      SeparatedRuns(init, m);
      assert gs == init + [g];
      FlattenSnoc(init, g);
      if |init| > 0 {
        var before, h := init[..|init| - 1], Last(init);
        assert init == before + [h];
        FlattenSnoc(before, h);
        assert h == gs[|gs| - 2];
      }
      RunsAppendGroup(Flatten(init), g);
    }
  }

  /** A method's groups are groups of the list, non-empty and starting with a line of that method. */
  lemma {:induction false} GroupsOfMembers(groups: seq<seq<Line>>, m: nat)
    ensures forall g :: g in GroupsOf(groups, m) ==> g in groups && |g| > 0 && MethodId(g[0]) == m
  {
    if |groups| > 0 {
      GroupsOfMembers(groups[..|groups| - 1], m);
      assert forall g :: g in groups[..|groups| - 1] ==> g in groups;
    }
  }

  /**
   * The grouping is fixed by the covering: a method's groups are exactly the runs that the loop of
   * lines 122-139 cuts its sorted lines into.
   */
  lemma {:induction false} GroupsAreRuns(groups: seq<seq<Line>>, lines: seq<Line>, m: nat)
    requires AllWellFormed(groups) && CoversMethod(groups, lines, m)
    ensures GroupsOf(groups, m) == Runs(Flatten(GroupsOf(groups, m)))
  {
    var gs := GroupsOf(groups, m);
    GroupsOfMembers(groups, m);
    forall k | 0 <= k < |gs| ensures |gs[k]| > 0 && Close(gs[k]) && MethodId(gs[k][0]) == m {
      assert gs[k] in gs;
      var j :| 0 <= j < |groups| && groups[j] == gs[k];
      assert WellFormedGroup(groups[j]);
    }
    SeparatedRuns(gs, m);
  }

  /** What the per-method sort promises, in terms of line numbers. */
  lemma {:induction false} SortedByLineNumber(mine: seq<Line>, sorted: seq<Line>)
    requires Sorting.AllKeyed(mine, LineNumberKey())
      ==> Sorting.AllKeyed(sorted, LineNumberKey()) && Sorting.Descending(sorted, LineNumberKey())
    ensures Ascending(sorted)
  {
    assert Sorting.AllKeyed(mine, LineNumberKey());
    forall p, q | 0 <= p < q < |sorted| ensures sorted[p].lineNumber <= sorted[q].lineNumber {
      assert LineNumberKey()(sorted[p]).value >= LineNumberKey()(sorted[q]).value;
    }
  }

  /** A line's order-algorithm value, a missing value counting as 0 (lines 146-154). */
  function ValueOr0(line: Line, order: string): real
  {
    match MetricOf(line, order)
    case Some(v) => v
    case None => 0.0
  }

  /** `.map(ValueOr0).reduce((a, b) => Math.max(a, b))` over a non-empty group. */
  function GroupMax(g: seq<Line>, order: string): real
    requires |g| > 0
  {
    if |g| == 1 then ValueOr0(g[0], order)
    else
      var m := GroupMax(g[..|g| - 1], order);
      var v := ValueOr0(Last(g), order);
      if m >= v then m else v
  }

  /** The group maximum bounds every line's value. */
  lemma {:induction false} GroupMaxBounds(g: seq<Line>, order: string)
    requires |g| > 0
    ensures forall k :: 0 <= k < |g| ==> ValueOr0(g[k], order) <= GroupMax(g, order)
  {
    if |g| > 1 {
      var init, last := g[..|g| - 1], |g| - 1;
      var mi, v := GroupMax(init, order), ValueOr0(g[last], order);
      GroupMaxBounds(init, order);
      assert GroupMax(g, order) == if mi >= v then mi else v;
      forall k | 0 <= k < |g| ensures ValueOr0(g[k], order) <= GroupMax(g, order) {
        if k < last {
          assert g[k] == init[k];
          assert ValueOr0(init[k], order) <= mi;
        } else {
          assert k == last;
        }
      }
    } else {
      assert GroupMax(g, order) == ValueOr0(g[0], order);
    }
  }

  /** The group maximum is the value of one of the lines. */
  lemma {:induction false} GroupMaxAttained(g: seq<Line>, order: string)
    requires |g| > 0
    ensures exists k :: 0 <= k < |g| && ValueOr0(g[k], order) == GroupMax(g, order)
  {
    if |g| > 1 {
      var init, last := g[..|g| - 1], |g| - 1;
      var mi, v := GroupMax(init, order), ValueOr0(g[last], order);
      GroupMaxAttained(init, order);
      if mi >= v {
        var k :| 0 <= k < |init| && ValueOr0(init[k], order) == mi;
        assert g[k] == init[k];
        assert ValueOr0(g[k], order) == GroupMax(g, order);
      } else {
        assert ValueOr0(g[last], order) == GroupMax(g, order);
      }
    } else {
      assert ValueOr0(g[0], order) == GroupMax(g, order);
    }
  }

  /** The comparator of lines 143-171 as a key; groups are never empty, so the key is always present. */
  function GroupKey(order: string): seq<Line> -> Option<real>
  {
    (g: seq<Line>) => if |g| == 0 then None else Some(GroupMax(g, order))
  }

  /** The in-place sort of lines 143-171: a permutation, non-increasing in the group maximum. */
  method SortGroups(groups: seq<seq<Line>>, order: string) returns (sorted: seq<seq<Line>>)
    requires forall k :: 0 <= k < |groups| ==> |groups[k]| > 0
    ensures multiset(sorted) == multiset(groups)
    ensures forall k :: 0 <= k < |sorted| ==> |sorted[k]| > 0
    ensures forall p, q :: 0 <= p < q < |sorted| ==> GroupMax(sorted[p], order) >= GroupMax(sorted[q], order)
  {
    var a := Sorting.ToArray(groups);
    Sorting.SortDescending(a, GroupKey(order));
    sorted := a[..];
    assert Sorting.AllKeyed(groups, GroupKey(order));
    forall k | 0 <= k < |sorted| ensures |sorted[k]| > 0 {
      assert GroupKey(order)(sorted[k]).Some?;
    }
    forall p, q | 0 <= p < q < |sorted| ensures GroupMax(sorted[p], order) >= GroupMax(sorted[q], order) {
      assert GroupKey(order)(sorted[p]).value >= GroupKey(order)(sorted[q]).value;
    }
  }
}
