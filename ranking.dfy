/**
 * Ranking normalisation (src/githubActionsHelper.ts, lines 99-107 and 258-266): `sflRanking` is
 * sorted in place with a comparator that puts the order algorithm first and calls every other
 * pair equal. A stable sort with that comparator is a stable partition: the entries equal to the
 * order algorithm, then all the others in their original order.
 */
module Ranking {
  import opened Types

  /** The entries equal to the order algorithm. */
  function OrderNames(ranking: seq<string>, order: string): seq<string>
  {
    if |ranking| == 0 then []
    else OrderNames(ranking[..|ranking| - 1], order) + (if Last(ranking) == order then [order] else [])
  }

  /** The entries different from the order algorithm, in their original order. */
  function OtherNames(ranking: seq<string>, order: string): seq<string>
  {
    if |ranking| == 0 then []
    else OtherNames(ranking[..|ranking| - 1], order) + (if Last(ranking) == order then [] else [Last(ranking)])
  }

  /** The ranking as the in-place sort leaves it. */
  function Normalized(ranking: seq<string>, order: string): seq<string>
  {
    OrderNames(ranking, order) + OtherNames(ranking, order)
  }

  lemma {:induction false} OrderNamesAreOrder(ranking: seq<string>, order: string)
    ensures forall k :: 0 <= k < |OrderNames(ranking, order)| ==> OrderNames(ranking, order)[k] == order
  {
    if |ranking| > 0 {
      OrderNamesAreOrder(ranking[..|ranking| - 1], order);
    }
  }

  lemma {:induction false} OtherNamesAreOthers(ranking: seq<string>, order: string)
    ensures forall k :: 0 <= k < |OtherNames(ranking, order)| ==> OtherNames(ranking, order)[k] != order
  {
    if |ranking| > 0 {
      OtherNamesAreOthers(ranking[..|ranking| - 1], order);
    }
  }

  lemma {:induction false} NamesMultiset(ranking: seq<string>, order: string)
    ensures multiset(OrderNames(ranking, order)) + multiset(OtherNames(ranking, order)) == multiset(ranking)
  {
    if |ranking| > 0 {
      var init := ranking[..|ranking| - 1];
      NamesMultiset(init, order);
      assert ranking == init + [Last(ranking)];
    }
  }

  /** The partition splits the ranking: the order entries, and the other entries, together all of it. */
  lemma {:induction false} NamesSplit(ranking: seq<string>, order: string)
    ensures forall k :: 0 <= k < |OrderNames(ranking, order)| ==> OrderNames(ranking, order)[k] == order
    ensures forall k :: 0 <= k < |OtherNames(ranking, order)| ==> OtherNames(ranking, order)[k] != order
    ensures multiset(OrderNames(ranking, order)) + multiset(OtherNames(ranking, order)) == multiset(ranking)
  {
    OrderNamesAreOrder(ranking, order);
    OtherNamesAreOthers(ranking, order);
    NamesMultiset(ranking, order);
  }

  lemma {:induction false} AllOrderNames(s: seq<string>, order: string)
    requires forall k :: 0 <= k < |s| ==> s[k] == order
    ensures OrderNames(s, order) == s && OtherNames(s, order) == []
  {
    if |s| > 0 {
      var init := s[..|s| - 1];
      AllOrderNames(init, order);
      assert s == init + [Last(s)];
    }
  }

  lemma {:induction false} NoOrderNames(s: seq<string>, order: string)
    requires forall k :: 0 <= k < |s| ==> s[k] != order
    ensures OrderNames(s, order) == [] && OtherNames(s, order) == s
  {
    if |s| > 0 {
      var init := s[..|s| - 1];
      NoOrderNames(init, order);
      assert s == init + [Last(s)];
    }
  }

  lemma {:induction false} NamesAppend(a: seq<string>, b: seq<string>, order: string)
    ensures OrderNames(a + b, order) == OrderNames(a, order) + OrderNames(b, order)
    ensures OtherNames(a + b, order) == OtherNames(a, order) + OtherNames(b, order)
    decreases |b|
  {
    if |b| == 0 {
      assert a + b == a;
    } else {
      assert (a + b)[..|a + b| - 1] == a + b[..|b| - 1];
      NamesAppend(a, b[..|b| - 1], order);
    }
  }

  /** Normalising permutes the ranking, keeps its length and puts the order algorithm at index 0 when present. */
  lemma {:induction false} NormalizedPermutes(ranking: seq<string>, order: string)
    ensures multiset(Normalized(ranking, order)) == multiset(ranking)
    ensures |Normalized(ranking, order)| == |ranking|
    ensures order in ranking ==> Normalized(ranking, order)[0] == order
    ensures order !in ranking ==> Normalized(ranking, order) == ranking
  {
    NamesSplit(ranking, order);
    var r := Normalized(ranking, order);
    assert |multiset(r)| == |multiset(ranking)|;
    if order in ranking {
      assert order in multiset(ranking);
      assert order !in OtherNames(ranking, order);
      assert order in multiset(OrderNames(ranking, order));
      assert |OrderNames(ranking, order)| > 0;
    } else {
      NoOrderNames(ranking, order);
    }
  }

  /** Normalising an already normalised ranking changes nothing (the block renderer re-sorts the same array). */
  lemma {:induction false} NormalizedIdempotent(ranking: seq<string>, order: string)
    ensures Normalized(Normalized(ranking, order), order) == Normalized(ranking, order)
  {
    var firsts, others := OrderNames(ranking, order), OtherNames(ranking, order);
    NamesSplit(ranking, order);
    NamesAppend(firsts, others, order);
    AllOrderNames(firsts, order);
    NoOrderNames(others, order);
    assert OrderNames(firsts + others, order) == firsts + [];
    assert OtherNames(firsts + others, order) == [] + others;
    assert firsts + [] == firsts && [] + others == others;
    assert Normalized(firsts + others, order) == firsts + others;
  }

  /**
   * With distinct names the result is the ranking with the order algorithm moved from its
   * position `k` to the front, the others keeping their order.
   */
  lemma {:induction false} NormalizedMovesToFront(ranking: seq<string>, order: string, k: nat)
    requires k < |ranking| && ranking[k] == order
    requires forall p, q :: 0 <= p < q < |ranking| ==> ranking[p] != ranking[q]
    ensures Normalized(ranking, order) == [order] + ranking[..k] + ranking[k + 1..]
  {
    var before, after := ranking[..k], ranking[k + 1..];
    forall j | 0 <= j < |before| ensures before[j] != order {
      assert before[j] == ranking[j];
    }
    forall j | 0 <= j < |after| ensures after[j] != order {
      assert after[j] == ranking[k + 1 + j];
    }
    assert ranking == before + [order] + after;
    NamesAround(before, order, after);
  }

  /** An entry equal to the order algorithm between entries that differ from it. */
  lemma {:induction false} NamesAround(before: seq<string>, order: string, after: seq<string>)
    requires forall j :: 0 <= j < |before| ==> before[j] != order
    requires forall j :: 0 <= j < |after| ==> after[j] != order
    ensures OrderNames(before + [order] + after, order) == [order]
    ensures OtherNames(before + [order] + after, order) == before + after
  {
    NoOrderNames(before, order);
    NoOrderNames(after, order);
    NamesSingle(order);
    var upTo := before + [order];
    NamesAppend(before, [order], order);
    assert OrderNames(upTo, order) == [order] by {
      assert [] + [order] == [order];
    }
    assert OtherNames(upTo, order) == before by {
      assert before + [] == before;
    }
    NamesAppend(upTo, after, order);
    assert [order] + [] == [order];
  }

  lemma NamesSingle(order: string)
    ensures OrderNames([order], order) == [order] && OtherNames([order], order) == []
  {
    assert [order][..0] == [];
  }

  /** One more entry of the ranking extends exactly one of the two parts. */
  lemma {:induction false} NamesStep(s: seq<string>, i: nat, order: string)
    requires i < |s|
    ensures s[i] == order ==>
      OrderNames(s[..i + 1], order) == OrderNames(s[..i], order) + [order] &&
      OtherNames(s[..i + 1], order) == OtherNames(s[..i], order)
    ensures s[i] != order ==>
      OrderNames(s[..i + 1], order) == OrderNames(s[..i], order) &&
      OtherNames(s[..i + 1], order) == OtherNames(s[..i], order) + [s[i]]
  {
    assert s[..i + 1][..i] == s[..i];
  }

  /** The inner loop: shift `a[w..i]` right by one and put the order entry at `w`. */
  method RotateToFront(a: array<string>, w: nat, i: nat)
    requires w <= i < a.Length
    modifies a
    ensures a[..w] == old(a[..w]) && a[w] == old(a[i])
    ensures a[w + 1..i + 1] == old(a[w..i]) && a[i + 1..] == old(a[i + 1..])
  {
    var x := a[i];
    var k := i;
    while k > w
      invariant w <= k <= i
      invariant a[..k] == old(a[..k])
      invariant a[k + 1..i + 1] == old(a[k..i])
      invariant a[i + 1..] == old(a[i + 1..])
    {
      a[k] := a[k - 1];
      k := k - 1;
    }
    a[w] := x;
    assert a[..w] == old(a[..w]);
  }

  /** The in-place sort of `sflRanking`, as a rotation of each order entry to the front of the unsorted part. */
  method NormalizeRanking(a: array<string>, order: string)
    modifies a
    ensures a[..] == Normalized(old(a[..]), order)
  {
    ghost var s := a[..];
    var w, i := 0, 0;
    while i < a.Length
      invariant 0 <= w <= i <= a.Length
      invariant a[..w] == OrderNames(s[..i], order)
      invariant a[w..i] == OtherNames(s[..i], order)
      invariant a[i..] == s[i..]
    {
      NamesStep(s, i, order);
      assert a[i] == s[i];
      if a[i] == order {
        ghost var before := a[..];
        RotateToFront(a, w, i);
        assert a[..w + 1] == before[..w] + [order];
        assert a[i + 1..] == s[i + 1..];
        w := w + 1;
      } else {
        assert a[w..i + 1] == a[w..i] + [s[i]];
      }
      i := i + 1;
    }
    assert s[..i] == s;
    assert a[..] == a[..w] + a[w..i];
  }
}
