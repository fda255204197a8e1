/**
 * Three of the in-place `Array.prototype.sort` calls of the report builder, those of the shape
 * "descending by a key, and equal when a key is missing": the line sort of line 36 (the order
 * algorithm's value, possibly missing), the per-method line sort of line 121 (ascending line
 * number, as the key minus the line number) and the group sort of line 143 (the group's
 * maximum value).
 */
module Sorting {
  import opened Types

  /** `x` goes before `y`: both keys are present and `x`'s is larger. */
  predicate Outranks<T(==)>(key: T -> Option<real>, x: T, y: T)
  {
    key(x).Some? && key(y).Some? && key(x).value > key(y).value
  }

  predicate AllKeyed<T(==)>(s: seq<T>, key: T -> Option<real>)
  {
    forall x :: x in s ==> key(x).Some?
  }

  /** Non-increasing in the key. */
  predicate Descending<T(==)>(s: seq<T>, key: T -> Option<real>)
    requires AllKeyed(s, key)
  {
    forall p, q :: 0 <= p < q < |s| ==> key(s[p]).value >= key(s[q]).value
  }

  method Swap<T>(a: array<T>, i: nat)
    requires 0 < i < a.Length
    modifies a
    ensures a[i - 1] == old(a[i]) && a[i] == old(a[i - 1])
    ensures forall k :: 0 <= k < a.Length && k != i - 1 && k != i ==> a[k] == old(a[k])
    ensures multiset(a[..]) == multiset(old(a[..]))
  {
    a[i - 1], a[i] := a[i], a[i - 1];
  }

  /** The first `n` elements are non-increasing in the key. */
  predicate SortedPrefix<T(==)>(s: seq<T>, key: T -> Option<real>, n: nat)
    requires AllKeyed(s, key) && n <= |s|
  {
    forall p, q :: 0 <= p < q < n ==> key(s[p]).value >= key(s[q]).value
  }

  /**
   * Insertion sort that moves an element left past every element it outranks. It always
   * permutes; when every key is present the result is non-increasing in the key.
   */
  method SortDescending<T(==)>(a: array<T>, key: T -> Option<real>)
    modifies a
    ensures multiset(a[..]) == multiset(old(a[..]))
    ensures AllKeyed(old(a[..]), key) ==> AllKeyed(a[..], key) && Descending(a[..], key)
  {
    ghost var keyed := AllKeyed(a[..], key);
    var i := 1;
    while i < a.Length
      invariant a.Length == 0 || 1 <= i <= a.Length
      invariant multiset(a[..]) == multiset(old(a[..]))
      invariant keyed ==> AllKeyed(a[..], key) && (a.Length == 0 || SortedPrefix(a[..], key, i))
    {
      Insert(a, i, key, keyed);
      i := i + 1;
    }
  }

  /** The inner loop: `a[i]` moves left past every element it outranks, extending the sorted prefix by one. */
  method Insert<T(==)>(a: array<T>, i: nat, key: T -> Option<real>, ghost keyed: bool)
    requires 0 < i < a.Length
    requires keyed ==> AllKeyed(a[..], key) && SortedPrefix(a[..], key, i)
    modifies a
    ensures multiset(a[..]) == multiset(old(a[..]))
    ensures keyed ==> AllKeyed(a[..], key) && SortedPrefix(a[..], key, i + 1)
  {
    var j := i;
    while j > 0 && Outranks(key, a[j], a[j - 1])
      invariant 0 <= j <= i
      invariant multiset(a[..]) == multiset(old(a[..]))
      invariant keyed ==> AllKeyed(a[..], key) && Inserting(a[..], key, j, i)
    {
      ghost var before := a[..];
      Swap(a, j);
      if keyed {
        InMultiset(a[..], before, key, keyed);
        SwapKeeps(before, a[..], key, j, i);
      }
      j := j - 1;
    }
    if keyed {
      Inserted(a[..], key, j, i);
    }
  }

  /**
   * Half-way through an insertion: apart from the moving element at `j`, the first `i + 1`
   * elements are non-increasing, and the moving element outranks everything after it.
   */
  predicate Inserting<T(==)>(s: seq<T>, key: T -> Option<real>, j: nat, i: nat)
    requires AllKeyed(s, key) && j <= i < |s|
  {
    && (forall p, q :: 0 <= p < q <= i && q != j ==> key(s[p]).value >= key(s[q]).value)
    && (forall q :: j < q <= i ==> key(s[j]).value > key(s[q]).value)
  }

  /** Swapping the moving element with a neighbour it outranks moves the insertion one step left. */
  lemma {:induction false} SwapKeeps<T>(s: seq<T>, t: seq<T>, key: T -> Option<real>, j: nat, i: nat)
    requires 0 < j <= i < |s| == |t|
    requires AllKeyed(s, key) && AllKeyed(t, key) && Inserting(s, key, j, i)
    requires Outranks(key, s[j], s[j - 1])
    requires t[j - 1] == s[j] && t[j] == s[j - 1]
    requires forall k :: 0 <= k < |s| && k != j - 1 && k != j ==> t[k] == s[k]
    ensures Inserting(t, key, j - 1, i)
  {
    forall p, q | 0 <= p < q <= i && q != j - 1 ensures key(t[p]).value >= key(t[q]).value {
      if q == j {
        if p < j - 1 {
          assert key(s[p]).value >= key(s[j - 1]).value;
        }
      } else if p == j - 1 {
        assert key(s[j]).value > key(s[q]).value;
      } else if p == j {
        assert key(s[j - 1]).value >= key(s[q]).value;
      }
    }
  }

  /** When the moving element no longer outranks its left neighbour, the first `i + 1` elements are sorted. */
  lemma {:induction false} Inserted<T>(s: seq<T>, key: T -> Option<real>, j: nat, i: nat)
    requires j <= i < |s|
    requires AllKeyed(s, key) && Inserting(s, key, j, i)
    requires j == 0 || !Outranks(key, s[j], s[j - 1])
    ensures SortedPrefix(s, key, i + 1)
  {
    forall p, q | 0 <= p < q <= i ensures key(s[p]).value >= key(s[q]).value {
      if q == j {
        assert s[j - 1] in s && s[j] in s;
        if p < j - 1 {
          assert key(s[p]).value >= key(s[j - 1]).value;
        }
      }
    }
  }

  lemma {:induction false} InMultiset<T>(s: seq<T>, t: seq<T>, key: T -> Option<real>, keyed: bool)
    requires multiset(s) == multiset(t)
    requires keyed ==> AllKeyed(t, key)
    ensures keyed ==> AllKeyed(s, key)
  {
    if keyed {
      forall x | x in s ensures key(x).Some? {
        assert x in multiset(s);
      }
    }
  }

  /** A fresh array holding `s`, for the sorts that the source runs on a freshly built array. */
  method ToArray<T>(s: seq<T>) returns (a: array<T>)
    ensures fresh(a) && a[..] == s
  {
    a := new T[|s|](i requires 0 <= i < |s| => s[i]);
  }
}
