/** The contract of JavaScript's `Array.prototype.sort` with a comparator of the
    form `(a, b) => key(a) - key(b)`, which is the only form the menu uses.
    Since ECMAScript 2019 the sort is required to be stable: elements the
    comparator calls equal keep their relative order. Any stable sort yields the
    same result, so the specification is stable insertion sort on sequences,
    and `SortInPlace` carries it out on an array, as the source sorts its local
    array in place. */
module StableSort {

  /** Keys never decrease from left to right. */
  ghost predicate Sorted<T>(s: seq<T>, key: T -> real) {
    forall i, j | 0 <= i < j < |s| :: key(s[i]) <= key(s[j])
  }

  /** The elements of `s` whose key is `k`, in their order in `s`. */
  function WithKey<T>(s: seq<T>, key: T -> real, k: real): seq<T> {
    if s == [] then []
    else WithKey(s[..|s| - 1], key, k) + (if key(s[|s| - 1]) == k then [s[|s| - 1]] else [])
  }

  /** Places `x` after the last element of `s` whose key is not larger than
      its own: scanning from the right, it moves past exactly the elements
      with a strictly larger key. */
  function Insert<T>(s: seq<T>, x: T, key: T -> real): (r: seq<T>)
    ensures |r| == |s| + 1
  {
    if s == [] || key(s[|s| - 1]) <= key(x) then s + [x]
    else Insert(s[..|s| - 1], x, key) + [s[|s| - 1]]
  }

  /** Stable insertion sort: each element in turn is inserted into the sorted
      prefix before it. */
  function InsertionSort<T>(s: seq<T>, key: T -> real): (r: seq<T>)
    ensures |r| == |s|
  {
    if s == [] then []
    else Insert(InsertionSort(s[..|s| - 1], key), s[|s| - 1], key)
  }

  /** Insertion adds `x` and loses nothing. */
  lemma {:induction false} InsertPermutes<T>(s: seq<T>, x: T, key: T -> real)
    ensures multiset(Insert(s, x, key)) == multiset(s) + multiset{x}
  {
    if s != [] && key(s[|s| - 1]) > key(x) {
      InsertPermutes(s[..|s| - 1], x, key);
      assert s == s[..|s| - 1] + [s[|s| - 1]];
    }
  }

  /** The sort is a permutation: no element is invented or dropped. */
  lemma {:induction false} InsertionSortPermutes<T>(s: seq<T>, key: T -> real)
    ensures multiset(InsertionSort(s, key)) == multiset(s)
  {
    if s != [] {
      InsertionSortPermutes(s[..|s| - 1], key);
      InsertPermutes(InsertionSort(s[..|s| - 1], key), s[|s| - 1], key);
      assert s == s[..|s| - 1] + [s[|s| - 1]];
    }
  }

  /** Inserting into a sorted sequence keeps it sorted. */
  lemma {:induction false} InsertSorted<T>(s: seq<T>, x: T, key: T -> real)
    requires Sorted(s, key)
    ensures Sorted(Insert(s, x, key), key)
  {
    if s == [] || key(s[|s| - 1]) <= key(x) {
    } else {
      var front, last := s[..|s| - 1], s[|s| - 1];
      InsertSorted(front, x, key);
      var r := Insert(front, x, key);
      InsertPermutes(front, x, key);
      forall y | y in r
        ensures key(y) <= key(last)
      {
        assert y in multiset(r);
        if y != x {
          assert y in multiset(front);
          var i :| 0 <= i < |front| && front[i] == y;
          assert s[i] == y;
        }
      }
      forall i, j | 0 <= i < j < |r + [last]|
        ensures key((r + [last])[i]) <= key((r + [last])[j])
      {
        if j == |r| {
          assert (r + [last])[i] == r[i] && r[i] in r;
        }
      }
    }
  }

  /** The result of the sort is sorted by key. */
  lemma {:induction false} InsertionSortSorted<T>(s: seq<T>, key: T -> real)
    ensures Sorted(InsertionSort(s, key), key)
  {
    if s != [] {
      InsertionSortSorted(s[..|s| - 1], key);
      InsertSorted(InsertionSort(s[..|s| - 1], key), s[|s| - 1], key);
    }
  }

  /** Appending one element extends each key's subsequence by that element
      alone. */
  lemma WithKeyAppend<T>(s: seq<T>, x: T, key: T -> real, k: real)
    ensures WithKey(s + [x], key, k) == WithKey(s, key, k) + (if key(x) == k then [x] else [])
  {
    assert (s + [x])[..|s + [x]| - 1] == s;
  }

  /** Insertion puts `x` behind every element that shares its key: each key's
      subsequence gains `x` at its end and is otherwise unchanged. */
  lemma {:induction false} InsertWithKey<T>(s: seq<T>, x: T, key: T -> real, k: real)
    ensures WithKey(Insert(s, x, key), key, k)
         == WithKey(s, key, k) + (if key(x) == k then [x] else [])
  {
    if s == [] || key(s[|s| - 1]) <= key(x) {
      WithKeyAppend(s, x, key, k);
    } else {
      var front, last := s[..|s| - 1], s[|s| - 1];
      InsertWithKey(front, x, key, k);
      WithKeyAppend(Insert(front, x, key), last, key, k);
      WithKeyAppend(front, last, key, k);
      assert front + [last] == s;
    }
  }

  /** Stability: for every key, the elements with that key appear in the
      result in the same order as in the input. */
  lemma {:induction false} InsertionSortStable<T>(s: seq<T>, key: T -> real, k: real)
    ensures WithKey(InsertionSort(s, key), key, k) == WithKey(s, key, k)
  {
    if s != [] {
      var front, last := s[..|s| - 1], s[|s| - 1];
      InsertionSortStable(front, key, k);
      InsertWithKey(InsertionSort(front, key), last, key, k);
    }
  }

  /** Sorting by a key that every element shares leaves the sequence as it
      is. */
  lemma {:induction false} SortByConstantKey<T>(s: seq<T>, key: T -> real, k: real)
    requires forall i | 0 <= i < |s| :: key(s[i]) == k
    ensures InsertionSort(s, key) == s
  {
    if s != [] {
      var front, last := s[..|s| - 1], s[|s| - 1];
      SortByConstantKey(front, key, k);
      assert front + [last] == s;
    }
  }

  /** Where insertion puts `x`: right after the last element whose key is not
      larger than its own, every element after that point having a strictly
      larger key. */
  lemma {:induction false} InsertSplits<T>(s: seq<T>, x: T, key: T -> real, j: nat)
    requires j <= |s|
    requires j == 0 || key(s[j - 1]) <= key(x)
    requires forall k | j <= k < |s| :: key(s[k]) > key(x)
    ensures Insert(s, x, key) == s[..j] + [x] + s[j..]
  {
    if j < |s| {
      var front, last := s[..|s| - 1], s[|s| - 1];
      InsertSplits(front, x, key, j);
      assert front[..j] == s[..j] && front[j..] + [last] == s[j..];
    } else {
      assert s[..j] == s;
    }
  }

  /** One pass of the sort: moves `a[i]` left past the elements of the sorted
      prefix `a[..i]` whose key is strictly larger, shifting them one place
      to the right. */
  method InsertLast<T>(a: array<T>, i: nat, key: T -> real)
    requires i < a.Length
    modifies a
    ensures a[..i + 1] == Insert(old(a[..i]), old(a[i]), key)
    ensures forall k | i < k < a.Length :: a[k] == old(a[k])
  {
    ghost var s := a[..i];
    var x := a[i];
    var j := i;
    while j > 0 && key(a[j - 1]) > key(x)
      invariant 0 <= j <= i
      invariant forall k | 0 <= k < j :: a[k] == s[k]
      invariant forall k | j < k <= i :: a[k] == s[k - 1]
      invariant forall k | i < k < a.Length :: a[k] == old(a[k])
      invariant forall k | j <= k < i :: key(s[k]) > key(x)
    {
      a[j] := a[j - 1];
      j := j - 1;
    }
    a[j] := x;
    InsertSplits(s, x, key, j);
    assert a[..i + 1] == s[..j] + [x] + s[j..];
  }

  /** Sorting one more element of a prefix is inserting it into the sorted
      prefix. */
  lemma SortPrefixStep<T>(s: seq<T>, i: nat, key: T -> real)
    requires i < |s|
    ensures InsertionSort(s[..i + 1], key) == Insert(InsertionSort(s[..i], key), s[i], key)
  {
    assert s[..i + 1][..i] == s[..i];
  }

  /** Sorts `a` in place: the array ends up holding the stable sort of its
      old contents. */
  method SortInPlace<T>(a: array<T>, key: T -> real)
    modifies a
    ensures a[..] == InsertionSort(old(a[..]), key)
  {
    ghost var original := a[..];
    var i := 0;
    while i < a.Length
      invariant 0 <= i <= a.Length
      invariant a[..i] == InsertionSort(original[..i], key)
      invariant forall k | i <= k < a.Length :: a[k] == original[k]
    {
      InsertLast(a, i, key);
      SortPrefixStep(original, i, key);
      i := i + 1;
    }
    assert original[..a.Length] == original;
  }
}
