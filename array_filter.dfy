/** Filtering a list as `Array.prototype.filter` does it, and the
    subsequence relation that says such a filter keeps the input's order. */
module ArrayFilter {

  /** The elements of `s` that satisfy `p`, in their order in `s`. */
  function Select<T(==,!new)>(s: seq<T>, p: T -> bool): (r: seq<T>)
    ensures |r| <= |s|
    ensures forall x :: x in r <==> x in s && p(x)
  {
    if s == [] then []
    else (if p(s[0]) then [s[0]] else []) + Select(s[1..], p)
  }

  /** `r` can be obtained from `s` by deleting elements: it keeps the order
      of `s` and invents nothing. */
  predicate IsSubsequence<T(==)>(r: seq<T>, s: seq<T>) {
    if r == [] then true
    else if s == [] then false
    else if r[0] == s[0] then IsSubsequence(r[1..], s[1..])
    else IsSubsequence(r, s[1..])
  }

  /** A subsequence of the tail of `s` is a subsequence of `s`. */
  lemma {:induction false} SubsequenceOfTail<T>(r: seq<T>, s: seq<T>)
    requires s != [] && IsSubsequence(r, s[1..])
    ensures IsSubsequence(r, s)
    decreases |s|, 0
  {
    if r != [] && r[0] == s[0] {
      SubsequenceDropFirst(r, s[1..]);
    }
  }

  /** Dropping the first element of a subsequence leaves a subsequence. */
  lemma {:induction false} SubsequenceDropFirst<T>(r: seq<T>, t: seq<T>)
    requires r != [] && IsSubsequence(r, t)
    ensures IsSubsequence(r[1..], t)
    decreases |t|, 1
  {
    if r[0] == t[0] {
      SubsequenceOfTail(r[1..], t);
    } else {
      SubsequenceDropFirst(r, t[1..]);
      SubsequenceOfTail(r[1..], t);
    }
  }

  /** Filtering keeps the order of the input. */
  lemma {:induction false} SelectIsSubsequence<T(!new)>(s: seq<T>, p: T -> bool)
    ensures IsSubsequence(Select(s, p), s)
  {
    if s != [] {
      SelectIsSubsequence(s[1..], p);
      if p(s[0]) {
        assert Select(s, p)[1..] == Select(s[1..], p);
      } else {
        assert Select(s, p) == Select(s[1..], p);
        SubsequenceOfTail(Select(s[1..], p), s);
      }
    }
  }

  /** A filter that every element passes returns the input itself. */
  lemma {:induction false} SelectAll<T(!new)>(s: seq<T>, p: T -> bool)
    requires forall i | 0 <= i < |s| :: p(s[i])
    ensures Select(s, p) == s
  {
    if s != [] {
      SelectAll(s[1..], p);
    }
  }

  /** A filter that no element passes returns the empty list. */
  lemma {:induction false} SelectNone<T(!new)>(s: seq<T>, p: T -> bool)
    requires forall i | 0 <= i < |s| :: !p(s[i])
    ensures Select(s, p) == []
  {
    if s != [] {
      SelectNone(s[1..], p);
    }
  }

  /** Filtering never adds copies of an element: its multiset is contained in
      that of the input. */
  lemma {:induction false} SelectSubMultiset<T(!new)>(s: seq<T>, p: T -> bool)
    ensures multiset(Select(s, p)) <= multiset(s)
  {
    if s != [] {
      SelectSubMultiset(s[1..], p);
      assert s == [s[0]] + s[1..];
    }
  }

  /** Filtering keeps every copy of an element that passes and no copy of one
      that fails. */
  lemma {:induction false} SelectCounts<T(!new)>(s: seq<T>, p: T -> bool, x: T)
    ensures multiset(Select(s, p))[x] == if p(x) then multiset(s)[x] else 0
  {
    if s != [] {
      SelectCounts(s[1..], p, x);
      assert s == [s[0]] + s[1..];
    }
  }

  /** A prefix of a subsequence is a subsequence. */
  lemma {:induction false} SubsequencePrefix<T>(r: seq<T>, s: seq<T>, k: nat)
    requires k <= |r| && IsSubsequence(r, s)
    ensures IsSubsequence(r[..k], s)
  {
    if k > 0 {
      if r[0] == s[0] {
        SubsequencePrefix(r[1..], s[1..], k - 1);
        assert r[..k][1..] == r[1..][..k - 1];
      } else {
        SubsequencePrefix(r, s[1..], k);
        SubsequenceOfTail(r[..k], s);
      }
    }
  }
}
