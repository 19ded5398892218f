/** Sequence helpers standing in for `std::find`, `std::find_if`,
    `vector::erase(iterator)` and the one-element `std::rotate` the runtime
    uses on its worker vector and job queue. */
module Seqs {

  /** Index of the first occurrence of `x` in `s`, or `|s|` when absent (the
      `end()` iterator of `std::find`). */
  function Find<T(==)>(s: seq<T>, x: T): (i: nat)
    ensures i <= |s|
    ensures i < |s| ==> s[i] == x
    ensures forall j :: 0 <= j < i ==> s[j] != x
    ensures i == |s| <==> x !in s
  {
    if |s| == 0 then 0
    else if s[0] == x then 0
    else 1 + Find(s[1..], x)
  }

  /** Index of the first element satisfying `p`, or `|s|` (`std::find_if`). */
  function FindIf<T>(s: seq<T>, p: T -> bool): (i: nat)
    ensures i <= |s|
    ensures i < |s| ==> p(s[i])
    ensures forall j :: 0 <= j < i ==> !p(s[j])
  {
    if |s| == 0 then 0
    else if p(s[0]) then 0
    else 1 + FindIf(s[1..], p)
  }

  /** `erase(begin() + i)`: the elements before and after `i`, in order. */
  function RemoveAt<T>(s: seq<T>, i: nat): (r: seq<T>)
    requires i < |s|
    ensures |r| == |s| - 1
    ensures forall j :: 0 <= j < i ==> r[j] == s[j]
    ensures forall j :: i <= j < |r| ==> r[j] == s[j + 1]
    ensures multiset(r) == multiset(s) - multiset{s[i]}
  {
    assert s == s[..i] + [s[i]] + s[i + 1..];
    s[..i] + s[i + 1..]
  }

  /** `std::rotate(b, b + i, b + i + 1)`: element `i` moves to the front and
      the elements before it move one place back. */
  function RotateToFront<T>(s: seq<T>, i: nat): (r: seq<T>)
    requires i < |s|
    ensures |r| == |s|
    ensures r[0] == s[i]
    ensures r[1..] == RemoveAt(s, i)
    ensures multiset(r) == multiset(s)
  {
    assert s == s[..i] + [s[i]] + s[i + 1..];
    [s[i]] + s[..i] + s[i + 1..]
  }

  /** Elements of `s` that satisfy `p`, in order. */
  function Filter<T>(s: seq<T>, p: T -> bool): (r: seq<T>)
    ensures |r| <= |s|
    ensures forall j :: 0 <= j < |r| ==> p(r[j])
  {
    if |s| == 0 then []
    else if p(s[0]) then [s[0]] + Filter(s[1..], p)
    else Filter(s[1..], p)
  }

  /** Whether `a` is `s` with some elements left out and the rest in their
      original order. */
  predicate IsSubsequence<T(==)>(a: seq<T>, s: seq<T>)
    decreases |s|
  {
    || |a| == 0
    || (|s| > 0 && ((a[0] == s[0] && IsSubsequence(a[1..], s[1..])) || IsSubsequence(a, s[1..])))
  }

  /** Filtering only leaves elements out: what remains keeps its order. */
  lemma {:induction false} FilterIsSubsequence<T>(s: seq<T>, p: T -> bool)
    ensures IsSubsequence(Filter(s, p), s)
  {
    if |s| > 0 {
      FilterIsSubsequence(s[1..], p);
      if p(s[0]) {
        var f := Filter(s[1..], p);
        assert Filter(s, p) == [s[0]] + f;
        assert ([s[0]] + f)[1..] == f;
      }
    }
  }

  /** An element is kept by filtering exactly when it occurs and passes. */
  lemma {:induction false} FilterMembers<T>(s: seq<T>, p: T -> bool)
    ensures forall y :: y in Filter(s, p) <==> y in s && p(y)
  {
    if |s| > 0 {
      FilterMembers(s[1..], p);
      assert s == [s[0]] + s[1..];
    }
  }

  /** Filtering keeps a sequence whose every element passes and empties one
      whose every element fails. */
  lemma {:induction false} FilterAllOrNone<T>(s: seq<T>, p: T -> bool)
    ensures (forall j :: 0 <= j < |s| ==> p(s[j])) ==> Filter(s, p) == s
    ensures (forall j :: 0 <= j < |s| ==> !p(s[j])) ==> Filter(s, p) == []
  {
    if |s| > 0 {
      FilterAllOrNone(s[1..], p);
    }
  }

  /** The filtered elements are elements of `s`, with no more copies. */
  lemma {:induction false} FilterSubMultiset<T>(s: seq<T>, p: T -> bool)
    ensures multiset(Filter(s, p)) <= multiset(s)
  {
    if |s| > 0 {
      FilterSubMultiset(s[1..], p);
      assert s == [s[0]] + s[1..];
    }
  }

  lemma {:induction false} FilterAppend<T>(a: seq<T>, b: seq<T>, p: T -> bool)
    ensures Filter(a + b, p) == Filter(a, p) + Filter(b, p)
  {
    if |a| == 0 {
      assert a + b == b;
    } else {
      assert (a + b)[1..] == a[1..] + b;
      FilterAppend(a[1..], b, p);
    }
  }

  /** Filtering around one element: the element is kept iff it passes. */
  lemma FilterSplit<T>(s: seq<T>, i: nat, p: T -> bool)
    requires i < |s|
    ensures Filter(s, p) == Filter(s[..i], p) + (if p(s[i]) then [s[i]] else []) + Filter(s[i + 1..], p)
  {
    SplitAt(s, i);
    FilterAround(s[..i], s[i], s[i + 1..], p);
  }

  lemma SplitAt<T>(s: seq<T>, i: nat)
    requires i < |s|
    ensures s == s[..i] + ([s[i]] + s[i + 1..])
  {
  }

  lemma FilterAround<T>(pre: seq<T>, x: T, post: seq<T>, p: T -> bool)
    ensures Filter(pre + ([x] + post), p) == Filter(pre, p) + (if p(x) then [x] else []) + Filter(post, p)
  {
    assert Filter([x], p) == (if p(x) then [x] else []) by {
      assert [x][1..] == [];
    }
    FilterAppend([x], post, p);
    FilterAppend(pre, [x] + post, p);
  }

  /** Removing one element removes it from the filtered sequence if it
      passes `p`, and changes nothing there if it fails. */
  lemma FilterRemoveAt<T>(s: seq<T>, i: nat, p: T -> bool)
    requires i < |s|
    ensures Filter(RemoveAt(s, i), p) == Filter(s[..i], p) + Filter(s[i + 1..], p)
  {
    var r := RemoveAt(s, i);
    assert r == s[..i] + s[i + 1..];
    FilterAppend(s[..i], s[i + 1..], p);
  }

  lemma FilterRemoveFailing<T>(s: seq<T>, i: nat, p: T -> bool)
    requires i < |s| && !p(s[i])
    ensures Filter(RemoveAt(s, i), p) == Filter(s, p)
  {
    FilterRemoveAt(s, i, p);
    FilterSplit(s, i, p);
  }
}
