/** Operations on table rows held as sequences: the `where` filters, the
    unique lookups and the `orderBy` of the persistence layer. */
module Seqs {
  import opened Base

  /** The rows of `s` that satisfy `keep`, in their original order. */
  function Filter<T(!new)>(s: seq<T>, keep: T -> bool): (r: seq<T>)
    ensures forall x :: x in r <==> x in s && keep(x)
    ensures forall x :: multiset(r)[x] == if keep(x) then multiset(s)[x] else 0
    ensures |r| <= |s|
  {
    if s == [] then []
    else
      var rest := Filter(s[1..], keep);
      assert s == [s[0]] + s[1..];
      if keep(s[0]) then [s[0]] + rest else rest
  }

  /** Filtering keeps the whole sequence exactly when every row is kept. */
  lemma {:induction false} FilterKeepsAll<T(!new)>(s: seq<T>, keep: T -> bool)
    ensures |Filter(s, keep)| == |s| <==> forall x :: x in s ==> keep(x)
  {
    if s != [] {
      assert s == [s[0]] + s[1..];
      FilterKeepsAll(s[1..], keep);
    }
  }

  /** Filtering a concatenation filters each part. */
  lemma {:induction false} FilterAppend<T(!new)>(a: seq<T>, b: seq<T>, keep: T -> bool)
    ensures Filter(a + b, keep) == Filter(a, keep) + Filter(b, keep)
  {
    if a == [] {
      assert a + b == b;
    } else {
      assert a + b == [a[0]] + (a[1..] + b);
      FilterAppend(a[1..], b, keep);
    }
  }

  /** The first row that satisfies `p`, if any. */
  function Find<T(!new)>(s: seq<T>, p: T -> bool): (r: Option<T>)
    ensures r.Some? ==> r.value in s && p(r.value)
    ensures r.None? <==> forall x :: x in s ==> !p(x)
  {
    if s == [] then None
    else if p(s[0]) then Some(s[0])
    else Find(s[1..], p)
  }

  /** Every row that satisfies `p` replaced by `v`; the others untouched. */
  function ReplaceWhere<T>(s: seq<T>, p: T -> bool, v: T): (r: seq<T>)
    ensures |r| == |s|
    ensures forall i :: 0 <= i < |s| ==> r[i] == if p(s[i]) then v else s[i]
  {
    seq(|s|, i requires 0 <= i < |s| => if p(s[i]) then v else s[i])
  }

  /** `a` may stand before `b` in an ordering on `key`. */
  predicate InOrder<T>(a: T, b: T, key: T -> int, descending: bool) {
    if descending then key(a) >= key(b) else key(a) <= key(b)
  }

  /** Every earlier row stands in order with every later one. */
  ghost predicate Sorted<T>(s: seq<T>, key: T -> int, descending: bool) {
    forall i, j :: 0 <= i < j < |s| ==> InOrder(s[i], s[j], key, descending)
  }

  /** `x` placed into the sorted `s` before the first row it may precede. */
  function Insert<T>(x: T, s: seq<T>, key: T -> int, descending: bool): (r: seq<T>)
    requires Sorted(s, key, descending)
    ensures multiset(r) == multiset(s) + multiset{x}
    ensures Sorted(r, key, descending)
  {
    if s == [] then [x]
    else if InOrder(x, s[0], key, descending) then
      assert forall j :: 0 <= j < |s| ==> InOrder(s[0], s[j], key, descending) ==> InOrder(x, s[j], key, descending);
      [x] + s
    else
      assert s == [s[0]] + s[1..];
      var rest := Insert(x, s[1..], key, descending);
      forall y | y in rest
        ensures y == x || y in s[1..]
      {
        assert multiset(rest)[y] > 0;
      }
      assert forall y :: y in rest ==> InOrder(s[0], y, key, descending);
      [s[0]] + rest
  }

  /** `s` ordered on `key` (stable insertion sort): the rows of `s`, each
      as often as in `s`, every earlier one in order with every later one. */
  function SortBy<T>(s: seq<T>, key: T -> int, descending: bool): (r: seq<T>)
    ensures multiset(r) == multiset(s)
    ensures Sorted(r, key, descending)
  {
    if s == [] then []
    else
      assert s == [s[0]] + s[1..];
      Insert(s[0], SortBy(s[1..], key, descending), key, descending)
  }
}
