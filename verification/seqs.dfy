/**
 * Generic operations on the rows of a table, held as a sequence in table
 * order: the SQL `WHERE` filter, `.first()` lookup and `UPDATE ... WHERE`.
 */
module Seqs {
  import opened Wrappers

  /** The rows satisfying `keep`, in their original order (a `WHERE` clause). */
  function Filter<T(!new)>(xs: seq<T>, keep: T -> bool): (r: seq<T>)
    ensures |r| <= |xs|
    ensures forall x :: x in r <==> x in xs && keep(x)
    ensures forall x :: multiset(r)[x] == if keep(x) then multiset(xs)[x] else 0
    decreases |xs|
  {
    if |xs| == 0 then []
    else
      var rest := Filter(xs[1..], keep);
      assert xs == [xs[0]] + xs[1..];
      if keep(xs[0]) then [xs[0]] + rest else rest
  }

  /**
   * The filter keeps table order: filtering a concatenation is the
   * concatenation of the filtered parts, so rows appended later come later.
   */
  lemma {:induction false} FilterAppend<T(!new)>(xs: seq<T>, ys: seq<T>, keep: T -> bool)
    ensures Filter(xs + ys, keep) == Filter(xs, keep) + Filter(ys, keep)
    decreases |xs|
  {
    if |xs| > 0 {
      assert (xs + ys)[1..] == xs[1..] + ys;
      FilterAppend(xs[1..], ys, keep);
    } else {
      assert xs + ys == ys;
    }
  }

  /** Filtering a single row gives the row or nothing. */
  lemma FilterSingle<T(!new)>(x: T, keep: T -> bool)
    ensures Filter([x], keep) == if keep(x) then [x] else []
  {
    assert [x][1..] == [];
  }

  /** Whether some row satisfies `p` (an SQL `EXISTS`). */
  function Any<T(!new)>(xs: seq<T>, p: T -> bool): (r: bool)
    ensures r <==> exists x :: x in xs && p(x)
    decreases |xs|
  {
    if |xs| == 0 then false
    else
      assert xs == [xs[0]] + xs[1..];
      p(xs[0]) || Any(xs[1..], p)
  }

  /** The position of the first row satisfying `match_`, or `|xs|` when there is none. */
  function FirstIndex<T>(xs: seq<T>, match_: T -> bool): (i: nat)
    ensures i <= |xs|
    ensures forall j :: 0 <= j < i ==> !match_(xs[j])
    ensures i < |xs| ==> match_(xs[i])
    decreases |xs|
  {
    if |xs| == 0 then 0
    else if match_(xs[0]) then 0
    else 1 + FirstIndex(xs[1..], match_)
  }

  /**
   * The first match depends only on which positions match: two sequences
   * matching at the same positions have their first match at the same place.
   */
  lemma FirstIndexAgree<T, U>(xs: seq<T>, p: T -> bool, ys: seq<U>, q: U -> bool)
    requires |xs| == |ys|
    requires forall i :: 0 <= i < |xs| ==> p(xs[i]) == q(ys[i])
    ensures FirstIndex(xs, p) == FirstIndex(ys, q)
  {
  }

  /** The first row satisfying `match_`, if any (diesel's `.first()` under a filter). */
  function Find<T(!new)>(xs: seq<T>, match_: T -> bool): (r: Option<T>)
    ensures r.Some? ==> r.value in xs && match_(r.value)
    ensures r.None? <==> forall x :: x in xs ==> !match_(x)
    ensures r.None? <==> FirstIndex(xs, match_) == |xs|
    ensures r.Some? ==> r.value == xs[FirstIndex(xs, match_)]
  {
    var i := FirstIndex(xs, match_);
    if i < |xs| then Some(xs[i]) else None
  }

  /** `UPDATE ... SET ... WHERE`: every row satisfying `where_` is rewritten by `change`. */
  function UpdateWhere<T>(xs: seq<T>, where_: T -> bool, change: T -> T): (r: seq<T>)
    ensures |r| == |xs|
    ensures forall i :: 0 <= i < |xs| ==> r[i] == if where_(xs[i]) then change(xs[i]) else xs[i]
  {
    seq(|xs|, i requires 0 <= i < |xs| => if where_(xs[i]) then change(xs[i]) else xs[i])
  }
}
