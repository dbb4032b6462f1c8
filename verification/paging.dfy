/** The client-side list handling both tables share: `Array.prototype.filter`,
    `Array.prototype.slice`, a fixed page size of 5, `Math.ceil` page counts
    and a bounds-guarded `goToPage`. */
module Paging {

  const PageSize: nat := 5

  function Min(a: int, b: int): int {
    if a <= b then a else b
  }

  // ---------------------------------------------------------------------
  // filter
  // ---------------------------------------------------------------------

  /** `xs.filter(keep)`. */
  function Filter<T>(xs: seq<T>, keep: T -> bool): (r: seq<T>)
    ensures |r| <= |xs|
    ensures forall y :: y in r ==> y in xs && keep(y)
    ensures forall x :: x in xs && keep(x) ==> x in r
    decreases |xs|
  {
    if |xs| == 0 then []
    else
      var rest := Filter(xs[1..], keep);
      assert forall x :: x in xs[1..] ==> x in xs;
      assert forall x :: x in xs ==> x == xs[0] || x in xs[1..];
      if keep(xs[0]) then [xs[0]] + rest else rest
  }

  /** Filtering a concatenation filters each part. */
  lemma {:induction false} FilterConcat<T>(a: seq<T>, b: seq<T>, keep: T -> bool)
    ensures Filter(a + b, keep) == Filter(a, keep) + Filter(b, keep)
    decreases |a|
  {
    if |a| == 0 {
      assert a + b == b;
    } else {
      assert (a + b)[1..] == a[1..] + b;
      FilterConcat(a[1..], b, keep);
    }
  }

  /** The positions, in increasing order, whose elements `keep` accepts. */
  function KeptIndices<T>(xs: seq<T>, keep: T -> bool): (idx: seq<nat>)
    ensures forall k :: 0 <= k < |idx| ==> idx[k] < |xs| && keep(xs[idx[k]])
    ensures forall k, l :: 0 <= k < l < |idx| ==> idx[k] < idx[l]
    ensures forall i :: 0 <= i < |xs| && keep(xs[i]) ==> i in idx
    decreases |xs|
  {
    if |xs| == 0 then []
    else
      var n := |xs| - 1;
      var front := KeptIndices(xs[..n], keep);
      assert forall k :: 0 <= k < |front| ==> xs[..n][front[k]] == xs[front[k]];
      if keep(xs[n]) then front + [n] else front
  }

  /** An independent description of `filter`: the result lists exactly the
      accepted elements, in their original order. So it is an
      order-preserving subsequence of the input that misses no accepted
      element. */
  lemma {:induction false} FilterIsKeptSubsequence<T>(xs: seq<T>, keep: T -> bool)
    ensures var idx := KeptIndices(xs, keep);
      |Filter(xs, keep)| == |idx| &&
      forall k :: 0 <= k < |idx| ==> Filter(xs, keep)[k] == xs[idx[k]]
    decreases |xs|
  {
    if |xs| > 0 {
      var n := |xs| - 1;
      var front := KeptIndices(xs[..n], keep);
      var f := Filter(xs[..n], keep);
      FilterIsKeptSubsequence(xs[..n], keep);
      FilterConcat(xs[..n], [xs[n]], keep);
      assert xs[..n] + [xs[n]] == xs;
      var r := Filter(xs, keep);
      if keep(xs[n]) {
        assert [xs[n]][1..] == [];
        assert r == f + [xs[n]];
      } else {
        assert [xs[n]][1..] == [];
        assert r == f;
      }
      forall k | 0 <= k < |front|
        ensures r[k] == xs[front[k]]
      {
        assert xs[..n][front[k]] == xs[front[k]];
      }
    }
  }

  /** When every element is accepted, `filter` returns the list unchanged. */
  lemma {:induction false} FilterKeepsAll<T>(xs: seq<T>, keep: T -> bool)
    requires forall x :: x in xs ==> keep(x)
    ensures Filter(xs, keep) == xs
    decreases |xs|
  {
    if |xs| > 0 {
      assert forall x :: x in xs[1..] ==> x in xs;
      FilterKeepsAll(xs[1..], keep);
    }
  }

  // ---------------------------------------------------------------------
  // slice and pages
  // ---------------------------------------------------------------------

  /** How `slice` reads an index: negative counts from the end, and
      everything is clamped to `[0, len]`. */
  function SliceIndex(i: int, len: nat): (r: nat)
    ensures r <= len
    ensures 0 <= i <= len ==> r == i
    ensures i > len ==> r == len
  {
    if i < 0 then (if len + i < 0 then 0 else len + i)
    else if i > len then len
    else i
  }

  /** `xs.slice(start, end)`. */
  function Slice<T>(xs: seq<T>, start: int, end: int): (r: seq<T>)
    ensures |r| <= |xs|
  {
    var a := SliceIndex(start, |xs|);
    var b := SliceIndex(end, |xs|);
    if a < b then xs[a..b] else []
  }

  /** Page `p` (1-based): `xs.slice((p - 1) * 5, p * 5)`. For every page
      number the app can hold it is the window `[(p-1)*5, p*5)` clipped to
      the list, so it has at most 5 items. */
  function Page<T>(xs: seq<T>, p: int): (r: seq<T>)
    ensures p >= 1 ==> r == xs[Min((p - 1) * PageSize, |xs|)..Min(p * PageSize, |xs|)]
    ensures p >= 1 ==> |r| <= PageSize
  {
    Slice(xs, (p - 1) * PageSize, p * PageSize)
  }

  /** `Math.ceil(n / 5)`: the fewest pages of 5 that hold `n` items. */
  function TotalPages(n: nat): (r: nat)
    ensures r * PageSize >= n
    ensures r > 0 ==> (r - 1) * PageSize < n
    ensures r == 0 <==> n == 0
  {
    (n + PageSize - 1) / PageSize
  }

  /** Pages beyond the last are empty. */
  lemma PageBeyondLast<T>(xs: seq<T>, p: int)
    requires p > TotalPages(|xs|)
    ensures Page(xs, p) == []
  {
  }

  /** `goToPage(target)`: moves only to a page in `[1, totalPages]`. */
  function GoToPage(current: int, target: int, total: nat): (r: int)
    ensures 1 <= target <= total ==> r == target
    ensures !(1 <= target <= total) ==> r == current
  {
    if 1 <= target && target <= total then target else current
  }

  /** With no items there are no pages, so every `goToPage` call is a no-op. */
  lemma GoToPageEmpty(current: int, target: int)
    ensures GoToPage(current, target, TotalPages(0)) == current
  {
  }

  /** The page number the app keeps is 1 or a real page. */
  predicate PageInRange(page: int, total: nat) {
    page == 1 || 1 <= page <= total
  }

  /** `goToPage` keeps the page number in range. */
  lemma GoToPageKeepsRange(current: int, target: int, total: nat)
    requires PageInRange(current, total)
    ensures PageInRange(GoToPage(current, target, total), total)
  {
  }

  /** Pages 1..k laid end to end. */
  function Pages<T>(xs: seq<T>, k: nat): seq<T>
    decreases k
  {
    if k == 0 then [] else Pages(xs, k - 1) + Page(xs, k)
  }

  lemma {:induction false} PagesArePrefix<T>(xs: seq<T>, k: nat)
    ensures Pages(xs, k) == xs[..Min(k * PageSize, |xs|)]
    decreases k
  {
    if k > 0 {
      PagesArePrefix(xs, k - 1);
      var a := Min((k - 1) * PageSize, |xs|);
      var b := Min(k * PageSize, |xs|);
      assert xs[..a] + xs[a..b] == xs[..b];
    }
  }

  /** Pages 1..totalPages laid end to end give back exactly the list: no
      item is skipped and none appears twice. */
  lemma ConcatenatedPages<T>(xs: seq<T>)
    ensures Pages(xs, TotalPages(|xs|)) == xs
  {
    PagesArePrefix(xs, TotalPages(|xs|));
    assert xs[..|xs|] == xs;
  }

  /** Item `i` is on page `i / 5 + 1`, at position `i % 5`. */
  lemma PageOfItem<T>(xs: seq<T>, i: nat)
    requires i < |xs|
    ensures 1 <= i / PageSize + 1 <= TotalPages(|xs|)
    ensures |Page(xs, i / PageSize + 1)| > i % PageSize
    ensures Page(xs, i / PageSize + 1)[i % PageSize] == xs[i]
  {
    var p := i / PageSize + 1;
    assert (p - 1) * PageSize == i - i % PageSize;
  }
}
