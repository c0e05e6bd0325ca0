/**
 * The list-page arithmetic shared by the location and plant tables:
 * `Array.prototype.filter`, `Array.prototype.slice` (with JavaScript's
 * negative-index rule), the page slice and the page count.
 */
module ListView {

  import Arith

  /** `xs.filter(keep)`: the elements satisfying `keep`, in their original order. */
  function Filter<T>(xs: seq<T>, keep: T -> bool): (r: seq<T>)
    ensures |r| <= |xs|
    ensures forall x :: x in r ==> x in xs && keep(x)
  {
    if xs == [] then []
    else
      var rest := Filter(xs[1..], keep);
      if keep(xs[0]) then [xs[0]] + rest else rest
  }

  /** Each element that satisfies `keep` is kept as often as it occurs; every other element is dropped. */
  lemma {:induction false} FilterCounts<T>(xs: seq<T>, keep: T -> bool, x: T)
    ensures multiset(Filter(xs, keep))[x] == if keep(x) then multiset(xs)[x] else 0
  {
    if xs != [] {
      FilterCounts(xs[1..], keep, x);
      assert xs == [xs[0]] + xs[1..];
      assert multiset(xs) == multiset{xs[0]} + multiset(xs[1..]);
    }
  }

  /** An element that satisfies `keep` survives the filter. */
  lemma FilterKeeps<T>(xs: seq<T>, keep: T -> bool, i: nat)
    requires i < |xs| && keep(xs[i])
    ensures xs[i] in Filter(xs, keep)
  {
    FilterCounts(xs, keep, xs[i]);
    assert xs[i] in multiset(xs);
  }

  /** `sub` is obtained from `xs` by deleting elements, without reordering. */
  predicate IsSubsequence<T(==)>(sub: seq<T>, xs: seq<T>)
    decreases |xs|
  {
    if sub == [] then true
    else if xs == [] then false
    else if sub[0] == xs[0] then IsSubsequence(sub[1..], xs[1..])
    else IsSubsequence(sub, xs[1..])
  }

  /** The filtered list keeps the original order. */
  lemma {:induction false} FilterIsSubsequence<T>(xs: seq<T>, keep: T -> bool)
    ensures IsSubsequence(Filter(xs, keep), xs)
  {
    if xs != [] {
      FilterIsSubsequence(xs[1..], keep);
    }
  }

  /** Filtering with a predicate that every element satisfies keeps the whole list. */
  lemma {:induction false} FilterKeepsAll<T>(xs: seq<T>, keep: T -> bool)
    requires forall i :: 0 <= i < |xs| ==> keep(xs[i])
    ensures Filter(xs, keep) == xs
  {
    if xs != [] {
      FilterKeepsAll(xs[1..], keep);
      assert xs == [xs[0]] + xs[1..];
    }
  }

  /** Two predicates that agree on every element of the list filter it alike. */
  lemma {:induction false} FilterCongruent<T>(xs: seq<T>, k1: T -> bool, k2: T -> bool)
    requires forall i :: 0 <= i < |xs| ==> k1(xs[i]) == k2(xs[i])
    ensures Filter(xs, k1) == Filter(xs, k2)
  {
    if xs != [] {
      FilterCongruent(xs[1..], k1, k2);
    }
  }

  /** The index `Array.prototype.slice` uses for an argument `i`: negative counts from the end, then clamp. */
  function ResolveIndex(i: int, len: nat): (r: nat)
    ensures r <= len
    ensures 0 <= i ==> r == if i < len then i else len
  {
    if i < 0 then (if len + i < 0 then 0 else len + i)
    else if i < len then i else len
  }

  /** `xs.slice(start, end)`. */
  function JsSlice<T>(xs: seq<T>, start: int, end: int): (r: seq<T>)
    ensures |r| <= |xs|
    ensures r != [] ==> ResolveIndex(start, |xs|) + |r| <= |xs|
    ensures forall i :: 0 <= i < |r| ==> r[i] == xs[ResolveIndex(start, |xs|) + i]
  {
    var a := ResolveIndex(start, |xs|);
    var b := ResolveIndex(end, |xs|);
    if a < b then xs[a..b] else []
  }

  function Min(a: int, b: int): int { if a < b then a else b }

  /**
   * The rows shown on page `page` with `perPage` rows per page:
   * `filteredDataList.slice(page * perPage - perPage, page * perPage)`.
   */
  function PageOf<T>(xs: seq<T>, page: int, perPage: nat): (r: seq<T>)
    ensures |r| <= perPage
  {
    JsSlice(xs, page * perPage - perPage, page * perPage)
  }

  /** `Math.ceil(len / perPage)`. */
  function TotalPages(len: nat, perPage: nat): (r: nat)
    requires perPage > 0
    ensures r * perPage >= len
    ensures r > 0 ==> (r - 1) * perPage < len
  {
    (len + perPage - 1) / perPage
  }

  /** An empty list has no pages. */
  lemma NoPagesWhenEmpty(perPage: nat)
    requires perPage > 0
    ensures TotalPages(0, perPage) == 0
  {
  }

  /**
   * Page `page` (counting from 1) holds the entries at indices
   * `[(page - 1) * perPage, page * perPage)`, clipped to the list, and so
   * never more than `perPage` of them.
   */
  lemma PageWindow<T>(xs: seq<T>, page: int, perPage: nat)
    requires page >= 1
    ensures var a := Min((page - 1) * perPage, |xs|);
            var b := Min(page * perPage, |xs|);
            0 <= a <= b && PageOf(xs, page, perPage) == xs[a..b]
    ensures |PageOf(xs, page, perPage)| <= perPage
  {
    var e := page * perPage;
    assert (page - 1) * perPage == e - perPage;
    Arith.MulMonotone(1, page, perPage);
  }

  /** A page number past the last page shows nothing. */
  lemma PageBeyondLastIsEmpty<T>(xs: seq<T>, page: int, perPage: nat)
    requires perPage > 0
    requires page > TotalPages(|xs|, perPage)
    ensures PageOf(xs, page, perPage) == []
  {
    var t := TotalPages(|xs|, perPage);
    Arith.MulMonotone(t, page - 1, perPage);
    PageWindow(xs, page, perPage);
  }

  /** What a table shows for any page number: at most a page, and nothing past the last page. */
  lemma PageBounds<T>(xs: seq<T>, page: int, perPage: nat)
    requires perPage > 0
    ensures page >= 1 ==> |PageOf(xs, page, perPage)| <= perPage
    ensures page > TotalPages(|xs|, perPage) ==> PageOf(xs, page, perPage) == []
  {
    if page >= 1 {
      PageWindow(xs, page, perPage);
    }
    if page > TotalPages(|xs|, perPage) {
      PageBeyondLastIsEmpty(xs, page, perPage);
    }
  }

  /** Pages 1 through `k`, one after the other. */
  function PagesUpTo<T>(xs: seq<T>, k: nat, perPage: nat): seq<T>
  {
    if k == 0 then [] else PagesUpTo(xs, k - 1, perPage) + PageOf(xs, k, perPage)
  }

  lemma JoinSlices<T>(xs: seq<T>, front: seq<T>, back: seq<T>, a: nat, b: nat)
    requires a <= b <= |xs| && front == xs[..a] && back == xs[a..b]
    ensures front + back == xs[..b]
  {
  }

  /** Pages 1 through `k` are exactly the first `k * perPage` entries (clipped). */
  lemma {:induction false} PagesUpToIsPrefix<T>(xs: seq<T>, k: nat, perPage: nat)
    ensures PagesUpTo(xs, k, perPage) == xs[..Min(k * perPage, |xs|)]
  {
    if k > 0 {
      var a := Min((k - 1) * perPage, |xs|);
      var b := Min(k * perPage, |xs|);
      PagesUpToIsPrefix(xs, k - 1, perPage);
      PageWindow(xs, k, perPage);
      JoinSlices(xs, PagesUpTo(xs, k - 1, perPage), PageOf(xs, k, perPage), a, b);
    }
  }

  /** Pages 1 through `TotalPages` list every entry once, in order. */
  lemma PagesPartition<T>(xs: seq<T>, perPage: nat)
    requires perPage > 0
    ensures PagesUpTo(xs, TotalPages(|xs|, perPage), perPage) == xs
  {
    PagesUpToIsPrefix(xs, TotalPages(|xs|, perPage), perPage);
    assert xs[..|xs|] == xs;
  }
}
