/**
 * The slice arithmetic both `DataController`s use to page a sorted list,
 * stated over unbounded integers, and the page count they report.
 */
module Pagination {
  import opened Wrappers
  import opened Int32

  function Min(a: int, b: int): int
  {
    if a <= b then a else b
  }

  /**
   * `List.subList(from, to)`: the elements from `from` up to `to`, or
   * `None` for the exception it throws unless `0 <= from <= to <= |s|`.
   */
  function SubList<T>(s: seq<T>, from: int, to: int): (r: Option<seq<T>>)
    ensures r.Some? <==> 0 <= from <= to <= |s|
    ensures r.Some? ==> |r.value| == to - from && forall k :: 0 <= k < |r.value| ==> r.value[k] == s[from + k]
  {
    if 0 <= from <= to <= |s| then Some(s[from..to]) else None
  }

  /** Page `page` of `size` elements: at most `size` of them, none past the end. */
  function PageOf<T>(s: seq<T>, page: nat, size: nat): (r: seq<T>)
    ensures |r| <= size
    ensures page * size >= |s| ==> r == []
    ensures page * size + size <= |s| ==> |r| == size
  {
    s[Min(page * size, |s|)..Min(page * size + size, |s|)]
  }

  /** The pages before `page`, one after the other. */
  function PagesBefore<T>(s: seq<T>, page: nat, size: nat): seq<T>
  {
    if page == 0 then [] else PagesBefore(s, page - 1, size) + PageOf(s, page - 1, size)
  }

  /** The pages before `page` are exactly the elements in front of where it starts. */
  lemma {:induction false} PagesTile<T>(s: seq<T>, page: nat, size: nat)
    ensures PagesBefore(s, page, size) == s[..Min(page * size, |s|)]
  {
    if page > 0 {
      PagesTile(s, page - 1, size);
      assert (page - 1) * size + size == page * size;
      assert (page - 1) * size <= page * size;
      var a, b := Min((page - 1) * size, |s|), Min(page * size, |s|);
      assert s[..a] + s[a..b] == s[..b];
    }
  }

  /**
   * The controllers' slice with `start = page * size` computed without
   * overflow: `subList(min(start, n), min(start + size, n))`.
   */
  function Slice<T>(s: seq<T>, page: int, size: int): Option<seq<T>>
  {
    var start := page * size;
    SubList(s, Min(start, |s|), Min(start + size, |s|))
  }

  /** For a page and a size that are not negative, the slice is that page. */
  lemma SliceIsPage<T>(s: seq<T>, page: nat, size: nat)
    ensures Slice(s, page, size) == Some(PageOf(s, page, size))
  {
  }

  /** A negative page with a positive size starts before the list: `subList` throws. */
  lemma SliceOfNegativePage<T>(s: seq<T>, page: int, size: int)
    requires page < 0 < size
    ensures Slice(s, page, size) == None
  {
    assert page * size < 0;
  }

  /**
   * `(int) Math.ceil((double) n / size)` for the list length `n`. Every
   * quotient of two `int`s is within half a unit in the last place of the
   * exact one and at least `1 / |size|` from the next integer, so the
   * ceiling is the integer one. Division by zero gives infinity (cast to
   * `MAX`) when `n > 0` and NaN (cast to 0) when `n == 0`.
   */
  function TotalPages(n: nat, size: int32): (r: int32)
    requires n <= MAX
    ensures 0 <= size ==> 0 <= r
    ensures size < 0 ==> r <= 0
  {
    if size > 0 then
      CeilDivBounds(n, size as int);
      ((n + size as int - 1) / size as int) as int32
    else if size == 0 then (if n > 0 then MAX as int32 else 0)
    else
      FloorDivBounds(n, -(size as int));
      (-(n / -(size as int))) as int32
  }

  lemma CeilDivBounds(n: nat, k: int)
    requires k > 0
    ensures 0 <= (n + k - 1) / k <= n
  {
    var q := (n + k - 1) / k;
    assert q * k + (n + k - 1) % k == n + k - 1;
    if q >= 1 {
      assert (q - 1) * k == q * k - k;
      ProductAtLeast(q - 1, k);
    }
  }

  lemma FloorDivBounds(n: nat, k: int)
    requires k > 0
    ensures 0 <= n / k <= n
  {
    var q := n / k;
    assert q * k + n % k == n;
    ProductAtLeast(q, k);
  }

  /** Multiplying by a positive whole number does not make a natural number smaller. */
  lemma ProductAtLeast(a: nat, k: int)
    requires k > 0
    ensures a * k >= a
  {
    assert a * k == a * (k - 1) + a;
    ProductOfNaturals(a, k - 1);
  }

  /** For a positive size, the page count is the least number of pages that hold `n` elements. */
  lemma TotalPagesCovers(n: nat, size: int32)
    requires n <= MAX && size > 0
    ensures var r := TotalPages(n, size) as int;
      r >= 0 && r * size as int >= n && (r == 0 || (r - 1) * size as int < n)
  {
    var k := size as int;
    var q := (n + k - 1) / k;
    assert q * k + (n + k - 1) % k == n + k - 1;
    assert 0 <= (n + k - 1) % k < k;
    assert (q - 1) * k == q * k - k;
  }

  /** The pages before the count hold the whole list, and the page at the count is empty. */
  lemma PagesCoverList<T>(s: seq<T>, size: int32)
    requires |s| <= MAX && size > 0
    ensures PagesBefore(s, TotalPages(|s|, size) as int, size as int) == s
    ensures PageOf(s, TotalPages(|s|, size) as int, size as int) == []
  {
    TotalPagesCovers(|s|, size);
    PagesTile(s, TotalPages(|s|, size) as int, size as int);
  }
}
