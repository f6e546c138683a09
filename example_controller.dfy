/**
 * The `answer` endpoint of the example crawler's `DataController`: the
 * matching companies sorted by name, paged by hand.
 */
module ExampleDataController {
  import opened Wrappers
  import opened Seqs
  import opened Int32
  import opened Entities
  import opened Ordering
  import opened Queries
  import opened Pagination
  import opened ExampleDataProcessing

  /** The response map. */
  datatype AnswerView = AnswerView(
    content: seq<Company>,
    page: int32,
    size: int32,
    total: int,
    totalPages: int32)

  /**
   * The slice as written: `start = min(page * size, n)` and
   * `end = min((page + 1) * size, n)` in `int` arithmetic, then `subList(start, end)`.
   */
  function SliceAsWritten<T>(s: seq<T>, page: int32, size: int32): Option<seq<T>>
  {
    SubList(s, Min(Mul(page, size) as int, |s|), Min(Mul(Add(page, 1), size) as int, |s|))
  }

  /** Where nothing overflows, the slice as written is the page. */
  lemma SliceAsWrittenInRange<T>(s: seq<T>, page: int32, size: int32)
    requires 0 <= page && 0 <= size && (page as int + 1) * size as int <= MAX
    ensures SliceAsWritten(s, page, size) == Some(PageOf(s, page as int, size as int))
  {
    var p, k := page as int, size as int;
    assert (p + 1) * k == p * k + k;
    assert p * k <= MAX;
    MulInRange(page, size);
    if k > 0 {
      AddInRange(page, 1);
      MulInRange(Add(page, 1), size);
    } else {
      assert Mul(Add(page, 1), size) as int == 0;
    }
  }

  /**
   * Page 2^30 of size 4: `page * size` wraps to 0 and `(page + 1) * size`
   * to 4, so the slice as written is the first page, where there is none.
   */
  lemma SliceAsWrittenWraps<T>(s: seq<T>)
    requires 0 < |s| <= MAX
    ensures SliceAsWritten(s, 0x4000_0000, 4) == Some(s[..Min(4, |s|)])
    ensures PageOf(s, 0x4000_0000, 4) == []
  {
    assert Wrap(0x4000_0000 * 4) as int == 0;
    WrapInRange(0x4000_0001);
    assert Wrap(0x4000_0001 * 4) as int == 4;
  }

  /** The response for the sorted list: the page cut from it, its length and the page count. */
  function Respond(sorted: seq<Company>, page: int32, size: int32): Option<AnswerView>
    requires |sorted| <= MAX
  {
    var content := Slice(sorted, page as int, size as int);
    if content.None? then None
    else Some(AnswerView(content.value, page, size, |sorted|, TotalPages(|sorted|, size)))
  }

  /**
   * For a page and a size that are not negative, the response holds the
   * page and the list's length, and for a positive size a page count under
   * which the pages hold the list; a negative page of a positive size fails.
   */
  lemma RespondFacts(sorted: seq<Company>, page: int32, size: int32)
    requires |sorted| <= MAX
    ensures var r := Respond(sorted, page, size);
      (0 <= page && 0 <= size ==>
        r.Some? && r.value.content == PageOf(sorted, page as int, size as int) &&
        r.value.total == |sorted| && r.value.page == page && r.value.size == size &&
        (0 < size ==> PagesBefore(sorted, r.value.totalPages as int, size as int) == sorted)) &&
      (page < 0 < size ==> r.None?)
  {
    if 0 <= page && 0 <= size {
      SliceIsPage(sorted, page as int, size as int);
      if 0 < size {
        PagesCoverList(sorted, size);
      }
    }
    if page < 0 < size {
      SliceOfNegativePage(sorted, page as int, size as int);
    }
  }

  /** `getAnswer`: the companies matching `search`, sorted by name ascending, then paged. */
  function GetAnswer(companies: seq<Company>, page: int32, size: int32, search: Option<string>): Option<AnswerView>
    requires |companies| <= MAX
  {
    Respond(FilterAndSortCompanies(companies, search, Some("name"), true), page, size)
  }

  /**
   * For a page and a size that are not negative, the content is the page
   * of the matches sorted by name, case-insensitively with nameless
   * companies last.
   */
  lemma GetAnswerSortedByName(companies: seq<Company>, page: int32, size: int32, search: Option<string>)
    requires |companies| <= MAX
    requires 0 <= page && 0 <= size
    ensures var r := GetAnswer(companies, page, size, search);
      var sorted := FilterAndSortCompanies(companies, search, Some("name"), true);
      r.Some? && r.value.content == PageOf(sorted, page as int, size as int) &&
      r.value.total == |sorted| && SortedBy(r.value.content, KeyComparator(ByName))
  {
    var sorted := FilterAndSortCompanies(companies, search, Some("name"), true);
    SortKeyFallbacks();
    ComparatorIsTotalPreorder(Some("name"), true);
    SortBySorted(Filter(companies, Keep(search)), ComparatorOf(Some("name"), true));
    RespondFacts(sorted, page, size);
  }
}
