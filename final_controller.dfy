/**
 * The listing endpoints of the Final crawler's `DataController`: the sorted
 * organisations are paged by hand, and the response carries the page, the
 * element count and the page count.
 */
module FinalDataController {
  import opened Wrappers
  import opened Int32
  import opened Entities
  import opened Pagination
  import opened FinalDataProcessing

  /** The response map, without the request parameters it echoes. */
  datatype PageView = PageView(
    content: seq<Organization>,
    totalElements: int,
    totalPages: int32,
    currentPage: int32,
    pageSize: int32)

  /**
   * The slice as written: `start = page * size` and `start + size` in `int`
   * arithmetic, which wraps around, then `subList(min(start, n), min(start + size, n))`.
   */
  function SliceAsWritten<T>(s: seq<T>, page: int32, size: int32): Option<seq<T>>
  {
    var start := Mul(page, size);
    SubList(s, Min(start as int, |s|), Min(Add(start, size) as int, |s|))
  }

  /** Where nothing overflows, the slice as written is the page. */
  lemma SliceAsWrittenInRange<T>(s: seq<T>, page: int32, size: int32)
    requires 0 <= page && 0 <= size && page as int * size as int + size as int <= MAX
    ensures SliceAsWritten(s, page, size) == Some(PageOf(s, page as int, size as int))
  {
    var p, k := page as int, size as int;
    ProductOfNaturals(p, k);
    MulInRange(page, size);
    var start := Mul(page, size);
    AddInRange(start, size);
    assert SliceAsWritten(s, page, size) == SubList(s, Min(p * k, |s|), Min(p * k + k, |s|));
  }

  /**
   * Page 2^30 of size 4 starts at 2^32, which wraps to 0: the slice as
   * written returns the first page where the list has no such page.
   */
  lemma SliceAsWrittenWraps<T>(s: seq<T>)
    requires 0 < |s| <= MAX
    ensures SliceAsWritten(s, 0x4000_0000, 4) == Some(s[..Min(4, |s|)])
    ensures PageOf(s, 0x4000_0000, 4) == []
  {
    assert Wrap(0x4000_0000 * 4) as int == 0;
    WrapInRange(4);
  }

  /** The response for the sorted list: the page cut from it, its length and the page count. */
  function Respond(sorted: seq<Organization>, page: int32, size: int32): Option<PageView>
    requires |sorted| <= MAX
  {
    var content := Slice(sorted, page as int, size as int);
    if content.None? then None
    else Some(PageView(content.value, |sorted|, TotalPages(|sorted|, size), page, size))
  }

  /**
   * For a page and a size that are not negative, the response holds the
   * page and the list's length, and for a positive size a page count under
   * which the pages hold the list; a negative page of a positive size fails.
   */
  lemma RespondFacts(sorted: seq<Organization>, page: int32, size: int32)
    requires |sorted| <= MAX
    ensures var r := Respond(sorted, page, size);
      (0 <= page && 0 <= size ==>
        r.Some? && r.value.content == PageOf(sorted, page as int, size as int) &&
        r.value.totalElements == |sorted| &&
        r.value.currentPage == page && r.value.pageSize == size &&
        (0 < size ==> PagesBefore(sorted, r.value.totalPages as int, size as int) == sorted)) &&
      (page < 0 < size ==> r.None?)
  {
    if 0 <= page && 0 <= size {
      SliceIsPage(sorted, page as int, size as int);
      if 0 < size {
        PagesCoverList(sorted, size);
      }
    }
    if page < 0 < size {
      SliceOfNegativePage(sorted, page as int, size as int);
    }
  }

  /**
   * `getAnswer`: `PageRequest.of(page, size)` rejects a negative page and a
   * size below one; then the organisations are processed and sorted, and
   * the page is cut from the result.
   */
  function GetAnswer(orgs: seq<Organization>, page: int32, size: int32, search: Option<string>,
                     sortBy: string, ascending: bool): Option<PageView>
    requires |orgs| <= MAX
  {
    if page < 0 || size < 1 then None
    else Respond(ProcessAndSortOrganizations(orgs, search, Some(sortBy), ascending), page, size)
  }

  /** `getAnswer` fails exactly for the requests `PageRequest` rejects. */
  lemma GetAnswerRejects(orgs: seq<Organization>, page: int32, size: int32, search: Option<string>,
                         sortBy: string, ascending: bool)
    requires |orgs| <= MAX
    ensures GetAnswer(orgs, page, size, search, sortBy, ascending).None? <==> page < 0 || size < 1
  {
    if 0 <= page && 1 <= size {
      RespondFacts(ProcessAndSortOrganizations(orgs, search, Some(sortBy), ascending), page, size);
    }
  }

  /**
   * An accepted request gets the page of the sorted list, its length and
   * a page count under which the pages hold the list.
   */
  lemma GetAnswerFacts(orgs: seq<Organization>, page: int32, size: int32, search: Option<string>,
                       sortBy: string, ascending: bool)
    requires |orgs| <= MAX && 0 <= page && 1 <= size
    ensures var r := GetAnswer(orgs, page, size, search, sortBy, ascending);
      var sorted := ProcessAndSortOrganizations(orgs, search, Some(sortBy), ascending);
      r.Some? && r.value.content == PageOf(sorted, page as int, size as int) &&
      r.value.totalElements == |sorted| &&
      PagesBefore(sorted, r.value.totalPages as int, size as int) == sorted &&
      r.value.currentPage == page && r.value.pageSize == size
  {
    RespondFacts(ProcessAndSortOrganizations(orgs, search, Some(sortBy), ascending), page, size);
  }

  /** `getCompanies`: the same slice rule, without the `PageRequest` checks. */
  function GetCompanies(orgs: seq<Organization>, search: Option<string>, sortBy: string,
                        ascending: bool, page: int32, size: int32): Option<PageView>
    requires |orgs| <= MAX
  {
    Respond(ProcessAndSortOrganizations(orgs, search, Some(sortBy), ascending), page, size)
  }

  /**
   * `getCompanies` answers every request with a non-negative page and size
   * by the page of the sorted list; a negative page makes `subList` throw.
   */
  lemma GetCompaniesFacts(orgs: seq<Organization>, search: Option<string>, sortBy: string,
                          ascending: bool, page: int32, size: int32)
    requires |orgs| <= MAX
    ensures var r := GetCompanies(orgs, search, sortBy, ascending, page, size);
      var sorted := ProcessAndSortOrganizations(orgs, search, Some(sortBy), ascending);
      (0 <= page && 0 <= size ==>
        r.Some? && r.value.content == PageOf(sorted, page as int, size as int) &&
        r.value.totalElements == |sorted| &&
        (0 < size ==> PagesBefore(sorted, r.value.totalPages as int, size as int) == sorted)) &&
      (page < 0 < size ==> r.None?)
  {
    RespondFacts(ProcessAndSortOrganizations(orgs, search, Some(sortBy), ascending), page, size);
  }
}
