/**
 * `DataProcessingService` of the example crawler: the companies that have
 * contacts, filtered by a search term and sorted by a chosen field. The
 * repository's `findCompaniesWithContacts` is the input `companies`.
 */
module ExampleDataProcessing {
  import opened Wrappers
  import opened JavaStrings
  import opened Seqs
  import opened Ordering
  import opened Entities
  import opened Queries

  /**
   * The test for the lower-cased term `term`: it occurs in the lower-cased
   * name, website or address, or in a phone or e-mail as stored.
   */
  predicate Matches(company: Company, term: string)
  {
    (company.name.Some? && Contains(ToLowerCase(company.name.value), term)) ||
    (company.website.Some? && Contains(ToLowerCase(company.website.value), term)) ||
    (company.address.Some? && Contains(ToLowerCase(company.address.value), term)) ||
    (exists i :: 0 <= i < |company.phones| && Contains(company.phones[i], term)) ||
    (exists i :: 0 <= i < |company.emails| && Contains(company.emails[i], term))
  }

  /** `matchesSearchTerm`: every company passes a null or blank term. */
  predicate MatchesSearchTerm(company: Company, searchTerm: Option<string>)
  {
    !IsSearchable(searchTerm) || Matches(company, ToLowerCase(searchTerm.value))
  }

  function Keep(searchTerm: Option<string>): Company -> bool
  {
    (company: Company) => MatchesSearchTerm(company, searchTerm)
  }

  /**
   * `getComparator`'s switch: a null key means name; `website` and
   * `crawledat` (in any case) pick their field, every other key is name.
   */
  function SortKeyOf(sortBy: Option<string>): SortKey
  {
    var key := if sortBy.Some? then ToLowerCase(sortBy.value) else "name";
    if key == "website" then ByWebsite
    else if key == "crawledat" then ByCrawledAt
    else ByName
  }

  /** The field is chosen regardless of case. */
  lemma SortKeyIgnoresCase(sortBy: string)
    ensures SortKeyOf(Some(sortBy)) == SortKeyOf(Some(ToLowerCase(sortBy)))
  {
    assert ToLowerCase(ToLowerCase(sortBy)) == ToLowerCase(sortBy);
  }

  /** A null key sorts by name. */
  lemma SortKeyFallbacks()
    ensures SortKeyOf(None) == ByName && SortKeyOf(Some("name")) == ByName
  {
    LowerCaseOfLower("name");
  }

  /** `crawled_at`, which this switch does not name, unlike the Final crawler's, sorts by name. */
  lemma SortKeyUnderscoreIsName()
    ensures SortKeyOf(Some("crawled_at")) == ByName
  {
    var key := "crawled_at";
    LowerCaseOfLower(key);
    assert |key| == 10;
    assert key != "website" && key != "crawledat";
  }

  lemma SortKeyCrawledAt()
    ensures SortKeyOf(Some("CrawledAt")) == ByCrawledAt
  {
    LowerCaseEq("CrawledAt", "crawledat");
  }

  predicate HasKey(key: SortKey, company: Company)
  {
    match key
    case ByName => company.name.Some?
    case ByWebsite => company.website.Some?
    case ByCrawledAt => company.crawledAt.Some?
  }

  /**
   * Name and website compare under `String.CASE_INSENSITIVE_ORDER`, the
   * crawl time in its natural order; nulls last in each.
   */
  function KeyComparator(key: SortKey): (Company, Company) -> bool
  {
    match key
    case ByName => Comparing((c: Company) => c.name, NullsLast(CaseInsensitiveOrder()))
    case ByWebsite => Comparing((c: Company) => c.website, NullsLast(CaseInsensitiveOrder()))
    case ByCrawledAt => Comparing((c: Company) => c.crawledAt, NullsLast(IntLe))
  }

  /** `getComparator(sortBy, ascending)`: reversed unless ascending. */
  function ComparatorOf(sortBy: Option<string>, ascending: bool): (Company, Company) -> bool
  {
    var cmp := KeyComparator(SortKeyOf(sortBy));
    if ascending then cmp else Reversed(cmp)
  }

  lemma ComparatorIsTotalPreorder(sortBy: Option<string>, ascending: bool)
    ensures IsTotalPreorder(ComparatorOf(sortBy, ascending))
  {
    var key := SortKeyOf(sortBy);
    match key
    case ByName =>
      CaseInsensitiveOrderIsTotalPreorder();
      NullsLastIsTotalPreorder(CaseInsensitiveOrder());
      ComparingIsTotalPreorder((c: Company) => c.name, NullsLast(CaseInsensitiveOrder()));
    case ByWebsite =>
      CaseInsensitiveOrderIsTotalPreorder();
      NullsLastIsTotalPreorder(CaseInsensitiveOrder());
      ComparingIsTotalPreorder((c: Company) => c.website, NullsLast(CaseInsensitiveOrder()));
    case ByCrawledAt =>
      IntLeIsTotalPreorder();
      NullsLastIsTotalPreorder(IntLe);
      ComparingIsTotalPreorder((c: Company) => c.crawledAt, NullsLast(IntLe));
    if !ascending {
      ReversedIsTotalPreorder(KeyComparator(key));
    }
  }

  /** `filterAndSortCompanies`: filter, then the sort under the chosen comparator. */
  function FilterAndSortCompanies(companies: seq<Company>, searchTerm: Option<string>,
                                  sortBy: Option<string>, ascending: bool): seq<Company>
  {
    SortBy(Filter(companies, Keep(searchTerm)), ComparatorOf(sortBy, ascending))
  }

  /**
   * The result is the matching companies, each as often as given, sorted
   * under the chosen comparator; a company is in it exactly when it is
   * given and matches the term.
   */
  lemma FilterAndSortFacts(companies: seq<Company>, searchTerm: Option<string>,
                           sortBy: Option<string>, ascending: bool, company: Company)
    ensures var r := FilterAndSortCompanies(companies, searchTerm, sortBy, ascending);
      multiset(r) == multiset(Filter(companies, Keep(searchTerm))) &&
      SortedBy(r, ComparatorOf(sortBy, ascending)) &&
      (company in r <==> company in companies && MatchesSearchTerm(company, searchTerm))
  {
    var filtered := Filter(companies, Keep(searchTerm));
    var r := FilterAndSortCompanies(companies, searchTerm, sortBy, ascending);
    ComparatorIsTotalPreorder(sortBy, ascending);
    SortBySorted(filtered, ComparatorOf(sortBy, ascending));
    FilterMembership(companies, Keep(searchTerm), company);
    assert company in r <==> company in multiset(r);
    assert company in filtered <==> company in multiset(filtered);
  }

  /** A null or blank term keeps every company. */
  lemma BlankTermKeepsAll(companies: seq<Company>, searchTerm: Option<string>,
                          sortBy: Option<string>, ascending: bool)
    requires !IsSearchable(searchTerm)
    ensures multiset(FilterAndSortCompanies(companies, searchTerm, sortBy, ascending)) == multiset(companies)
  {
    FilterOfAll(companies, Keep(searchTerm));
  }

  /** Companies without the sort field come last when ascending and first when descending. */
  lemma NullsPlacement(companies: seq<Company>, searchTerm: Option<string>,
                       sortBy: Option<string>, ascending: bool, i: nat, j: nat)
    requires i < j < |FilterAndSortCompanies(companies, searchTerm, sortBy, ascending)|
    ensures var r := FilterAndSortCompanies(companies, searchTerm, sortBy, ascending);
      var key := SortKeyOf(sortBy);
      (ascending && !HasKey(key, r[i]) ==> !HasKey(key, r[j])) &&
      (!ascending && HasKey(key, r[i]) ==> HasKey(key, r[j]))
  {
    var r := FilterAndSortCompanies(companies, searchTerm, sortBy, ascending);
    ComparatorIsTotalPreorder(sortBy, ascending);
    SortBySorted(Filter(companies, Keep(searchTerm)), ComparatorOf(sortBy, ascending));
    assert ComparatorOf(sortBy, ascending)(r[i], r[j]);
  }

  /** Names that differ only in letter case tie under the name comparator. */
  lemma CaseOnlyNamesTie(a: Company, b: Company)
    requires a.name.Some? && b.name.Some? && ToLowerCase(a.name.value) == ToLowerCase(b.name.value)
    ensures KeyComparator(ByName)(a, b) && KeyComparator(ByName)(b, a)
  {
    var x, y := a.name.value, b.name.value;
    FoldCaseIsLowerCase(x);
    FoldCaseIsLowerCase(y);
    LexLeIsTotalPreorder();
    LexLeTotal(FoldCase(x), FoldCase(y));
  }
}
