/**
 * `DataProcessingService` of the Final crawler: the stored organisations,
 * filtered by a search term and sorted by a chosen field, and the fork-join
 * variant that always sorts by name. Reading the repository is the input
 * `orgs`, in the order `findAll` returns it.
 */
module FinalDataProcessing {
  import opened Wrappers
  import opened JavaStrings
  import opened Seqs
  import opened Ordering
  import opened Entities
  import opened Queries

  /**
   * The filter's test for the lower-cased term `search`: it occurs in the
   * lower-cased name or website, in a phone as stored, or in a lower-cased
   * e-mail or address.
   */
  predicate Matches(org: Organization, search: string)
  {
    (org.name.Some? && Contains(ToLowerCase(org.name.value), search)) ||
    (org.website.Some? && Contains(ToLowerCase(org.website.value), search)) ||
    (exists i :: 0 <= i < |org.phones| && Contains(org.phones[i], search)) ||
    (exists i :: 0 <= i < |org.emails| && Contains(ToLowerCase(org.emails[i]), search)) ||
    (exists i :: 0 <= i < |org.addresses| && Contains(ToLowerCase(org.addresses[i]), search))
  }

  /** Whether an organisation survives the search: always, unless the term applies. */
  function Keep(searchTerm: Option<string>): Organization -> bool
  {
    (org: Organization) => !IsSearchable(searchTerm) || Matches(org, ToLowerCase(searchTerm.value))
  }

  /**
   * `getComparator`'s choice of field: a null or empty key and every key
   * other than `website` and `crawledat`/`crawled_at` (in any case) mean name.
   */
  function SortKeyOf(sortBy: Option<string>): SortKey
  {
    if sortBy.None? || sortBy.value == [] then ByName
    else
      var key := ToLowerCase(sortBy.value);
      if key == "website" then ByWebsite
      else if key == "crawledat" || key == "crawled_at" then ByCrawledAt
      else ByName
  }

  /** The field is chosen regardless of case. */
  lemma SortKeyIgnoresCase(sortBy: string)
    ensures SortKeyOf(Some(sortBy)) == SortKeyOf(Some(ToLowerCase(sortBy)))
  {
    assert ToLowerCase(ToLowerCase(sortBy)) == ToLowerCase(sortBy);
  }

  /** A null or empty key, and a key the switch does not name, fall back to name. */
  lemma SortKeyFallbacks()
    ensures SortKeyOf(None) == ByName && SortKeyOf(Some("")) == ByName
    ensures SortKeyOf(Some("name")) == ByName && SortKeyOf(Some("phone")) == ByName
  {
    LowerCaseOfLower("name");
    LowerCaseOfLower("phone");
  }

  /** The keys the switch names pick their field in any case. */
  lemma SortKeyWebsite()
    ensures SortKeyOf(Some("Website")) == ByWebsite
  {
    LowerCaseEq("Website", "website");
  }

  lemma SortKeyCrawledAt()
    ensures SortKeyOf(Some("crawledAt")) == ByCrawledAt
  {
    LowerCaseEq("crawledAt", "crawledat");
  }

  lemma SortKeyCrawledUnderscore()
    ensures SortKeyOf(Some("CRAWLED_AT")) == ByCrawledAt
  {
    LowerCaseEq("CRAWLED_AT", "crawled_at");
  }

  /** The organisation has a value for the field `key` (the comparator puts nulls last). */
  predicate HasKey(key: SortKey, org: Organization)
  {
    match key
    case ByName => org.name.Some?
    case ByWebsite => org.website.Some?
    case ByCrawledAt => org.crawledAt.Some?
  }

  /** `Comparator.comparing(field, Comparator.nullsLast(compareTo))`. */
  function KeyComparator(key: SortKey): (Organization, Organization) -> bool
  {
    match key
    case ByName => Comparing((o: Organization) => o.name, NullsLast(LexLe))
    case ByWebsite => Comparing((o: Organization) => o.website, NullsLast(LexLe))
    case ByCrawledAt => Comparing((o: Organization) => o.crawledAt, NullsLast(IntLe))
  }

  /** The comparator for `sortBy`, reversed when the order is descending. */
  function OrderOf(sortBy: Option<string>, ascending: bool): (Organization, Organization) -> bool
  {
    var cmp := KeyComparator(SortKeyOf(sortBy));
    if ascending then cmp else Reversed(cmp)
  }

  lemma KeyComparatorIsTotalPreorder(key: SortKey)
    ensures IsTotalPreorder(KeyComparator(key))
  {
    match key
    case ByName =>
      LexLeIsTotalPreorder();
      NullsLastIsTotalPreorder(LexLe);
      ComparingIsTotalPreorder((o: Organization) => o.name, NullsLast(LexLe));
    case ByWebsite =>
      LexLeIsTotalPreorder();
      NullsLastIsTotalPreorder(LexLe);
      ComparingIsTotalPreorder((o: Organization) => o.website, NullsLast(LexLe));
    case ByCrawledAt =>
      IntLeIsTotalPreorder();
      NullsLastIsTotalPreorder(IntLe);
      ComparingIsTotalPreorder((o: Organization) => o.crawledAt, NullsLast(IntLe));
  }

  /** Every comparator `getComparator` can hand out honours `Comparator`'s contract. */
  lemma OrderIsTotalPreorder(sortBy: Option<string>, ascending: bool)
    ensures IsTotalPreorder(OrderOf(sortBy, ascending))
  {
    KeyComparatorIsTotalPreorder(SortKeyOf(sortBy));
    if !ascending {
      ReversedIsTotalPreorder(KeyComparator(SortKeyOf(sortBy)));
    }
  }

  /** `processAndSortOrganizations`: filter, then the sort under the chosen order. */
  function ProcessAndSortOrganizations(orgs: seq<Organization>, searchTerm: Option<string>,
                                       sortBy: Option<string>, ascending: bool): seq<Organization>
  {
    SortBy(Filter(orgs, Keep(searchTerm)), OrderOf(sortBy, ascending))
  }

  /**
   * The result holds the matching organisations, each as often as in the
   * repository, sorted under the chosen order; an organisation is in it
   * exactly when it is stored and the search does not apply or it matches.
   */
  lemma ProcessAndSortFacts(orgs: seq<Organization>, searchTerm: Option<string>,
                            sortBy: Option<string>, ascending: bool, org: Organization)
    ensures var r := ProcessAndSortOrganizations(orgs, searchTerm, sortBy, ascending);
      multiset(r) == multiset(Filter(orgs, Keep(searchTerm))) &&
      SortedBy(r, OrderOf(sortBy, ascending)) &&
      (org in r <==>
        org in orgs && (!IsSearchable(searchTerm) || Matches(org, ToLowerCase(searchTerm.value))))
  {
    var filtered := Filter(orgs, Keep(searchTerm));
    var r := ProcessAndSortOrganizations(orgs, searchTerm, sortBy, ascending);
    OrderIsTotalPreorder(sortBy, ascending);
    SortBySorted(filtered, OrderOf(sortBy, ascending));
    FilterMembership(orgs, Keep(searchTerm), org);
    assert org in r <==> org in multiset(r);
    assert org in filtered <==> org in multiset(filtered);
  }

  /** A null or blank term keeps every stored organisation. */
  lemma BlankTermKeepsAll(orgs: seq<Organization>, searchTerm: Option<string>,
                          sortBy: Option<string>, ascending: bool)
    requires !IsSearchable(searchTerm)
    ensures multiset(ProcessAndSortOrganizations(orgs, searchTerm, sortBy, ascending)) == multiset(orgs)
  {
    FilterOfAll(orgs, Keep(searchTerm));
  }

  /**
   * Organisations without the sort field come after all others in
   * ascending order, and before all others in descending order.
   */
  lemma NullsPlacement(orgs: seq<Organization>, searchTerm: Option<string>,
                       sortBy: Option<string>, ascending: bool, i: nat, j: nat)
    requires i < j < |ProcessAndSortOrganizations(orgs, searchTerm, sortBy, ascending)|
    ensures var r := ProcessAndSortOrganizations(orgs, searchTerm, sortBy, ascending);
      var key := SortKeyOf(sortBy);
      (ascending && !HasKey(key, r[i]) ==> !HasKey(key, r[j])) &&
      (!ascending && HasKey(key, r[i]) ==> HasKey(key, r[j]))
  {
    var r := ProcessAndSortOrganizations(orgs, searchTerm, sortBy, ascending);
    OrderIsTotalPreorder(sortBy, ascending);
    SortBySorted(Filter(orgs, Keep(searchTerm)), OrderOf(sortBy, ascending));
    assert OrderOf(sortBy, ascending)(r[i], r[j]);
  }

  /** Some organisation of `s` has no name. */
  predicate SomeNameless(s: seq<Organization>)
  {
    exists i :: 0 <= i < |s| && s[i].name.None?
  }

  /**
   * `processWithForkJoinPool`: the same filter, then a sort by
   * `Comparator.comparing(Organization::getName)`. That comparator throws a
   * `NullPointerException` on a null name, and a sort of two or more
   * elements compares every element, so such a list yields `None`.
   * Without null names the comparator is `compareTo` on names.
   */
  function ProcessWithForkJoinPool(orgs: seq<Organization>, searchTerm: Option<string>): Option<seq<Organization>>
  {
    var filtered := Filter(orgs, Keep(searchTerm));
    if |filtered| >= 2 && SomeNameless(filtered) then None
    else Some(SortBy(filtered, KeyComparator(ByName)))
  }

  /**
   * The fork-join variant fails exactly when two or more organisations
   * match and one of them has no name; otherwise it returns what
   * `processAndSortOrganizations` returns for an ascending sort by name.
   */
  lemma ForkJoinAgreesWithSortByName(orgs: seq<Organization>, searchTerm: Option<string>)
    ensures var filtered := Filter(orgs, Keep(searchTerm));
      ProcessWithForkJoinPool(orgs, searchTerm).None? <==> |filtered| >= 2 && SomeNameless(filtered)
    ensures ProcessWithForkJoinPool(orgs, searchTerm).Some? ==>
      ProcessWithForkJoinPool(orgs, searchTerm).value ==
        ProcessAndSortOrganizations(orgs, searchTerm, Some("name"), true)
  {
    SortKeyFallbacks();
  }
}
