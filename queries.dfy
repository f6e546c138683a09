/**
 * What the two `DataProcessingService`s share: when a search term applies,
 * and the record fields a listing can be sorted by.
 */
module Queries {
  import opened Wrappers
  import opened JavaStrings

  /** `searchTerm != null && !searchTerm.trim().isEmpty()`: only then is the list filtered. */
  predicate IsSearchable(searchTerm: Option<string>)
  {
    searchTerm.Some? && !IsBlank(searchTerm.value)
  }

  /** The field a comparator orders by. */
  datatype SortKey = ByName | ByWebsite | ByCrawledAt
}
