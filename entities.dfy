/**
 * The stored records: `Organization` of the Final crawler and `Company` of
 * the example crawler. References that may be null are `Option`s; the Java
 * sets of an organisation are duplicate-free sequences; `LocalDateTime`
 * timestamps are instants on an integer clock.
 */
module Entities {
  import opened Wrappers

  datatype Organization = Organization(
    name: Option<string>,
    website: Option<string>,
    phones: seq<string>,
    emails: seq<string>,
    addresses: seq<string>,
    sourceUrl: Option<string>,
    crawledAt: Option<int>,
    description: Option<string>)

  datatype Company = Company(
    name: Option<string>,
    website: Option<string>,
    phones: seq<string>,
    emails: seq<string>,
    address: Option<string>,
    sourceUrl: Option<string>,
    crawledAt: Option<int>)
}
