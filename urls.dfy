/**
 * URLs as `java.net.URL` reports them once it has accepted a string: the
 * crawler only ever reads the protocol, host, port, path and query.
 */
module Urls {
  import opened Wrappers
  import opened JavaStrings

  /**
   * The getters of an accepted `java.net.URL`: `getPort()` is `-1` (here
   * `None`) when the URL names no port, `getPath()` is `""` when there is no
   * path, and `getQuery()` is `null` (here `None`) when there is no `?`.
   */
  datatype UrlParts = UrlParts(
    protocol: string,
    host: string,
    port: Option<nat>,
    path: string,
    query: Option<string>,
    fragment: Option<string>)

  /** The outcome of `new URL(s)` for some string `s`. */
  type ParsedUrl = Option<UrlParts>

  /**
   * A reference reading of `new URL(s)` for the hierarchical form
   * `scheme://host[:port][path][?query][#fragment]`: the scheme ends at the
   * first `:` and is lower-cased, the authority runs to the first `/`, `?`
   * or `#`, the port is the digits after the first `:` of the authority
   * (none when there are no digits), the path runs to the first `?` or `#`
   * and the query to the first `#`. Any other shape is reported as rejected.
   */
  function ParseUrl(s: string): ParsedUrl
  {
    var i := Span(s, ":");
    if i == |s| || i == 0 then None
    else ParseHierarchical(ToLowerCase(s[..i]), s[i + 1..])
  }

  /** What follows `scheme:`: `//`, the authority, then the path, query and fragment. */
  function ParseHierarchical(protocol: string, rest: string): ParsedUrl
  {
    if !StartsWith(rest, "//") then None
    else
      var afterSlashes := rest[2..];
      var a := Span(afterSlashes, "/?#");
      ParseAuthority(protocol, afterSlashes[..a], afterSlashes[a..])
  }

  function ParseAuthority(protocol: string, authority: string, tail: string): ParsedUrl
  {
    var h := Span(authority, ":");
    var portText := if h == |authority| then "" else authority[h + 1..];
    if !AllDigits(portText) then None
    else
      var port := if portText == "" then None else Some(DigitsValue(portText));
      Some(UrlParts(protocol, authority[..h], port, PathOf(tail), QueryOf(tail), FragmentOf(tail)))
  }

  function PathOf(tail: string): string
  {
    tail[..Span(tail, "?#")]
  }

  function AfterPath(tail: string): string
  {
    tail[Span(tail, "?#")..]
  }

  function QueryOf(tail: string): Option<string>
  {
    var rest := AfterPath(tail);
    if rest != [] && rest[0] == '?' then Some(rest[1..Span(rest, "#")]) else None
  }

  function FragmentOf(tail: string): Option<string>
  {
    var rest := AfterPath(tail);
    var q := Span(rest, "#");
    if q < |rest| then Some(rest[q + 1..]) else None
  }

  /** The host with one leading `www.` removed, as both crawlers name a site. */
  function StripWww(host: string): (r: string)
    ensures StartsWith(host, "www.") ==> host == "www." + r
    ensures !StartsWith(host, "www.") ==> r == host
  {
    if StartsWith(host, "www.") then host[4..] else host
  }
}
