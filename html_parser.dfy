/**
 * `HtmlParser.extractLinks` of the example crawler: hrefs taken from the
 * page by a regular expression are resolved against the base URL's protocol
 * and host, kept when they are web URLs that `java.net.URL` accepts, and
 * collected in a `LinkedHashSet`.
 */
module ExampleHtmlParser {
  import opened Wrappers
  import opened JavaStrings
  import opened Seqs
  import opened Urls

  predicate IsWebLink(link: string)
  {
    StartsWith(link, "http://") || StartsWith(link, "https://")
  }

  /** The rewrite of a relative link; the base URL's port and path play no part. */
  function Resolve(protocol: string, host: string, link: string): string
  {
    if StartsWith(link, "/") then protocol + "://" + host + link
    else if StartsWith(link, "./") then protocol + "://" + host + link[1..]
    else if !StartsWith(link, "http://") && !StartsWith(link, "https://") then protocol + "://" + host + "/" + link
    else link
  }

  /** The link one match contributes, if any: `newUrl` is `new URL(...)`. */
  function MatchLink(base: UrlParts, href: string, newUrl: string -> ParsedUrl): Option<string>
  {
    if IsBlank(href) then None
    else
      var link := Resolve(base.protocol, base.host, href);
      if IsWebLink(link) && newUrl(link).Some? then Some(link) else None
  }

  /**
   * The result of `extractLinks(htmlContent, baseUrl)`, where `hrefs` are
   * the `group(1)` values of the link pattern's matches in `htmlContent`.
   */
  function Links(htmlContent: Option<string>, baseUrl: Option<string>, hrefs: seq<string>,
                 newUrl: string -> ParsedUrl): seq<string>
  {
    if htmlContent.None? || IsBlank(htmlContent.value) || baseUrl.None? then []
    else
      match newUrl(baseUrl.value)
      case None => []
      case Some(base) => Distinct(FilterMap(hrefs, h => MatchLink(base, h, newUrl)))
  }

  method ExtractLinks(htmlContent: Option<string>, baseUrl: Option<string>, hrefs: seq<string>,
                      newUrl: string -> ParsedUrl) returns (links: seq<string>)
    ensures links == Links(htmlContent, baseUrl, hrefs, newUrl)
    ensures NoDuplicates(links)
  {
    links := [];
    if htmlContent.None? || IsBlank(htmlContent.value) || baseUrl.None? {
      return;
    }
    var parsedBase := newUrl(baseUrl.value);
    if parsedBase.None? {
      return;
    }
    var base := parsedBase.value;
    var f := h => MatchLink(base, h, newUrl);
    var i := 0;
    while i < |hrefs|
      invariant 0 <= i <= |hrefs|
      invariant links == Distinct(FilterMap(hrefs[..i], f))
    {
      assert hrefs[..i + 1] == hrefs[..i] + [hrefs[i]];
      FilterMapSnoc(hrefs[..i], hrefs[i], f);
      var href := hrefs[i];
      if !IsBlank(href) {
        var link := Resolve(base.protocol, base.host, href);
        if IsWebLink(link) && newUrl(link).Some? {
          DistinctSnoc(FilterMap(hrefs[..i], f), link);
          if link !in links {
            links := links + [link];
          }
        } else {
          assert FilterMap(hrefs[..i], f) + [] == FilterMap(hrefs[..i], f);
        }
      } else {
        assert FilterMap(hrefs[..i], f) + [] == FilterMap(hrefs[..i], f);
      }
      i := i + 1;
    }
    assert hrefs[..i] == hrefs;
  }

  /**
   * A string is a result exactly when the page and base URL were usable and
   * some non-blank href resolves to it, it is a web URL and `new URL`
   * accepts it. In particular every result starts with `http://` or
   * `https://`, and there is no result for blank HTML, a missing base URL or
   * one that `new URL` rejects.
   */
  lemma LinksMembership(htmlContent: Option<string>, baseUrl: Option<string>, hrefs: seq<string>,
                        newUrl: string -> ParsedUrl, l: string)
    ensures l in Links(htmlContent, baseUrl, hrefs, newUrl) <==>
      htmlContent.Some? && !IsBlank(htmlContent.value) && baseUrl.Some? && newUrl(baseUrl.value).Some? &&
      exists i :: 0 <= i < |hrefs| && !IsBlank(hrefs[i]) &&
        var base := newUrl(baseUrl.value).value;
        l == Resolve(base.protocol, base.host, hrefs[i]) && IsWebLink(l) && newUrl(l).Some?
  {
    if htmlContent.Some? && !IsBlank(htmlContent.value) && baseUrl.Some? && newUrl(baseUrl.value).Some? {
      var base := newUrl(baseUrl.value).value;
      var f := h => MatchLink(base, h, newUrl);
      FilterMapMembership(hrefs, f, l);
      DistinctMembership(FilterMap(hrefs, f), l);
    }
  }

  /**
   * A link that is not already `http://` or `https://` ends up under the
   * base's protocol and host followed by `/`; an absolute one is kept as is.
   */
  lemma ResolveUnderBase(protocol: string, host: string, link: string)
    ensures IsWebLink(link) ==> Resolve(protocol, host, link) == link
    ensures !IsWebLink(link) ==> StartsWith(Resolve(protocol, host, link), protocol + "://" + host + "/")
  {
    var root := protocol + "://" + host;
    if StartsWith(link, "http://") {
      assert link[..7][0] == 'h';
    } else if StartsWith(link, "https://") {
      assert link[..8][0] == 'h';
    } else {
      var r := Resolve(protocol, host, link);
      if StartsWith(link, "/") {
        assert r == root + link;
        assert link == "/" + link[1..];
        assert r == (root + "/") + link[1..];
      } else if StartsWith(link, "./") {
        assert link[1..] == "/" + link[2..];
        assert r == (root + "/") + link[2..];
      } else {
        assert r == (root + "/") + link;
      }
      assert r[..|root + "/"|] == root + "/";
    }
  }

  /** `"/p"` and `"./p"` both become `protocol://host/p`. */
  lemma ResolveExamples()
    ensures Resolve("https", "example.com", "/p") == "https://example.com/p"
    ensures Resolve("https", "example.com", "./p") == "https://example.com/p"
    ensures Resolve("https", "example.com", "p") == "https://example.com/p"
  {
    assert "./p"[..1][0] == '.';
    assert "./p"[..2] == "./";
    assert "./p"[1..] == "/p";
  }
}
