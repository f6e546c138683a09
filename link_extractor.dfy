/**
 * `LinkExtractor.extractLinks` of the Final crawler: every anchor's absolute
 * href that `java.net.URL` accepts with protocol `http` or `https` is
 * rebuilt from its parts without the fragment and without the default ports.
 */
module FinalLinkExtractor {
  import opened Wrappers
  import opened JavaStrings
  import opened Seqs
  import opened Urls

  /**
   * What `anchor.attr("abs:href")` gives for one `a[href]` element: the empty
   * string, or a non-empty string together with the outcome of `new URL` on it.
   */
  datatype AbsHref = EmptyHref | Href(parsed: ParsedUrl)

  predicate IsWebProtocol(protocol: string)
  {
    protocol == "http" || protocol == "https"
  }

  /** `":" + port`, unless the URL names no port or names 80 or 443. */
  function PortText(port: Option<nat>): string
  {
    if port.Some? && port.value != 80 && port.value != 443 then ":" + NatToString(port.value) else ""
  }

  /** `"?" + query`, unless there is no query or it is empty. */
  function QueryText(query: Option<string>): string
  {
    if query.Some? && query.value != "" then "?" + query.value else ""
  }

  /** The `cleanUrl` string built for an accepted URL. */
  function CleanUrl(u: UrlParts): string
  {
    u.protocol + "://" + u.host + PortText(u.port) + u.path + QueryText(u.query)
  }

  /** The link one anchor contributes, if any. */
  function AnchorLink(a: AbsHref): Option<string>
  {
    match a
    case Href(Some(u)) => if IsWebProtocol(u.protocol) then Some(CleanUrl(u)) else None
    case _ => None
  }

  /**
   * The result of `extractLinks(html, baseUrl)`. The `HashSet` is modelled in
   * insertion order: each link once, at its first occurrence.
   */
  function Links(html: Option<string>, anchors: seq<AbsHref>): seq<string>
  {
    if html.None? || html.value == "" then [] else Distinct(FilterMap(anchors, AnchorLink))
  }

  method ExtractLinks(html: Option<string>, anchors: seq<AbsHref>) returns (links: seq<string>)
    ensures links == Links(html, anchors)
    ensures NoDuplicates(links)
  {
    links := [];
    if html.None? || html.value == "" {
      return;
    }
    var i := 0;
    while i < |anchors|
      invariant 0 <= i <= |anchors|
      invariant links == Distinct(FilterMap(anchors[..i], AnchorLink))
    {
      assert anchors[..i + 1] == anchors[..i] + [anchors[i]];
      FilterMapSnoc(anchors[..i], anchors[i], AnchorLink);
      var link := AnchorLink(anchors[i]);
      if link.Some? {
        DistinctSnoc(FilterMap(anchors[..i], AnchorLink), link.value);
        if link.value !in links {
          links := links + [link.value];
        }
      } else {
        assert FilterMap(anchors[..i], AnchorLink) + [] == FilterMap(anchors[..i], AnchorLink);
      }
      i := i + 1;
    }
    assert anchors[..i] == anchors;
  }

  /**
   * A string is a result exactly when some anchor is an accepted http or
   * https URL whose clean form it is; empty and malformed hrefs, and other
   * protocols, contribute nothing and take nothing away from the others.
   */
  lemma LinksMembership(html: Option<string>, anchors: seq<AbsHref>, l: string)
    ensures l in Links(html, anchors) <==>
      html.Some? && html.value != "" &&
      exists i :: 0 <= i < |anchors| && AnchorLink(anchors[i]) == Some(l)
  {
    FilterMapMembership(anchors, AnchorLink, l);
    DistinctMembership(FilterMap(anchors, AnchorLink), l);
  }

  lemma CleanUrlPrefix(u: UrlParts)
    ensures StartsWith(CleanUrl(u), u.protocol + "://")
  {
    var pre := u.protocol + "://";
    var rest := u.host + PortText(u.port) + u.path + QueryText(u.query);
    assert CleanUrl(u) == pre + rest;
    assert (pre + rest)[..|pre|] == pre;
  }

  lemma AnchorLinkIsWeb(a: AbsHref)
    requires AnchorLink(a).Some?
    ensures StartsWith(AnchorLink(a).value, "http://") || StartsWith(AnchorLink(a).value, "https://")
  {
    CleanUrlPrefix(a.parsed.value);
    assert "http" + "://" == "http://";
    assert "https" + "://" == "https://";
  }

  /** Every result is an `http://` or `https://` URL. */
  lemma LinksAreWeb(html: Option<string>, anchors: seq<AbsHref>, l: string)
    requires l in Links(html, anchors)
    ensures StartsWith(l, "http://") || StartsWith(l, "https://")
  {
    LinksMembership(html, anchors, l);
    var i :| 0 <= i < |anchors| && AnchorLink(anchors[i]) == Some(l);
    AnchorLinkIsWeb(anchors[i]);
  }

  /**
   * The URLs whose clean form the reference parser reads back unchanged:
   * a web protocol, a host free of `:`, `/`, `?`, `#`, a path that is empty
   * or absolute and free of `?` and `#`, and a query free of `#`.
   */
  predicate WellFormed(u: UrlParts)
  {
    IsWebProtocol(u.protocol) &&
    NoneOf(u.host, ":/?#") &&
    (u.path == [] || u.path[0] == '/') && NoneOf(u.path, "?#") &&
    (u.query.Some? ==> NoneOf(u.query.value, "#"))
  }

  /** The parts `CleanUrl` keeps: no default port, no empty query, no fragment. */
  function Canonical(u: UrlParts): UrlParts
  {
    UrlParts(
      u.protocol, u.host,
      if u.port.Some? && u.port.value != 80 && u.port.value != 443 then u.port else None,
      u.path,
      if u.query.Some? && u.query.value != "" then u.query else None,
      None)
  }

  lemma PortTextRoundTrip(port: Option<nat>)
    ensures var t := PortText(port);
      t == [] || (t[0] == ':' && NoneOf(t, "/?#") &&
                  (forall k :: 1 <= k < |t| ==> IsDigit(t[k])))
    ensures var t := PortText(port);
      NoneOf(t, "/?#") &&
      (t == [] <==> Canonical(UrlParts("", "", port, "", None, None)).port.None?)
    ensures var t := PortText(port);
      t != [] ==> (forall k :: 0 <= k < |t[1..]| ==> IsDigit(t[1..][k])) &&
                  port.Some? && DigitsValue(t[1..]) == port.value
  {
    if port.Some? && port.value != 80 && port.value != 443 {
      var t := PortText(port);
      assert t[1..] == NatToString(port.value);
      NatToStringRoundTrip(port.value);
    }
  }

  lemma {:induction false} ParseTail(path: string, query: Option<string>)
    requires (path == [] || path[0] == '/') && NoneOf(path, "?#")
    requires query.Some? ==> NoneOf(query.value, "#")
    ensures var tail := path + QueryText(query);
      PathOf(tail) == path &&
      QueryOf(tail) == (if query.Some? && query.value != "" then query else None) &&
      FragmentOf(tail) == None
  {
    var qt := QueryText(query);
    SpanOfFree(path, qt, "?#");
    assert (path + qt)[..|path|] == path;
    assert (path + qt)[|path|..] == qt;
    if qt != [] {
      SpanOfFree(qt, [], "#");
      assert qt + [] == qt;
    }
  }

  lemma {:induction false} ParseCleanAuthority(u: UrlParts)
    requires WellFormed(u)
    ensures ParseAuthority(u.protocol, u.host + PortText(u.port), u.path + QueryText(u.query)) == Some(Canonical(u))
  {
    var pt := PortText(u.port);
    PortTextRoundTrip(u.port);
    SpanOfFree(u.host, pt, ":");
    var authority := u.host + pt;
    assert authority[..|u.host|] == u.host;
    assert pt != [] ==> authority[|u.host| + 1..] == pt[1..];
    ParseTail(u.path, u.query);
  }

  lemma ParseWebScheme(protocol: string, rest: string)
    requires IsWebProtocol(protocol)
    ensures ParseUrl(protocol + ":" + rest) == ParseHierarchical(protocol, rest)
  {
    var s := protocol + ":" + rest;
    assert s == protocol + (":" + rest);
    SpanOfFree(protocol, ":" + rest, ":");
    assert s[..|protocol|] == protocol;
    assert s[|protocol| + 1..] == rest;
    assert ToLowerCase(protocol) == protocol;
  }

  lemma ParseCleanHierarchical(u: UrlParts)
    requires WellFormed(u)
    ensures ParseHierarchical(u.protocol, "//" + (u.host + PortText(u.port) + u.path + QueryText(u.query))) == Some(Canonical(u))
  {
    var pt := PortText(u.port);
    var qt := QueryText(u.query);
    var authority := u.host + pt;
    var tail := u.path + qt;
    var afterSlashes := u.host + pt + u.path + qt;
    assert afterSlashes == authority + tail;
    var rest := "//" + afterSlashes;
    assert rest[..2] == "//";
    assert StartsWith(rest, "//");
    assert rest[2..] == afterSlashes;
    PortTextRoundTrip(u.port);
    SpanOfFree(authority, tail, "/?#");
    var a := Span(afterSlashes, "/?#");
    assert a == |authority|;
    assert afterSlashes[..a] == authority;
    assert afterSlashes[a..] == tail;
    assert ParseHierarchical(u.protocol, rest) == ParseAuthority(u.protocol, authority, tail);
    ParseCleanAuthority(u);
  }

  /** The reference parser reads a clean URL back as its canonical parts. */
  lemma ParseCleanUrl(u: UrlParts)
    requires WellFormed(u)
    ensures ParseUrl(CleanUrl(u)) == Some(Canonical(u))
  {
    var rest := "//" + (u.host + PortText(u.port) + u.path + QueryText(u.query));
    assert CleanUrl(u) == u.protocol + ":" + rest;
    ParseWebScheme(u.protocol, rest);
    ParseCleanHierarchical(u);
  }

  /** Cleaning is idempotent: parsing a result and cleaning it again gives it back. */
  lemma CleanUrlIdempotent(u: UrlParts)
    requires WellFormed(u)
    ensures AnchorLink(Href(ParseUrl(CleanUrl(u)))) == Some(CleanUrl(u))
  {
    ParseCleanUrl(u);
  }
}
