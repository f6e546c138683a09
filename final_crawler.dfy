/**
 * `CrawlerService` of the Final crawler: a job's frontier (queue, visited
 * URLs, processed and found counters), the worker loop that polls it, the
 * per-page work (fetch, parse, save, link admission) and the monitor that
 * decides when the job is complete. The three HTTP clients, Jsoup, the
 * repository's query and the clock are inputs (a `Web`); the worker runs
 * alone and each of its iterations is atomic with respect to the monitor.
 */
module FinalCrawlerService {
  import opened Wrappers
  import opened JavaStrings
  import opened Seqs
  import opened Urls
  import opened Entities
  import opened FetchChain
  import opened FinalCrawlJob
  import CP = FinalContactParser
  import LE = FinalLinkExtractor

  /** The defaults of `crawler.max.depth` and `crawler.max.pages`. */
  const DefaultMaxDepth := 3
  const DefaultMaxPages := 200

  /** Everything the service learns from outside about one URL. */
  datatype Web = Web(
    fetch: string -> seq<Option<string>>,  // WebClient, RestTemplate, Feign: content, or None for null/exception
    document: string -> CP.Document,       // what Jsoup and the patterns find in the page at a URL
    anchors: string -> seq<LE.AbsHref>,    // the abs:href of each anchor of that page
    newUrl: string -> ParsedUrl,           // new java.net.URL(s)
    now: int)                              // the clock as the page is saved

  /**
   * How discovered links enter the queue: as written (only visited URLs are
   * refused) or skipping also the URLs already queued.
   */
  datatype Admission = AsWritten | SkipQueued

  datatype Config = Config(maxDepth: int, maxPages: int, admission: Admission)

  /** The state a job's workers share, with the service's error counter and store. */
  datatype Run = Run(
    queue: seq<string>,
    visited: set<string>,
    processed: int,
    found: int,
    totalPages: int,
    parseErrors: int,
    repository: seq<Organization>)

  function Max(a: int, b: int): int
  {
    if a < b then b else a
  }

  /** A job right after `startCrawling` has offered the start URLs. */
  function Seed(startUrls: seq<string>, parseErrors: int, repository: seq<Organization>): Run
  {
    Run(startUrls, {}, 0, 0, |startUrls|, parseErrors, repository)
  }

  // ---------------------------------------------------------------- one page

  /** The page content after the fallback chain; never null. */
  function FetchHtml(web: Web, url: string): string
  {
    Chain(web.fetch(url)).GetOr("")
  }

  /** `extractDomainName`: the host without one leading `www.`, or `"Unknown"`. */
  function ExtractDomainName(url: string, newUrl: string -> ParsedUrl): (r: string)
    ensures newUrl(url).None? ==> r == "Unknown"
    ensures newUrl(url).Some? ==> var host := newUrl(url).value.host;
      if StartsWith(host, "www.") then host == "www." + r else r == host
  {
    match newUrl(url)
    case None => "Unknown"
    case Some(u) => StripWww(u.host)
  }

  predicate HasContacts(c: CP.Contacts)
  {
    c.emails != [] || c.phones != [] || c.addresses != []
  }

  /** The organisation built from a page's contacts. */
  function NewOrganization(c: CP.Contacts, url: string, web: Web): Organization
  {
    Organization(Some(c.organizationName.GetOr(ExtractDomainName(url, web.newUrl))), Some(url),
                 c.phones, c.emails, c.addresses, Some(url), Some(web.now), c.description)
  }

  /** The stored organisations whose phones include `phone`, in store order. */
  function WithPhone(repository: seq<Organization>, phone: string): seq<Organization>
  {
    if repository == [] then []
    else
      var o := repository[|repository| - 1];
      WithPhone(repository[..|repository| - 1], phone) + (if phone in o.phones then [o] else [])
  }

  lemma {:induction false} WithPhoneMembership(repository: seq<Organization>, phone: string, o: Organization)
    ensures o in WithPhone(repository, phone) <==> o in repository && phone in o.phones
  {
    if repository != [] {
      var init := repository[..|repository| - 1];
      assert repository == init + [repository[|repository| - 1]];
      WithPhoneMembership(init, phone, o);
    }
  }

  /** The outcome of `findByPhone`: a single result, none, or too many (which throws). */
  datatype Lookup = NotFound | Found(existing: Organization) | NonUnique

  function FindByPhone(repository: seq<Organization>, phone: string): Lookup
  {
    var m := WithPhone(repository, phone);
    if m == [] then NotFound else if |m| == 1 then Found(m[0]) else NonUnique
  }

  /** The probe key: the first phone, or `""` when there is none. */
  function FirstPhone(org: Organization): string
  {
    if org.phones == [] then "" else org.phones[0]
  }

  /**
   * `saveOrganizationIfNew`: the store afterwards, or `None` when the call
   * throws (a non-unique lookup, or a match without a website).
   */
  function SaveIfNew(repository: seq<Organization>, org: Organization): Option<seq<Organization>>
  {
    match FindByPhone(repository, FirstPhone(org))
    case NotFound => Some(repository + [org])
    case NonUnique => None
    case Found(e) =>
      if e.website.None? then None
      else if e.website != org.website then Some(repository + [org])
      else Some(repository)
  }

  /**
   * The organisation is stored exactly when no stored organisation has its
   * first phone, or a single one does and its website differs; the call
   * throws exactly when several have it, or the single one has no website.
   */
  lemma SaveIfNewIff(repository: seq<Organization>, org: Organization)
    ensures var m := WithPhone(repository, FirstPhone(org));
      (SaveIfNew(repository, org) == Some(repository + [org]) <==>
        (forall o :: o in repository ==> FirstPhone(org) !in o.phones) ||
        (|m| == 1 && m[0].website.Some? && m[0].website != org.website)) &&
      (SaveIfNew(repository, org).None? <==> |m| > 1 || (|m| == 1 && m[0].website.None?)) &&
      (SaveIfNew(repository, org) == Some(repository) <==> |m| == 1 && m[0].website.Some? && m[0].website == org.website)
  {
    var m := WithPhone(repository, FirstPhone(org));
    assert |repository + [org]| != |repository|;
    if m != [] {
      WithPhoneMembership(repository, FirstPhone(org), m[0]);
    } else {
      forall o | o in repository ensures FirstPhone(org) !in o.phones {
        WithPhoneMembership(repository, FirstPhone(org), o);
      }
    }
  }

  /** What the per-page step leaves in the counters and store, and the links it hands on, if any. */
  datatype PageOutcome = PageOutcome(parseErrors: int, found: int, repository: seq<Organization>, links: Option<seq<string>>)

  /**
   * Fetch, parse and save one page: an empty page and a page without
   * contacts count a parse error; a save that throws counts one too and
   * ends the page before its links are read.
   */
  function Page(r: Run, url: string, web: Web): (o: PageOutcome)
    ensures o.found == r.found || o.found == r.found + 1
  {
    var html := FetchHtml(web, url);
    if html == "" then PageOutcome(r.parseErrors + 1, r.found, r.repository, None)
    else
      var c := CP.ContactsOf(Some(html), web.document(url));
      var links := LE.Links(Some(html), web.anchors(url));
      if !HasContacts(c) then PageOutcome(r.parseErrors + 1, r.found, r.repository, Some(links))
      else
        match SaveIfNew(r.repository, NewOrganization(c, url, web))
        case None => PageOutcome(r.parseErrors + 1, r.found, r.repository, None)
        case Some(repo) => PageOutcome(r.parseErrors, r.found + 1, repo, Some(links))
  }

  /** The queue after offering `links` in order. */
  function Admit(queue: seq<string>, visited: set<string>, links: seq<string>, maxPages: int, admission: Admission): seq<string>
  {
    if links == [] then queue
    else
      var q := Admit(queue, visited, links[..|links| - 1], maxPages, admission);
      var l := links[|links| - 1];
      if l !in visited && |q| < maxPages && (admission == AsWritten || l !in q) then q + [l] else q
  }

  /**
   * Admission only appends links that are not visited, and only while the
   * queue is shorter than `maxPages`, so it never grows the queue past the
   * larger of its old length and `maxPages`; skipping queued URLs keeps the
   * queue free of repeats.
   */
  lemma {:induction false} AdmitFacts(queue: seq<string>, visited: set<string>, links: seq<string>, maxPages: int, admission: Admission)
    ensures var q := Admit(queue, visited, links, maxPages, admission);
      queue <= q && |q| <= Max(|queue|, maxPages) &&
      (forall i :: |queue| <= i < |q| ==> q[i] !in visited && q[i] in links) &&
      (admission == SkipQueued && NoDuplicates(queue) ==> NoDuplicates(q))
  {
    if links != [] {
      var init := links[..|links| - 1];
      AdmitFacts(queue, visited, init, maxPages, admission);
      var q := Admit(queue, visited, init, maxPages, admission);
      assert forall i :: |queue| <= i < |q| ==> q[i] in init ==> q[i] in links;
    }
  }

  /** The link step, taken only below the depth limit. */
  function AdmitLinks(r: Run, links: seq<string>, cfg: Config): Run
  {
    if 0 < cfg.maxDepth then
      var q := Admit(r.queue, r.visited, links, cfg.maxPages, cfg.admission);
      r.(queue := q, totalPages := Max(r.totalPages, |q| + r.processed))
    else r
  }

  /** One visited URL's work, after it has been marked visited and counted. */
  function Visit(r: Run, url: string, cfg: Config, web: Web): (v: Run)
    ensures v.visited == r.visited && v.processed == r.processed
  {
    var o := Page(r, url, web);
    var r1 := r.(parseErrors := o.parseErrors, found := o.found, repository := o.repository);
    if o.links.Some? then AdmitLinks(r1, o.links.value, cfg) else r1
  }

  /** Visiting a page only appends to the queue and never lowers `totalPages`. */
  lemma VisitGrows(r: Run, url: string, cfg: Config, web: Web)
    ensures var v := Visit(r, url, cfg, web);
      r.queue <= v.queue && r.totalPages <= v.totalPages
  {
    var o := Page(r, url, web);
    if o.links.Some? {
      AdmitFacts(r.queue, r.visited, o.links.value, cfg.maxPages, cfg.admission);
    }
  }

  /** An empty page changes nothing but the parse-error count: nothing is saved, no link is read. */
  lemma VisitEmptyHtml(r: Run, url: string, cfg: Config, web: Web)
    requires FetchHtml(web, url) == ""
    ensures Visit(r, url, cfg, web) == r.(parseErrors := r.parseErrors + 1)
  {
  }

  /**
   * A page counts as a found organisation exactly when it has content,
   * its contacts are not all empty and saving does not throw, whether or
   * not the save stored anything; otherwise it counts a parse error.
   */
  lemma VisitFoundIff(r: Run, url: string, cfg: Config, web: Web)
    ensures var v := Visit(r, url, cfg, web);
      var html := FetchHtml(web, url);
      var c := CP.ContactsOf(Some(html), web.document(url));
      (v.found == r.found + 1 <==>
        html != "" && HasContacts(c) && SaveIfNew(r.repository, NewOrganization(c, url, web)).Some?) &&
      (v.found == r.found <==> v.parseErrors == r.parseErrors + 1) &&
      (v.found == r.found || v.found == r.found + 1)
  {
  }

  // ---------------------------------------------------------------- the worker

  /** The head of the loop of `crawlUrls` for the worker started at depth 0. */
  predicate WorkerGoesOn(r: Run, cfg: Config)
  {
    0 <= cfg.maxDepth && r.processed < cfg.maxPages
  }

  /**
   * One iteration: take the head of the queue; a visited URL is dropped,
   * any other is marked visited and counted before its page is visited.
   */
  function Poll(r: Run, cfg: Config, web: Web): (p: Run)
    requires r.queue != []
    ensures p.visited == r.visited + {r.queue[0]}
    ensures p.processed == r.processed + (if r.queue[0] in r.visited then 0 else 1)
    ensures r.queue[0] in r.visited ==> p == r.(queue := r.queue[1..])
  {
    var url := r.queue[0];
    var r1 := r.(queue := r.queue[1..]);
    if url in r.visited then r1
    else Visit(r1.(visited := r.visited + {url}, processed := r.processed + 1), url, cfg, web)
  }

  /** The worker loop until its budget is spent or its queue is empty. */
  function Crawl(r: Run, cfg: Config, web: Web): Run
    decreases cfg.maxPages - r.processed, |r.queue|
  {
    if !WorkerGoesOn(r, cfg) || r.queue == [] then r
    else Crawl(Poll(r, cfg, web), cfg, web)
  }

  lemma {:induction false} CrawlStops(r: Run, cfg: Config, web: Web)
    ensures var c := Crawl(r, cfg, web); !WorkerGoesOn(c, cfg) || c.queue == []
    decreases cfg.maxPages - r.processed, |r.queue|
  {
    if WorkerGoesOn(r, cfg) && r.queue != [] {
      CrawlStops(Poll(r, cfg, web), cfg, web);
    }
  }

  lemma CrawlOfEmptyQueue(r: Run, cfg: Config, web: Web)
    requires r.queue == []
    ensures Crawl(r, cfg, web) == r
  {
  }

  /** Crawling never forgets a visited URL and never lowers `totalPages`. */
  lemma {:induction false} CrawlGrows(r: Run, cfg: Config, web: Web)
    ensures var c := Crawl(r, cfg, web);
      r.visited <= c.visited && r.totalPages <= c.totalPages && r.processed <= c.processed
    decreases cfg.maxPages - r.processed, |r.queue|
  {
    if WorkerGoesOn(r, cfg) && r.queue != [] {
      var url := r.queue[0];
      if url !in r.visited {
        VisitGrows(r.(queue := r.queue[1..], visited := r.visited + {url}, processed := r.processed + 1), url, cfg, web);
      }
      CrawlGrows(Poll(r, cfg, web), cfg, web);
    }
  }

  /**
   * What one worker keeps true: each processed URL is a distinct visited
   * one, processing stays within `maxPages`, found pages are processed
   * pages, `totalPages` covers the queue and the processed pages, and the
   * queue stays within the larger of `bound` and `maxPages`.
   */
  ghost predicate Inv(r: Run, cfg: Config, bound: int)
  {
    0 <= r.found <= r.processed && r.processed == |r.visited| &&
    r.processed <= Max(0, cfg.maxPages) &&
    |r.queue| + r.processed <= r.totalPages &&
    |r.queue| <= Max(bound, cfg.maxPages)
  }

  lemma SeedInv(startUrls: seq<string>, parseErrors: int, repository: seq<Organization>, cfg: Config)
    ensures Inv(Seed(startUrls, parseErrors, repository), cfg, |startUrls|)
  {
  }

  lemma VisitKeepsInv(r: Run, url: string, cfg: Config, web: Web, bound: int)
    requires Inv(r, cfg, bound) && r.found < r.processed
    ensures Inv(Visit(r, url, cfg, web), cfg, bound)
  {
    var o := Page(r, url, web);
    if o.links.Some? {
      AdmitFacts(r.queue, r.visited, o.links.value, cfg.maxPages, cfg.admission);
    }
  }

  lemma PollKeepsInv(r: Run, cfg: Config, web: Web, bound: int)
    requires Inv(r, cfg, bound) && r.queue != [] && WorkerGoesOn(r, cfg)
    ensures Inv(Poll(r, cfg, web), cfg, bound)
  {
    var url := r.queue[0];
    if url !in r.visited {
      var r1 := r.(queue := r.queue[1..], visited := r.visited + {url}, processed := r.processed + 1);
      assert |r1.visited| == |r.visited| + 1;
      VisitKeepsInv(r1, url, cfg, web, bound);
    }
  }

  lemma {:induction false} CrawlKeepsInv(r: Run, cfg: Config, web: Web, bound: int)
    requires Inv(r, cfg, bound)
    ensures Inv(Crawl(r, cfg, web), cfg, bound)
    decreases cfg.maxPages - r.processed, |r.queue|
  {
    if WorkerGoesOn(r, cfg) && r.queue != [] {
      PollKeepsInv(r, cfg, web, bound);
      CrawlKeepsInv(Poll(r, cfg, web), cfg, web, bound);
    }
  }

  /** From the seeds, a job's crawl keeps all of `Inv` with the seed count as bound. */
  lemma CrawlFromSeed(startUrls: seq<string>, parseErrors: int, repository: seq<Organization>, cfg: Config, web: Web)
    ensures var c := Crawl(Seed(startUrls, parseErrors, repository), cfg, web);
      c.processed == |c.visited| && c.processed <= Max(0, cfg.maxPages) && 0 <= c.found <= c.processed &&
      |startUrls| <= c.totalPages && |c.queue| + c.processed <= c.totalPages &&
      |c.queue| <= Max(|startUrls|, cfg.maxPages)
  {
    SeedInv(startUrls, parseErrors, repository, cfg);
    CrawlKeepsInv(Seed(startUrls, parseErrors, repository), cfg, web, |startUrls|);
    CrawlGrows(Seed(startUrls, parseErrors, repository), cfg, web);
  }

  // ---------------------------------------------------------------- the monitor

  /** The fields of a `CrawlJob` the monitor reads and writes. */
  datatype JobView = JobView(
    status: JobStatus,
    completedAt: Option<int>,
    processedPages: int,
    foundOrganizations: int,
    errorMessage: Option<string>,
    totalPages: int)

  /** How one `Thread.sleep(1000)` of the monitor ends. */
  datatype Tick = Slept | Interrupted(message: Option<string>)

  /** One round of the monitor loop at time `now`. */
  function MonitorTick(j: JobView, queueEmpty: bool, processed: int, found: int, tick: Tick, now: int): JobView
  {
    if j.status != Running then j
    else
      match tick
      case Interrupted(m) => j.(status := Failed, errorMessage := m, completedAt := Some(now))
      case Slept =>
        var j1 := j.(processedPages := processed, foundOrganizations := found);
        if queueEmpty && processed >= j.totalPages then j1.(status := Completed, completedAt := Some(now)) else j1
  }

  /**
   * The monitor touches only a running job; it completes it, stamping the
   * time and the counters, exactly when the queue is empty and the
   * processed count has reached `totalPages`; an interrupted sleep fails it
   * with the exception's message.
   */
  lemma MonitorTransitions(j: JobView, queueEmpty: bool, processed: int, found: int, tick: Tick, now: int)
    ensures var k := MonitorTick(j, queueEmpty, processed, found, tick, now);
      (j.status != Running ==> k == j) &&
      k.totalPages == j.totalPages &&
      (j.status == Running ==>
        (k.status == Completed <==> tick == Slept && queueEmpty && processed >= j.totalPages) &&
        (k.status == Failed <==> tick.Interrupted?) &&
        (k.status == Completed ==> k.completedAt == Some(now) && k.processedPages == processed && k.foundOrganizations == found) &&
        (k.status == Failed ==> k.completedAt == Some(now) && k.errorMessage == tick.message) &&
        (k.status == Running || k.status == Completed || k.status == Failed))
  {
  }

  // ---------------------------------------------------------------- findings

  const EmptyPage := CP.Document([], [], [], [], [], "", [])
  const PageB := UrlParts("http", "b", None, "", None, None)
  const PageC := UrlParts("http", "c", None, "", None, None)

  /** A site where `a` links to `b` and `c`, and `b` links to `c` again; no page has contacts. */
  function DiamondWeb(now: int): Web
  {
    Web(u => [Some("x")],
        u => EmptyPage,
        u => if u == "a" then [LE.Href(Some(PageB)), LE.Href(Some(PageC))]
             else if u == "http://b" then [LE.Href(Some(PageC))] else [],
        u => None,
        now)
  }

  lemma DiamondCleanUrls()
    ensures LE.AnchorLink(LE.Href(Some(PageB))) == Some("http://b")
    ensures LE.AnchorLink(LE.Href(Some(PageC))) == Some("http://c")
  {
    assert LE.CleanUrl(PageB) == "http://b";
    assert LE.CleanUrl(PageC) == "http://c";
  }

  lemma DiamondAnchorsOfA()
    ensures LE.Links(Some("x"), [LE.Href(Some(PageB)), LE.Href(Some(PageC))]) == ["http://b", "http://c"]
  {
    DiamondCleanUrls();
    var two := [LE.Href(Some(PageB)), LE.Href(Some(PageC))];
    var one := [LE.Href(Some(PageB))];
    assert two[..1] == one;
    assert one[..0] == [];
    assert FilterMap(one, LE.AnchorLink) == ["http://b"];
    var found := ["http://b", "http://c"];
    assert FilterMap(two, LE.AnchorLink) == found;
    assert found[..1] == ["http://b"];
    assert ["http://b"][..0] == [];
    assert Distinct(["http://b"]) == ["http://b"];
  }

  lemma DiamondAnchorsOfB()
    ensures LE.Links(Some("x"), [LE.Href(Some(PageC))]) == ["http://c"]
  {
    DiamondCleanUrls();
    var one := [LE.Href(Some(PageC))];
    assert one[..0] == [];
    assert FilterMap(one, LE.AnchorLink) == ["http://c"];
    assert ["http://c"][..0] == [];
  }

  lemma DiamondLinks()
    ensures LE.Links(Some("x"), [LE.Href(Some(PageB)), LE.Href(Some(PageC))]) == ["http://b", "http://c"]
    ensures LE.Links(Some("x"), [LE.Href(Some(PageC))]) == ["http://c"]
    ensures LE.Links(Some("x"), []) == []
  {
    DiamondAnchorsOfA();
    DiamondAnchorsOfB();
  }

  lemma DiamondPage(r: Run, url: string, now: int)
    ensures Page(r, url, DiamondWeb(now)) ==
      PageOutcome(r.parseErrors + 1, r.found, r.repository,
                  Some(LE.Links(Some("x"), DiamondWeb(now).anchors(url))))
  {
    assert FetchHtml(DiamondWeb(now), url) == "x";
    assert CP.ContactsOf(Some("x"), EmptyPage) == CP.NoContacts;
  }

  const DiamondConfig := Config(DefaultMaxDepth, DefaultMaxPages, AsWritten)

  lemma DiamondVisit(r: Run, url: string, now: int)
    ensures Visit(r, url, DiamondConfig, DiamondWeb(now)) ==
      AdmitLinks(r.(parseErrors := r.parseErrors + 1), LE.Links(Some("x"), DiamondWeb(now).anchors(url)), DiamondConfig)
  {
    DiamondPage(r, url, now);
  }

  lemma DiamondAdmit()
    ensures Admit([], {"a"}, ["http://b", "http://c"], DefaultMaxPages, AsWritten) == ["http://b", "http://c"]
    ensures Admit(["http://c"], {"a", "http://b"}, ["http://c"], DefaultMaxPages, AsWritten) == ["http://c", "http://c"]
  {
    assert ["http://b", "http://c"][..1] == ["http://b"];
    assert ["http://b"][..0] == [];
    assert ["http://c"][..0] == [];
    assert Admit([], {"a"}, ["http://b"], DefaultMaxPages, AsWritten) == ["http://b"];
  }

  lemma DiamondStep1(parseErrors: int, repository: seq<Organization>, now: int)
    ensures Poll(Seed(["a"], parseErrors, repository), DiamondConfig, DiamondWeb(now)) ==
      Run(["http://b", "http://c"], {"a"}, 1, 0, 3, parseErrors + 1, repository)
  {
    var s0 := Seed(["a"], parseErrors, repository);
    var r1 := Run([], {"a"}, 1, 0, 1, parseErrors, repository);
    assert s0.queue[1..] == [] && s0.visited + {"a"} == {"a"};
    assert Poll(s0, DiamondConfig, DiamondWeb(now)) == Visit(r1, "a", DiamondConfig, DiamondWeb(now));
    DiamondVisitStart(parseErrors, repository, now);
  }

  lemma DiamondVisitStart(parseErrors: int, repository: seq<Organization>, now: int)
    ensures Visit(Run([], {"a"}, 1, 0, 1, parseErrors, repository), "a", DiamondConfig, DiamondWeb(now)) ==
      Run(["http://b", "http://c"], {"a"}, 1, 0, 3, parseErrors + 1, repository)
  {
    var web := DiamondWeb(now);
    var r1 := Run([], {"a"}, 1, 0, 1, parseErrors, repository);
    DiamondVisit(r1, "a", now);
    var links := LE.Links(Some("x"), web.anchors("a"));
    assert web.anchors("a") == [LE.Href(Some(PageB)), LE.Href(Some(PageC))];
    DiamondLinks();
    assert links == ["http://b", "http://c"];
    DiamondAdmit();
    var r1e := r1.(parseErrors := parseErrors + 1);
    assert AdmitLinks(r1e, links, DiamondConfig) == r1e.(queue := ["http://b", "http://c"], totalPages := 3);
  }

  lemma DiamondStep2(parseErrors: int, repository: seq<Organization>, now: int)
    ensures Poll(Run(["http://b", "http://c"], {"a"}, 1, 0, 3, parseErrors, repository), DiamondConfig, DiamondWeb(now)) ==
      Run(["http://c", "http://c"], {"a", "http://b"}, 2, 0, 4, parseErrors + 1, repository)
  {
    var s1 := Run(["http://b", "http://c"], {"a"}, 1, 0, 3, parseErrors, repository);
    var r2 := Run(["http://c"], {"a", "http://b"}, 2, 0, 3, parseErrors, repository);
    assert s1.queue[0] == "http://b" && s1.queue[1..] == ["http://c"];
    assert "http://b" != "a";
    assert s1.visited + {"http://b"} == {"a", "http://b"};
    assert Poll(s1, DiamondConfig, DiamondWeb(now)) == Visit(r2, "http://b", DiamondConfig, DiamondWeb(now));
    DiamondVisit(r2, "http://b", now);
    assert DiamondWeb(now).anchors("http://b") == [LE.Href(Some(PageC))];
    DiamondLinks();
    DiamondAdmit();
  }

  lemma DiamondStep3(parseErrors: int, repository: seq<Organization>, now: int)
    ensures Poll(Run(["http://c", "http://c"], {"a", "http://b"}, 2, 0, 4, parseErrors, repository), DiamondConfig, DiamondWeb(now)) ==
      Run(["http://c"], {"a", "http://b", "http://c"}, 3, 0, 4, parseErrors + 1, repository)
  {
    var s2 := Run(["http://c", "http://c"], {"a", "http://b"}, 2, 0, 4, parseErrors, repository);
    var r3 := Run(["http://c"], {"a", "http://b", "http://c"}, 3, 0, 4, parseErrors, repository);
    assert s2.queue[1..] == ["http://c"] && s2.queue[0] !in s2.visited;
    assert Poll(s2, DiamondConfig, DiamondWeb(now)) == Visit(r3, "http://c", DiamondConfig, DiamondWeb(now));
    DiamondVisit(r3, "http://c", now);
    assert DiamondWeb(now).anchors("http://c") == [];
    DiamondLinks();
  }

  /** The site above, crawled with a budget of one page. */
  const BudgetConfig := Config(DefaultMaxDepth, 1, AsWritten)

  /**
   * With `maxPages = 1` and the single start URL `a` (so a single worker),
   * page `a` has its first link `b` admitted and counted in `totalPages`;
   * then the worker has spent its budget and stops with `b` still queued,
   * so the monitor never sees an empty queue and the job stays running.
   */
  lemma BudgetStallsMonitor(parseErrors: int, repository: seq<Organization>, j: JobView, now: int)
    requires j.status == Running
    ensures var c := Crawl(Seed(["a"], parseErrors, repository), BudgetConfig, DiamondWeb(now));
      c.queue == ["http://b"] && c.processed == 1 && c.totalPages == 2 && !WorkerGoesOn(c, BudgetConfig) &&
      MonitorTick(j, c.queue == [], c.processed, c.found, Slept, now).status == Running
  {
    var web := DiamondWeb(now);
    var s0 := Seed(["a"], parseErrors, repository);
    var r1 := Run([], {"a"}, 1, 0, 1, parseErrors, repository);
    assert s0.queue[1..] == [] && s0.visited + {"a"} == {"a"};
    assert Poll(s0, BudgetConfig, web) == Visit(r1, "a", BudgetConfig, web);
    DiamondPage(r1, "a", now);
    assert web.anchors("a") == [LE.Href(Some(PageB)), LE.Href(Some(PageC))];
    DiamondLinks();
    assert Admit([], {"a"}, ["http://b", "http://c"], 1, AsWritten) == ["http://b"] by {
      assert ["http://b", "http://c"][..1] == ["http://b"];
      assert ["http://b"][..0] == [];
    }
    var s1 := Run(["http://b"], {"a"}, 1, 0, 2, parseErrors + 1, repository);
    assert Poll(s0, BudgetConfig, web) == s1;
    assert Crawl(s1, BudgetConfig, web) == s1;
  }

  /**
   * On that site the queue takes `c` twice, so `totalPages` ends at 4
   * while only 3 pages are processed and the queue is empty; the monitor
   * never completes the job.
   */
  lemma DuplicateLinkStallsMonitor(parseErrors: int, repository: seq<Organization>, j: JobView, now: int)
    requires j.status == Running
    ensures var c := Crawl(Seed(["a"], parseErrors, repository), DiamondConfig, DiamondWeb(now));
      c.queue == [] && c.processed == 3 && c.totalPages == 4 &&
      (j.totalPages == c.totalPages ==> MonitorTick(j, c.queue == [], c.processed, c.found, Slept, now).status == Running)
  {
    var web := DiamondWeb(now);
    var s0 := Seed(["a"], parseErrors, repository);
    var s1 := Run(["http://b", "http://c"], {"a"}, 1, 0, 3, parseErrors + 1, repository);
    var s2 := Run(["http://c", "http://c"], {"a", "http://b"}, 2, 0, 4, parseErrors + 2, repository);
    var s3 := Run(["http://c"], {"a", "http://b", "http://c"}, 3, 0, 4, parseErrors + 3, repository);
    var s4 := Run([], {"a", "http://b", "http://c"}, 3, 0, 4, parseErrors + 3, repository);
    DiamondStep1(parseErrors, repository, now);
    DiamondStep2(parseErrors + 1, repository, now);
    DiamondStep3(parseErrors + 2, repository, now);
    assert s3.queue[0] in s3.visited && s3.queue[1..] == [];
    assert Poll(s3, DiamondConfig, web) == s4;
    assert Crawl(s3, DiamondConfig, web) == s4;
    assert Crawl(s2, DiamondConfig, web) == s4;
    assert Crawl(s1, DiamondConfig, web) == s4;
  }

  /**
   * What the queue-aware admission keeps: no URL is queued twice, no queued
   * URL is visited, and `totalPages` is exactly queued plus processed.
   */
  ghost predicate ExactInv(r: Run)
  {
    NoDuplicates(r.queue) && (forall i :: 0 <= i < |r.queue| ==> r.queue[i] !in r.visited) &&
    r.totalPages == |r.queue| + r.processed
  }

  lemma VisitKeepsExact(r: Run, url: string, cfg: Config, web: Web)
    requires cfg.admission == SkipQueued && ExactInv(r)
    ensures ExactInv(Visit(r, url, cfg, web))
  {
    var o := Page(r, url, web);
    if o.links.Some? {
      AdmitFacts(r.queue, r.visited, o.links.value, cfg.maxPages, cfg.admission);
      var q := Admit(r.queue, r.visited, o.links.value, cfg.maxPages, cfg.admission);
      assert forall i :: 0 <= i < |r.queue| ==> q[i] == r.queue[i];
    }
  }

  lemma PollKeepsExact(r: Run, cfg: Config, web: Web)
    requires cfg.admission == SkipQueued && ExactInv(r) && r.queue != []
    ensures ExactInv(Poll(r, cfg, web))
  {
    var url := r.queue[0];
    assert url !in r.visited;
    var r1 := r.(queue := r.queue[1..], visited := r.visited + {url}, processed := r.processed + 1);
    assert forall i :: 0 <= i < |r1.queue| ==> r1.queue[i] == r.queue[i + 1];
    assert forall i :: 1 <= i < |r.queue| ==> r.queue[i] != url;
    assert forall i :: 0 <= i < |r1.queue| ==> r1.queue[i] != url;
    VisitKeepsExact(r1, url, cfg, web);
  }

  lemma {:induction false} CrawlKeepsExact(r: Run, cfg: Config, web: Web)
    requires cfg.admission == SkipQueued && ExactInv(r)
    ensures ExactInv(Crawl(r, cfg, web))
    decreases cfg.maxPages - r.processed, |r.queue|
  {
    if WorkerGoesOn(r, cfg) && r.queue != [] {
      PollKeepsExact(r, cfg, web);
      CrawlKeepsExact(Poll(r, cfg, web), cfg, web);
    }
  }

  /** The worker has stopped for good: budget spent, depth limit negative, or queue empty. */
  predicate WorkerDone(r: Run, cfg: Config)
  {
    !WorkerGoesOn(r, cfg) || r.queue == []
  }

  /** The monitor round that also completes a job whose worker has spent its budget. */
  function MonitorTickCorrected(j: JobView, r: Run, cfg: Config, tick: Tick, now: int): JobView
  {
    if j.status != Running then j
    else
      match tick
      case Interrupted(m) => j.(status := Failed, errorMessage := m, completedAt := Some(now))
      case Slept =>
        var j1 := j.(processedPages := r.processed, foundOrganizations := r.found);
        if (r.queue == [] && r.processed >= j.totalPages) || !WorkerGoesOn(r, cfg) then
          j1.(status := Completed, completedAt := Some(now))
        else j1
  }

  /**
   * With queue-aware admission the count is exact: when the queue is empty
   * the processed pages equal `totalPages`, so even the monitor as written
   * completes the job as soon as its queue runs dry.
   */
  lemma SkipQueuedCountsExactly(startUrls: seq<string>, parseErrors: int, repository: seq<Organization>,
                                cfg: Config, web: Web, j: JobView, now: int)
    requires NoDuplicates(startUrls) && cfg.admission == SkipQueued
    ensures var c := Crawl(Seed(startUrls, parseErrors, repository), cfg, web);
      c.totalPages == |c.queue| + c.processed &&
      (c.queue == [] && j.status == Running && j.totalPages == c.totalPages ==>
        MonitorTick(j, true, c.processed, c.found, Slept, now).status == Completed)
  {
    CrawlKeepsExact(Seed(startUrls, parseErrors, repository), cfg, web);
  }

  /**
   * The corrected monitor completes a running job exactly when its worker
   * is done, and the worker always ends done: every crawl completes.
   */
  lemma CorrectedMonitorCompletes(startUrls: seq<string>, parseErrors: int, repository: seq<Organization>,
                                  cfg: Config, web: Web, j: JobView, now: int)
    requires NoDuplicates(startUrls) && cfg.admission == SkipQueued && j.status == Running
    ensures var c := Crawl(Seed(startUrls, parseErrors, repository), cfg, web);
      j.totalPages == c.totalPages ==>
        (forall r :: ExactInv(r) && r.totalPages == j.totalPages ==>
          (MonitorTickCorrected(j, r, cfg, Slept, now).status == Completed <==> WorkerDone(r, cfg))) &&
        MonitorTickCorrected(j, c, cfg, Slept, now).status == Completed
  {
    CrawlKeepsExact(Seed(startUrls, parseErrors, repository), cfg, web);
    CrawlStops(Seed(startUrls, parseErrors, repository), cfg, web);
  }

  // ---------------------------------------------------------------- the service

  /** The per-job structures of `startCrawling`: queue, visited map and the two atomic counters. */
  class Frontier {
    var queue: seq<string>
    var visited: set<string>
    var processed: int
    var found: int

    constructor ()
      ensures queue == [] && visited == {} && processed == 0 && found == 0
    {
      queue := [];
      visited := {};
      processed := 0;
      found := 0;
    }
  }

  function JobOf(job: CrawlJob): JobView
    reads job
  {
    JobView(job.status, job.completedAt, job.processedPages, job.foundOrganizations, job.errorMessage, job.totalPages)
  }

  /** One round of the monitor on a job and its frontier. */
  method MonitorStep(job: CrawlJob, fr: Frontier, tick: Tick, now: int)
    modifies job`status, job`completedAt, job`processedPages, job`foundOrganizations, job`errorMessage
    ensures JobOf(job) == MonitorTick(old(JobOf(job)), fr.queue == [], fr.processed, fr.found, tick, now)
  {
    if job.status != Running {
      return;
    }
    match tick {
      case Interrupted(m) =>
        job.SetStatus(Failed);
        job.SetErrorMessage(m);
        job.SetCompletedAt(Some(now));
      case Slept =>
        job.SetProcessedPages(fr.processed);
        job.SetFoundOrganizations(fr.found);
        if fr.queue == [] && fr.processed >= job.totalPages {
          job.SetStatus(Completed);
          job.SetCompletedAt(Some(now));
          job.SetProcessedPages(fr.processed);
          job.SetFoundOrganizations(fr.found);
        }
    }
  }

  class CrawlerService {
    const maxDepth: int
    const maxPages: int
    var repository: seq<Organization>
    var parseErrors: int
    var activeJobs: map<string, CrawlJob>

    constructor (maxDepth: int, maxPages: int, repository: seq<Organization>)
      ensures this.maxDepth == maxDepth && this.maxPages == maxPages
      ensures this.repository == repository && parseErrors == 0 && activeJobs == map[]
    {
      this.maxDepth := maxDepth;
      this.maxPages := maxPages;
      this.repository := repository;
      parseErrors := 0;
      activeJobs := map[];
    }

    function Cfg(): Config
    {
      Config(maxDepth, maxPages, AsWritten)
    }

    /** The run state of a job of this service. */
    function RunOf(job: CrawlJob, fr: Frontier): Run
      reads this, job, fr
    {
      Run(fr.queue, fr.visited, fr.processed, fr.found, job.totalPages, parseErrors, repository)
    }

    /** `getJobStatus`. */
    function GetJobStatus(jobId: string): (r: Option<CrawlJob>)
      reads this
      ensures r.Some? <==> jobId in activeJobs
      ensures r.Some? ==> r.value == activeJobs[jobId]
    {
      if jobId in activeJobs then Some(activeJobs[jobId]) else None
    }

    /** `saveOrganizationIfNew`; `saved` is false when the call throws. */
    method SaveOrganizationIfNew(org: Organization) returns (saved: bool)
      modifies this`repository
      ensures saved == SaveIfNew(old(repository), org).Some?
      ensures repository == SaveIfNew(old(repository), org).GetOr(old(repository))
    {
      var existing := FindByPhone(repository, FirstPhone(org));
      match existing {
        case NonUnique =>
          return false;
        case NotFound =>
          repository := repository + [org];
        case Found(e) =>
          if e.website.None? {
            return false;
          }
          if e.website != org.website {
            repository := repository + [org];
          }
      }
      return true;
    }

    /** The link loop below the depth limit, and the `totalPages` update after it. */
    method OfferLinks(job: CrawlJob, fr: Frontier, links: seq<string>)
      modifies fr`queue, job`totalPages
      ensures RunOf(job, fr) == AdmitLinks(old(RunOf(job, fr)), links, Cfg())
    {
      if 0 < maxDepth {
        ghost var q0 := fr.queue;
        for i := 0 to |links|
          invariant fr.queue == Admit(q0, fr.visited, links[..i], maxPages, AsWritten)
          modifies fr`queue
        {
          assert links[..i + 1][..i] == links[..i];
          var link := links[i];
          if link !in fr.visited && |fr.queue| < maxPages {
            fr.queue := fr.queue + [link];
          }
        }
        assert links[..|links|] == links;
        job.SetTotalPages(Max(job.totalPages, |fr.queue| + fr.processed));
      }
    }

    /** The body of the `try` block of `crawlUrls` for one URL. */
    method ProcessPage(job: CrawlJob, fr: Frontier, url: string, web: Web)
      modifies this`repository, this`parseErrors, fr`queue, fr`found, job`totalPages
      ensures RunOf(job, fr) == Visit(old(RunOf(job, fr)), url, Cfg(), web)
    {
      var html := FetchHtml(web, url);
      if html == "" {
        parseErrors := parseErrors + 1;
        return;
      }
      var data := CP.ExtractContacts(Some(html), web.document(url));
      var contacts := data.View();
      if HasContacts(contacts) {
        var saved := SaveOrganizationIfNew(NewOrganization(contacts, url, web));
        if !saved {
          parseErrors := parseErrors + 1;
          return;
        }
        fr.found := fr.found + 1;
      } else {
        parseErrors := parseErrors + 1;
      }
      var links := LE.ExtractLinks(Some(html), web.anchors(url));
      OfferLinks(job, fr, links);
    }

    /** One poll of the worker loop on a non-empty queue. */
    method PollOnce(job: CrawlJob, fr: Frontier, web: Web)
      requires fr.queue != []
      modifies this`repository, this`parseErrors, fr, job`totalPages
      ensures RunOf(job, fr) == Poll(old(RunOf(job, fr)), Cfg(), web)
    {
      var url := fr.queue[0];
      fr.queue := fr.queue[1..];
      if url in fr.visited {
        return;
      }
      fr.visited := fr.visited + {url};
      fr.processed := fr.processed + 1;
      ProcessPage(job, fr, url, web);
    }

    /** `crawlUrls(job, ..., 0)` for the one worker. */
    method CrawlUrls(job: CrawlJob, fr: Frontier, web: Web)
      modifies this`repository, this`parseErrors, fr, job`totalPages
      ensures RunOf(job, fr) == if old(job.status) == Running then Crawl(old(RunOf(job, fr)), Cfg(), web) else old(RunOf(job, fr))
    {
      ghost var r0 := RunOf(job, fr);
      while 0 <= maxDepth && fr.processed < maxPages && job.status == Running && fr.queue != []
        invariant job.status == old(job.status)
        invariant job.status == Running ==> Crawl(RunOf(job, fr), Cfg(), web) == Crawl(r0, Cfg(), web)
        invariant job.status != Running ==> RunOf(job, fr) == r0
        decreases maxPages - fr.processed, |fr.queue|
      {
        PollOnce(job, fr, web);
      }
    }

    /**
     * The first half of `startCrawling`: a new running job is registered
     * under its id, and the start URLs are queued and counted.
     */
    method RegisterJob(startUrls: seq<string>, id: string, now: int) returns (job: CrawlJob, fr: Frontier)
      modifies this`activeJobs
      ensures fresh(job) && fresh(fr)
      ensures activeJobs == old(activeJobs)[id := job]
      ensures job.jobId == id && job.status == Running && job.createdAt == now
      ensures job.completedAt == None && job.errorMessage == None
      ensures job.processedPages == 0 && job.foundOrganizations == 0
      ensures RunOf(job, fr) == Seed(startUrls, parseErrors, repository)
    {
      job := new CrawlJob(id, now);
      job.SetStatus(Running);
      activeJobs := activeJobs[job.jobId := job];
      fr := new Frontier();
      for i := 0 to |startUrls|
        invariant fr.queue == startUrls[..i]
        modifies fr`queue
      {
        assert startUrls[..i + 1] == startUrls[..i] + [startUrls[i]];
        fr.queue := fr.queue + [startUrls[i]];
      }
      assert startUrls[..|startUrls|] == startUrls;
      job.SetTotalPages(|fr.queue|);
    }

    /**
     * `startCrawling`: a new running job is registered under its id, the
     * start URLs are queued and counted, and the worker (started when
     * there is at least one URL) crawls from them.
     */
    method StartCrawling(startUrls: seq<string>, id: string, now: int, web: Web) returns (job: CrawlJob, fr: Frontier)
      requires NoDuplicates(startUrls)
      modifies this
      ensures fresh(job) && fresh(fr)
      ensures activeJobs == old(activeJobs)[id := job] && GetJobStatus(id) == Some(job)
      ensures job.jobId == id && job.status == Running && job.createdAt == now
      ensures job.completedAt == None && job.errorMessage == None
      ensures job.processedPages == 0 && job.foundOrganizations == 0
      ensures RunOf(job, fr) == Crawl(Seed(startUrls, old(parseErrors), old(repository)), Cfg(), web)
    {
      job, fr := RegisterJob(startUrls, id, now);
      ghost var seed := RunOf(job, fr);
      if |startUrls| > 0 {
        CrawlUrls(job, fr, web);
      } else {
        CrawlOfEmptyQueue(seed, Cfg(), web);
      }
    }
  }
}
