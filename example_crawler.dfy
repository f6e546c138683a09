/**
 * `CrawlerService` of the example crawler: tasks registered under an id,
 * one breadth-first crawl per task over a queue of URLs, a visited set and
 * a page counter shared by every task of the service, and the save that
 * stores a company once per website. The four download strategies, the
 * extractor's pattern matches, `java.net.URL` and the clock are inputs (a
 * `Web`); a task's crawl runs as one step once the executor starts it.
 */
module ExampleCrawlerService {
  import opened Wrappers
  import opened JavaStrings
  import opened Int32
  import opened Urls
  import opened Entities
  import opened FetchChain
  import opened ExampleCrawlTask
  import CE = ExampleContactExtractor
  import HP = ExampleHtmlParser

  /** The number of pages after which a task's crawl stops. */
  const PageLimit := 100

  /** Everything the service learns from outside about one URL. */
  datatype Web = Web(
    fetch: string -> seq<Option<string>>,  // WebClient, RestTemplate, Feign, HttpURLConnection outcomes
    matches: string -> CE.PageMatches,     // what the extractor's patterns find in the page at a URL
    hrefs: string -> seq<string>,          // group(1) of each link-pattern match in that page
    newUrl: string -> ParsedUrl,           // new java.net.URL(s)
    now: int)                              // the clock as the company is built

  /** One task's queue with the service-wide state its crawl updates. */
  datatype Run = Run(
    queue: seq<string>,
    visited: set<string>,
    pagesCrawled: int32,
    totalPagesCrawled: int32,
    parseErrors: int,
    repository: seq<Company>)

  /** The page content after the fallback chain; it is `null` when every strategy fails. */
  function FetchHtml(web: Web, url: string): Option<string>
  {
    Chain(web.fetch(url))
  }

  /** The stored companies whose website is `website` (a `null` website matches nothing). */
  function WithWebsite(repository: seq<Company>, website: Option<string>): seq<Company>
  {
    if repository == [] then []
    else
      var c := repository[|repository| - 1];
      WithWebsite(repository[..|repository| - 1], website) +
        (if website.Some? && c.website == website then [c] else [])
  }

  lemma {:induction false} WithWebsiteMembership(repository: seq<Company>, website: Option<string>, c: Company)
    ensures c in WithWebsite(repository, website) <==> c in repository && website.Some? && c.website == website
  {
    if repository != [] {
      var init := repository[..|repository| - 1];
      assert repository == init + [repository[|repository| - 1]];
      WithWebsiteMembership(init, website, c);
    }
  }

  /**
   * `saveCompanyIfNew`: the store afterwards, or `None` when `findByWebsite`
   * throws because several companies have the website.
   */
  function SaveCompanyIfNew(repository: seq<Company>, company: Company): Option<seq<Company>>
  {
    var m := WithWebsite(repository, company.website);
    if m == [] then Some(repository + [company])
    else if |m| == 1 then Some(repository)
    else None
  }

  /**
   * The company is stored exactly when no stored company has its website;
   * a single one leaves the store as it is; several make the call throw.
   */
  lemma SaveCompanyIff(repository: seq<Company>, company: Company)
    ensures var m := WithWebsite(repository, company.website);
      (SaveCompanyIfNew(repository, company) == Some(repository + [company]) <==>
        forall c :: c in repository ==> company.website.None? || c.website != company.website) &&
      (SaveCompanyIfNew(repository, company) == Some(repository) <==> |m| == 1) &&
      (SaveCompanyIfNew(repository, company).None? <==> |m| > 1)
  {
    var m := WithWebsite(repository, company.website);
    assert |repository + [company]| != |repository|;
    if m != [] {
      WithWebsiteMembership(repository, company.website, m[0]);
    } else {
      forall c | c in repository ensures company.website.None? || c.website != company.website {
        WithWebsiteMembership(repository, company.website, c);
      }
    }
  }

  /** The queue after the link loop: each link that is not visited is appended. */
  function Enqueue(queue: seq<string>, visited: set<string>, links: seq<string>): seq<string>
  {
    if links == [] then queue
    else
      var q := Enqueue(queue, visited, links[..|links| - 1]);
      var l := links[|links| - 1];
      if l !in visited then q + [l] else q
  }

  /** Exactly the links that are not visited are appended, after the old queue. */
  lemma {:induction false} EnqueueFacts(queue: seq<string>, visited: set<string>, links: seq<string>, l: string)
    ensures var q := Enqueue(queue, visited, links);
      queue <= q && |q| <= |queue| + |links| &&
      (l in q[|queue|..] <==> l in links && l !in visited)
  {
    if links != [] {
      var init := links[..|links| - 1];
      var last := links[|links| - 1];
      EnqueueFacts(queue, visited, init, l);
      var q := Enqueue(queue, visited, init);
      assert links == init + [last];
      if last !in visited {
        assert (q + [last])[|queue|..] == q[|queue|..] + [last];
      }
    }
  }

  /** What the `try` block leaves in the counters and store, and the links it enqueues, if it gets that far. */
  datatype PageOutcome = PageOutcome(parseErrors: int, repository: seq<Company>, links: Option<seq<string>>)

  /**
   * One page: without a company a parse error is counted and the links are
   * still read; a save that throws counts a parse error and ends the page.
   */
  function Page(r: Run, url: string, web: Web): PageOutcome
  {
    var html := FetchHtml(web, url);
    var links := HP.Links(html, Some(url), web.hrefs(url), web.newUrl);
    match CE.Contacts(html, Some(url), web.matches(url), web.newUrl, web.now)
    case None => PageOutcome(r.parseErrors + 1, r.repository, Some(links))
    case Some(company) =>
      match SaveCompanyIfNew(r.repository, company)
      case None => PageOutcome(r.parseErrors + 1, r.repository, None)
      case Some(repo) => PageOutcome(r.parseErrors, repo, Some(links))
  }

  /** One crawled URL's work, after it has been marked visited and counted. */
  function Visit(r: Run, url: string, web: Web): (v: Run)
    ensures v.visited == r.visited && v.pagesCrawled == r.pagesCrawled && v.totalPagesCrawled == r.totalPagesCrawled
  {
    var o := Page(r, url, web);
    var r1 := r.(parseErrors := o.parseErrors, repository := o.repository);
    if o.links.Some? then r1.(queue := Enqueue(r1.queue, r1.visited, o.links.value)) else r1
  }

  /** A page that yields no company and no links only counts one parse error. */
  lemma VisitWithoutCompany(r: Run, url: string, web: Web)
    requires var html := FetchHtml(web, url); html.None? || IsBlank(html.value)
    ensures Visit(r, url, web) == r.(parseErrors := r.parseErrors + 1)
  {
    var html := FetchHtml(web, url);
    assert HP.Links(html, Some(url), web.hrefs(url), web.newUrl) == [];
    assert Enqueue(r.queue, r.visited, []) == r.queue;
  }

  /** One turn of the loop of `crawlWebsites`, taken while fewer than `PageLimit` pages are crawled. */
  function Poll(r: Run, web: Web): (p: Run)
    requires r.queue != [] && r.pagesCrawled as int < PageLimit
    ensures p.visited == r.visited + {r.queue[0]}
    ensures r.queue[0] in r.visited ==> p == r.(queue := r.queue[1..])
    ensures r.queue[0] !in r.visited ==>
      p.pagesCrawled as int == r.pagesCrawled as int + 1 && p.totalPagesCrawled == Add(r.totalPagesCrawled, 1)
  {
    var url := r.queue[0];
    IncrementWraps(r.pagesCrawled);
    if url in r.visited then r.(queue := r.queue[1..])
    else
      Visit(r.(queue := r.queue[1..], visited := r.visited + {url},
               pagesCrawled := Add(r.pagesCrawled, 1), totalPagesCrawled := Add(r.totalPagesCrawled, 1)),
            url, web)
  }

  /** `crawlWebsites`: poll until the queue is empty or `PageLimit` pages are crawled. */
  function Crawl(r: Run, web: Web): Run
    decreases PageLimit - r.pagesCrawled as int, |r.queue|
  {
    if r.queue == [] || r.pagesCrawled as int >= PageLimit then r
    else Crawl(Poll(r, web), web)
  }

  /**
   * A crawl ends with an empty queue or at the page limit, crawls no more
   * than `PageLimit` pages in all, and adds to the service-wide visited set
   * exactly one URL for each page it crawls, none of them visited before.
   */
  lemma {:induction false} CrawlVisits(r: Run, web: Web)
    requires 0 <= r.pagesCrawled as int <= PageLimit
    ensures var c := Crawl(r, web);
      (c.queue == [] || c.pagesCrawled as int == PageLimit) &&
      r.pagesCrawled as int <= c.pagesCrawled as int <= PageLimit &&
      r.visited <= c.visited &&
      |c.visited - r.visited| == c.pagesCrawled as int - r.pagesCrawled as int
    decreases PageLimit - r.pagesCrawled as int, |r.queue|
  {
    if r.queue != [] && r.pagesCrawled as int < PageLimit {
      var p := Poll(r, web);
      CrawlVisits(p, web);
      var c := Crawl(p, web);
      var url := r.queue[0];
      if url !in r.visited {
        assert c.visited - r.visited == (c.visited - p.visited) + {url};
        assert url !in c.visited - p.visited;
      }
    } else {
      assert r.visited - r.visited == {};
    }
  }

  /** The service-wide total stands `pagesCrawled - p0` pages past `t0`, on Java `int`s. */
  predicate TotalsAgree(r: Run, t0: int32, p0: int)
  {
    r.totalPagesCrawled == Wrap(t0 as int + (r.pagesCrawled as int - p0))
  }

  /** A turn of the loop advances both counters together or neither. */
  lemma PollKeepsTotals(r: Run, web: Web, t0: int32, p0: int)
    requires r.queue != [] && r.pagesCrawled as int < PageLimit && TotalsAgree(r, t0, p0)
    ensures TotalsAgree(Poll(r, web), t0, p0)
  {
    var p := Poll(r, web);
    if r.queue[0] !in r.visited {
      var x := t0 as int + (r.pagesCrawled as int - p0);
      AddOneToWrap(x);
      assert p.totalPagesCrawled == Add(Wrap(x), 1);
      assert t0 as int + (p.pagesCrawled as int - p0) == x + 1;
    } else {
      assert p.totalPagesCrawled == r.totalPagesCrawled && p.pagesCrawled == r.pagesCrawled;
    }
  }

  lemma {:induction false} CrawlKeepsTotals(r: Run, web: Web, t0: int32, p0: int)
    requires r.pagesCrawled as int <= PageLimit && TotalsAgree(r, t0, p0)
    ensures TotalsAgree(Crawl(r, web), t0, p0)
    decreases PageLimit - r.pagesCrawled as int, |r.queue|
  {
    if r.queue != [] && r.pagesCrawled as int < PageLimit {
      PollKeepsTotals(r, web, t0, p0);
      CrawlKeepsTotals(Poll(r, web), web, t0, p0);
    }
  }

  /**
   * The service's total counts every page the crawl counts, on Java `int`s:
   * it ends `Wrap(total + pages crawled by this call)`.
   */
  lemma CrawlTotals(r: Run, web: Web)
    requires r.pagesCrawled as int <= PageLimit
    ensures TotalsAgree(Crawl(r, web), r.totalPagesCrawled, r.pagesCrawled as int)
  {
    var t0, p0 := r.totalPagesCrawled, r.pagesCrawled as int;
    assert TotalsAgree(r, t0, p0) by {
      WrapInRange(t0 as int);
      assert t0 as int + (r.pagesCrawled as int - p0) == t0 as int;
    }
    CrawlKeepsTotals(r, web, t0, p0);
  }

  /** `startUrls.toString()`: the elements between brackets, separated by `", "`. */
  function ListToString(urls: seq<string>): string
  {
    "[" + JoinComma(urls) + "]"
  }

  function JoinComma(urls: seq<string>): string
  {
    if urls == [] then ""
    else if |urls| == 1 then urls[0]
    else JoinComma(urls[..|urls| - 1]) + ", " + urls[|urls| - 1]
  }

  lemma ListToStringExamples()
    ensures ListToString([]) == "[]"
    ensures ListToString(["http://a"]) == "[http://a]"
    ensures ListToString(["http://a", "http://b"]) == "[http://a, http://b]"
  {
    assert ["http://a", "http://b"][..1] == ["http://a"];
  }

  class CrawlerService {
    var activeTasks: map<string, CrawlTask>
    var visitedUrls: set<string>
    var totalPagesCrawled: int32
    var parseErrors: int
    var repository: seq<Company>

    constructor (repository: seq<Company>)
      ensures activeTasks == map[] && visitedUrls == {} && totalPagesCrawled == 0
      ensures parseErrors == 0 && this.repository == repository
    {
      activeTasks := map[];
      visitedUrls := {};
      totalPagesCrawled := 0;
      parseErrors := 0;
      this.repository := repository;
    }

    /** A task's queue together with the service state its crawl works on. */
    function RunOf(task: CrawlTask, queue: seq<string>): Run
      reads this, task
    {
      Run(queue, visitedUrls, task.pagesCrawled, totalPagesCrawled, parseErrors, repository)
    }

    /** `getTaskStatus`. */
    function GetTaskStatus(taskId: string): (r: Option<CrawlTask>)
      reads this
      ensures r.Some? <==> taskId in activeTasks
      ensures r.Some? ==> r.value == activeTasks[taskId]
    {
      if taskId in activeTasks then Some(activeTasks[taskId]) else None
    }

    /** `getActiveTasks`: a copy, so that changing it cannot change the service's map. */
    method GetActiveTasks() returns (tasks: map<string, CrawlTask>)
      ensures tasks == activeTasks
    {
      tasks := activeTasks;
    }

    /** `getTotalPagesCrawled`. */
    method GetTotalPagesCrawled() returns (n: int32)
      ensures n == totalPagesCrawled
    {
      n := totalPagesCrawled;
    }

    /** `saveCompanyIfNew`; `saved` is false when the call throws. */
    method SaveCompany(company: Company) returns (saved: bool)
      modifies this`repository
      ensures saved == SaveCompanyIfNew(old(repository), company).Some?
      ensures repository == SaveCompanyIfNew(old(repository), company).GetOr(old(repository))
    {
      var existing := WithWebsite(repository, company.website);
      if existing == [] {
        repository := repository + [company];
      } else if |existing| > 1 {
        return false;
      }
      return true;
    }

    /** The `try` block of `crawlWebsites` for one URL; the queue is the loop's local list. */
    method ProcessPage(task: CrawlTask, queue: seq<string>, url: string, web: Web) returns (queue': seq<string>)
      modifies this`parseErrors, this`repository
      ensures RunOf(task, queue') == Visit(old(RunOf(task, queue)), url, web)
    {
      queue' := queue;
      var html := FetchHtml(web, url);
      var company := CE.ExtractContacts(html, Some(url), web.matches(url), web.newUrl, web.now);
      if company.Some? {
        var saved := SaveCompany(company.value);
        if !saved {
          parseErrors := parseErrors + 1;
          return;
        }
      } else {
        parseErrors := parseErrors + 1;
      }
      var newUrls := HP.ExtractLinks(html, Some(url), web.hrefs(url), web.newUrl);
      queue' := EnqueueLinks(queue, newUrls);
    }

    /** The link loop of `processPage`: each link not yet visited joins the queue. */
    method EnqueueLinks(queue: seq<string>, newUrls: seq<string>) returns (queue': seq<string>)
      ensures queue' == Enqueue(queue, visitedUrls, newUrls)
    {
      queue' := queue;
      for i := 0 to |newUrls|
        invariant queue' == Enqueue(queue, visitedUrls, newUrls[..i])
      {
        assert newUrls[..i + 1][..i] == newUrls[..i];
        if newUrls[i] !in visitedUrls {
          queue' := queue' + [newUrls[i]];
        }
      }
      assert newUrls[..|newUrls|] == newUrls;
    }

    /** `crawlWebsites(urls, task)`. */
    method CrawlWebsites(urls: seq<string>, task: CrawlTask, web: Web)
      modifies this`visitedUrls, this`totalPagesCrawled, this`parseErrors, this`repository, task`pagesCrawled
      ensures var c := Crawl(old(RunOf(task, urls)), web); RunOf(task, c.queue) == c
    {
      var queue := urls;
      ghost var r0 := RunOf(task, urls);
      while queue != [] && task.pagesCrawled < 100
        invariant Crawl(RunOf(task, queue), web) == Crawl(r0, web)
        decreases PageLimit - task.pagesCrawled as int, |queue|
      {
        ghost var before := RunOf(task, queue);
        var currentUrl := queue[0];
        queue := queue[1..];
        if currentUrl in visitedUrls {
          continue;
        }
        visitedUrls := visitedUrls + {currentUrl};
        task.IncrementPagesCrawled();
        totalPagesCrawled := Add(totalPagesCrawled, 1);
        queue := ProcessPage(task, queue, currentUrl, web);
        assert RunOf(task, queue) == Poll(before, web);
      }
    }

    /**
     * `startCrawling`: a new pending task for the list's string form is
     * registered under `taskId` (the random UUID) before it is submitted.
     */
    method StartCrawling(startUrls: seq<string>, taskId: string) returns (task: CrawlTask)
      modifies this`activeTasks
      ensures fresh(task) && task.url == ListToString(startUrls) && task.status == Pending && task.pagesCrawled == 0
      ensures activeTasks == old(activeTasks)[taskId := task] && GetTaskStatus(taskId) == Some(task)
    {
      task := new CrawlTask(ListToString(startUrls));
      task.SetStatus(Pending);
      activeTasks := activeTasks[taskId := task];
    }

    /**
     * The submitted job: the crawl task runs, crawls from the start URLs and
     * completes, and is put back under its id.
     */
    method RunTask(taskId: string, task: CrawlTask, startUrls: seq<string>, web: Web)
      modifies this`visitedUrls, this`totalPagesCrawled, this`parseErrors, this`repository, this`activeTasks
      modifies task`status, task`pagesCrawled
      ensures task.status == Completed && activeTasks == old(activeTasks)[taskId := task]
      ensures var c := Crawl(old(RunOf(task, startUrls)), web); RunOf(task, c.queue) == c
    {
      task.SetStatus(Running);
      CrawlWebsites(startUrls, task, web);
      task.SetStatus(Completed);
      activeTasks := activeTasks[taskId := task];
    }
  }
}
