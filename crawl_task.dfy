/**
 * `CrawlTask` of the example crawler: the URL of one crawl, its status and
 * the pages it has crawled, a Java `int` that `++` wraps around. The
 * `Future` handle is not modelled.
 */
module ExampleCrawlTask {
  import opened Int32

  datatype CrawlStatus = Pending | Running | Completed | Failed

  class CrawlTask {
    const url: string
    var status: CrawlStatus
    var pagesCrawled: int32

    /** A new task is pending and has crawled nothing. */
    constructor (u: string)
      ensures url == u && status == Pending && pagesCrawled == 0
    {
      url := u;
      status := Pending;
      pagesCrawled := 0;
    }

    method SetStatus(s: CrawlStatus)
      modifies this`status
      ensures status == s
    {
      status := s;
    }

    method SetPagesCrawled(n: int32)
      modifies this`pagesCrawled
      ensures pagesCrawled == n
    {
      pagesCrawled := n;
    }

    /** `pagesCrawled++`: exactly one more, below the `int` maximum. */
    method IncrementPagesCrawled()
      modifies this`pagesCrawled
      ensures pagesCrawled == Add(old(pagesCrawled), 1)
      ensures old(pagesCrawled) as int < MAX ==> pagesCrawled as int == old(pagesCrawled) as int + 1
    {
      IncrementWraps(pagesCrawled);
      pagesCrawled := Add(pagesCrawled, 1);
    }
  }
}
