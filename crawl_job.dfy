/**
 * `CrawlJob` of the Final crawler: the status and counters of one crawl.
 * The random UUID and the clock reading of the constructor are
 * parameters; `LocalDateTime` values are instants on an integer clock.
 */
module FinalCrawlJob {
  import opened Wrappers

  datatype JobStatus = Pending | Running | Completed | Failed | Cancelled

  class CrawlJob {
    var jobId: string
    var status: JobStatus
    var createdAt: int
    var completedAt: Option<int>
    var totalPages: int
    var processedPages: int
    var foundOrganizations: int
    var errorMessage: Option<string>

    /** A new job is pending, has all counters at zero and neither an end time nor an error. */
    constructor (id: string, now: int)
      ensures jobId == id && status == Pending && createdAt == now
      ensures completedAt == None && errorMessage == None
      ensures totalPages == 0 && processedPages == 0 && foundOrganizations == 0
    {
      jobId := id;
      status := Pending;
      createdAt := now;
      completedAt := None;
      totalPages := 0;
      processedPages := 0;
      foundOrganizations := 0;
      errorMessage := None;
    }

    method SetJobId(id: string)
      modifies this`jobId
      ensures jobId == id
    {
      jobId := id;
    }

    method SetStatus(s: JobStatus)
      modifies this`status
      ensures status == s
    {
      status := s;
    }

    method SetCreatedAt(t: int)
      modifies this`createdAt
      ensures createdAt == t
    {
      createdAt := t;
    }

    method SetCompletedAt(t: Option<int>)
      modifies this`completedAt
      ensures completedAt == t
    {
      completedAt := t;
    }

    method SetTotalPages(n: int)
      modifies this`totalPages
      ensures totalPages == n
    {
      totalPages := n;
    }

    method SetProcessedPages(n: int)
      modifies this`processedPages
      ensures processedPages == n
    {
      processedPages := n;
    }

    method SetFoundOrganizations(n: int)
      modifies this`foundOrganizations
      ensures foundOrganizations == n
    {
      foundOrganizations := n;
    }

    method SetErrorMessage(m: Option<string>)
      modifies this`errorMessage
      ensures errorMessage == m
    {
      errorMessage := m;
    }
  }
}
