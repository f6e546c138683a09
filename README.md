# Contact crawler, modelled in Dafny

The repository holds two generations of one contact crawler.

- The Final crawler lives under `ContactCrawler-Final/` (package `com.contactcrawler`): modules prefixed `Final`.
- The example crawler lives under `src/` (package `com.example.crawler`): modules prefixed `Example`.

Both crawl web sites breadth-first from a list of start URLs. On each page they:

- pick out e-mail addresses, phone numbers, postal addresses and an organisation name;
- store one record per organisation;
- follow the page's links.

A REST layer then searches, sorts and pages the stored records.

This project models the deterministic core of both crawlers.

- **Crawl loops.** Each loop runs as one sequential worker. The Final crawler's loop, with its frontier (queue, visited set, processed and found counters, page budget), is `FinalCrawlerService`; the example crawler's loop, with its service-wide visited set and page counter, is `ExampleCrawlerService`.
- **Surrounding logic.** `FinalCrawlerService` also covers the monitor that completes a job, and both services cover the save that stores an organisation or company only when it is new.
- **Job and task records.** `FinalCrawlJob` and `ExampleCrawlTask`.
- **Contact post-processing.**
  - `FinalContactParser` (Final) and `ExampleContactExtractor` (example) cover phone normalisation and validation, e-mail validation and lower-casing, and ordered de-duplication.
  - They also cover the address filters and the name taken from the page title.
  - The shared pieces are `TitleSuffix` (the exact reading of the regular expression `\s*[-|]\s*.*$` that cuts a title) and `EmailPattern` (the e-mail regular expression).
- **Link handling.** `ExampleHtmlParser` resolves relative links; `FinalLinkExtractor` rebuilds canonical URLs from their parts.
- **Search, sort and pagination.**
  - `FinalDataProcessing` and `ExampleDataProcessing` filter and sort.
  - `Pagination`, `FinalDataController` and `ExampleDataController` cut the pages.
  - `Ordering` holds the comparators (nulls last, reversed, case-insensitive), proved to be total preorders, together with the sort they drive.
- **The benchmark's e-mail variants.** `ParsingBenchmark`.

Java `int` arithmetic is explicit where it matters, in `Int32`: the counters and the pagination arithmetic wrap around. `Urls`, `Seqs`, `JavaStrings` and `Wrappers` are shared helpers.

Imperative code stays imperative.

- The worker loops, link loops and extraction loops are `method`s with loop invariants. Each is proved equal to a recursive specification function, and the properties are proved about those functions.
- `CrawlJob`, `CrawlTask`, the parser's `ContactData` and the two services are classes whose methods state their whole new state.
- The searching, sorting and paging code is pure in the source and is pure functions here.

The outside world enters as parameters:

- the HTTP clients' results, Jsoup's view of a page and the regular expressions' matches;
- `new java.net.URL(...)` (a function from string to parsed parts or rejection);
- the clock.

## Model

| member | source | states |
|---|---|---|
| FinalCrawlerService.ExtractDomainName | ContactCrawler-Final/src/main/java/com/contactcrawler/service/CrawlerService.java:271-282 | a rejected URL gives `"Unknown"`; otherwise the host, with exactly one leading `www.` removed when present |
| FinalCrawlerService.WithPhoneMembership | ContactCrawler-Final/src/main/java/com/contactcrawler/service/CrawlerService.java:260-262 | the repository lookup by phone returns exactly the stored organisations that list that phone |
| FinalCrawlerService.SaveIfNewIff | ContactCrawler-Final/src/main/java/com/contactcrawler/service/CrawlerService.java:257-269 | the organisation is appended iff no stored one has its first phone (`""` with no phones), or the single one that does has a different website. The save throws iff the phone is not unique or the match has no website. Otherwise the repository is unchanged |
| FinalCrawlerService.Page | ContactCrawler-Final/src/main/java/com/contactcrawler/service/CrawlerService.java:166-241 | one page raises the found count by zero or one |
| FinalCrawlerService.AdmitFacts | ContactCrawler-Final/src/main/java/com/contactcrawler/service/CrawlerService.java:230-235 | link admission only appends, only unvisited discovered links, and never grows the queue past max(old length, `maxPages`); with queue-aware admission the queue stays free of repeats |
| FinalCrawlerService.Visit | ContactCrawler-Final/src/main/java/com/contactcrawler/service/CrawlerService.java:166-241 | visiting a page leaves the visited set and the processed count alone |
| FinalCrawlerService.VisitGrows | ContactCrawler-Final/src/main/java/com/contactcrawler/service/CrawlerService.java:230-236 | a visit only appends to the queue and never lowers `totalPages` |
| FinalCrawlerService.VisitEmptyHtml | ContactCrawler-Final/src/main/java/com/contactcrawler/service/CrawlerService.java:186-240 | an empty page only counts a parse error: nothing is saved, found is unchanged, no link is read |
| FinalCrawlerService.VisitFoundIff | ContactCrawler-Final/src/main/java/com/contactcrawler/service/CrawlerService.java:190-253 | found rises by one iff the page has content, some contacts, and the save does not throw (whether or not it stored anything); otherwise exactly one parse error is counted |
| FinalCrawlerService.Poll | ContactCrawler-Final/src/main/java/com/contactcrawler/service/CrawlerService.java:146-162 | the head URL becomes visited; a visited head is dropped with nothing else changed; an unvisited one raises the processed count by exactly one |
| FinalCrawlerService.CrawlStops | ContactCrawler-Final/src/main/java/com/contactcrawler/service/CrawlerService.java:145-146 | the worker stops only when its loop condition fails (budget spent, or `currentDepth <= maxDepth` false, with `currentDepth` always 0 for the started workers) or its queue is empty |
| FinalCrawlerService.CrawlOfEmptyQueue | ContactCrawler-Final/src/main/java/com/contactcrawler/service/CrawlerService.java:146-155 | a worker started on an empty queue changes nothing |
| FinalCrawlerService.CrawlGrows | ContactCrawler-Final/src/main/java/com/contactcrawler/service/CrawlerService.java:157-236 | a crawl never forgets a visited URL and never lowers `totalPages` or the processed count |
| FinalCrawlerService.SeedInv | ContactCrawler-Final/src/main/java/com/contactcrawler/service/CrawlerService.java:94-99 | the seeded job satisfies the worker invariant with the seed count as queue bound |
| FinalCrawlerService.VisitKeepsInv | ContactCrawler-Final/src/main/java/com/contactcrawler/service/CrawlerService.java:166-241 | a page visit preserves the worker invariant |
| FinalCrawlerService.PollKeepsInv | ContactCrawler-Final/src/main/java/com/contactcrawler/service/CrawlerService.java:145-162 | one loop iteration preserves the worker invariant: processed equals the number of distinct visited URLs, processed stays at most `maxPages`, and found stays at most processed. It also keeps `totalPages` at least queue plus processed, and the queue within max(seeds, `maxPages`) |
| FinalCrawlerService.CrawlKeepsInv | ContactCrawler-Final/src/main/java/com/contactcrawler/service/CrawlerService.java:139-255 | the whole worker loop preserves the invariant |
| FinalCrawlerService.CrawlFromSeed | ContactCrawler-Final/src/main/java/com/contactcrawler/service/CrawlerService.java:99-255 | from the seeds, each processed URL is a distinct visited one, at most `maxPages` are processed, and found stays at most processed. `totalPages` stays at least the seed count and at least queue plus processed; the queue stays within max(seeds, `maxPages`) |
| FinalCrawlerService.MonitorTransitions | ContactCrawler-Final/src/main/java/com/contactcrawler/service/CrawlerService.java:113-134 | the monitor only touches a running job. It completes it, stamping time and counters, iff the queue is empty and processed ≥ `totalPages`. An interrupted sleep fails it with the message and a timestamp |
| FinalCrawlerService.MonitorStep | ContactCrawler-Final/src/main/java/com/contactcrawler/service/CrawlerService.java:113-134 | the job's new status, timestamps, counters and message are those of one monitor round |
| FinalCrawlerService.BudgetStallsMonitor | ContactCrawler-Final/src/main/java/com/contactcrawler/service/CrawlerService.java:120-236 | with `maxPages = 1` and the one start URL `a` (one worker) on a site where `a` links to `b` and `c`: `b` is admitted and `totalPages` becomes 2. The worker then stops at its budget with `b` still queued, and the monitor leaves the job running |
| FinalCrawlerService.DiamondCleanUrls | ContactCrawler-Final/src/main/java/com/contactcrawler/util/LinkExtractor.java:30-44 | the clean forms of the example site's two links |
| FinalCrawlerService.DiamondAnchorsOfA | ContactCrawler-Final/src/main/java/com/contactcrawler/util/LinkExtractor.java:15-56 | page `a` of the example site yields links `b`, `c` |
| FinalCrawlerService.DiamondAnchorsOfB | ContactCrawler-Final/src/main/java/com/contactcrawler/util/LinkExtractor.java:15-56 | page `b` yields link `c` |
| FinalCrawlerService.DiamondLinks | ContactCrawler-Final/src/main/java/com/contactcrawler/util/LinkExtractor.java:15-56 | the links of the three pages of the example site |
| FinalCrawlerService.DiamondPage | ContactCrawler-Final/src/main/java/com/contactcrawler/service/CrawlerService.java:166-241 | on the example site a page has no contacts and hands on its links |
| FinalCrawlerService.DiamondVisit | ContactCrawler-Final/src/main/java/com/contactcrawler/service/CrawlerService.java:166-241 | a visit on the example site counts a parse error and admits the page's links |
| FinalCrawlerService.DiamondAdmit | ContactCrawler-Final/src/main/java/com/contactcrawler/service/CrawlerService.java:232-233 | admission as written queues `c` a second time while it is still queued |
| FinalCrawlerService.DiamondStep1 | ContactCrawler-Final/src/main/java/com/contactcrawler/service/CrawlerService.java:145-237 | the first iteration on the example site |
| FinalCrawlerService.DiamondVisitStart | ContactCrawler-Final/src/main/java/com/contactcrawler/service/CrawlerService.java:166-237 | the visit of the start page of the example site |
| FinalCrawlerService.DiamondStep2 | ContactCrawler-Final/src/main/java/com/contactcrawler/service/CrawlerService.java:145-237 | the second iteration on the example site |
| FinalCrawlerService.DiamondStep3 | ContactCrawler-Final/src/main/java/com/contactcrawler/service/CrawlerService.java:145-237 | the third iteration on the example site |
| FinalCrawlerService.DuplicateLinkStallsMonitor | ContactCrawler-Final/src/main/java/com/contactcrawler/service/CrawlerService.java:120-236 | on a site where `a` links to `b` and `c` and `b` links to `c`, the crawl ends with an empty queue. At that point processed is 3 and `totalPages` is 4, so the monitor never completes the job |
| FinalCrawlerService.VisitKeepsExact | ContactCrawler-Final/src/main/java/com/contactcrawler/service/CrawlerService.java:231-236 | with queue-aware admission a visit keeps queue repeat-free, queue disjoint from visited, and `totalPages` = queue + processed |
| FinalCrawlerService.PollKeepsExact | ContactCrawler-Final/src/main/java/com/contactcrawler/service/CrawlerService.java:146-162 | the same for one loop iteration |
| FinalCrawlerService.CrawlKeepsExact | ContactCrawler-Final/src/main/java/com/contactcrawler/service/CrawlerService.java:139-255 | the same for the whole loop |
| FinalCrawlerService.SkipQueuedCountsExactly | ContactCrawler-Final/src/main/java/com/contactcrawler/service/CrawlerService.java:120-236 | with queue-aware admission `totalPages` is exactly queue + processed at the end, so the monitor completes a job whose queue ran dry |
| FinalCrawlerService.CorrectedMonitorCompletes | ContactCrawler-Final/src/main/java/com/contactcrawler/service/CrawlerService.java:113-145 | the corrected monitor completes a running job iff its worker is done, and every crawl ends done |
| FinalCrawlerService.Frontier.constructor | ContactCrawler-Final/src/main/java/com/contactcrawler/service/CrawlerService.java:89-92 | a new frontier: empty queue and visited set, zero counters |
| FinalCrawlerService.CrawlerService.constructor | ContactCrawler-Final/src/main/java/com/contactcrawler/service/CrawlerService.java:75-81 | the configured depth and budget, no jobs, no errors counted |
| FinalCrawlerService.CrawlerService.GetJobStatus | ContactCrawler-Final/src/main/java/com/contactcrawler/service/CrawlerService.java:284-286 | the job registered under the id, or none iff no job has that id |
| FinalCrawlerService.CrawlerService.SaveOrganizationIfNew | ContactCrawler-Final/src/main/java/com/contactcrawler/service/CrawlerService.java:257-269 | the repository after the save is the one `SaveIfNew` describes; the result says whether the call returned normally |
| FinalCrawlerService.CrawlerService.OfferLinks | ContactCrawler-Final/src/main/java/com/contactcrawler/service/CrawlerService.java:229-237 | the link loop and `totalPages` update leave the queue and job as the admission function says |
| FinalCrawlerService.CrawlerService.ProcessPage | ContactCrawler-Final/src/main/java/com/contactcrawler/service/CrawlerService.java:166-253 | the body of the `try` leaves queue, counters, store and job as `Visit` says |
| FinalCrawlerService.CrawlerService.PollOnce | ContactCrawler-Final/src/main/java/com/contactcrawler/service/CrawlerService.java:146-164 | one loop iteration leaves the state as `Poll` says |
| FinalCrawlerService.CrawlerService.CrawlUrls | ContactCrawler-Final/src/main/java/com/contactcrawler/service/CrawlerService.java:139-255 | the loop ends in the state `Crawl` describes (no change for a job not running) |
| FinalCrawlerService.CrawlerService.RegisterJob | ContactCrawler-Final/src/main/java/com/contactcrawler/service/CrawlerService.java:84-99 | a fresh running job with no completion time or error and zero counters is registered under its id. The start URLs are queued in order and counted as `totalPages` |
| FinalCrawlerService.CrawlerService.StartCrawling | ContactCrawler-Final/src/main/java/com/contactcrawler/service/CrawlerService.java:83-111 | the job is registered and visible through `getJobStatus`; the worker runs from the seeds and leaves the state `Crawl` describes |
| ExampleCrawlerService.WithWebsiteMembership | src/main/java/com/example/crawler/service/CrawlerService.java:186 | the lookup by website returns exactly the stored companies with that (non-null) website |
| ExampleCrawlerService.SaveCompanyIff | src/main/java/com/example/crawler/service/CrawlerService.java:183-193 | the company is appended iff it has no website or no stored company has its website. The store is unchanged iff exactly one does; the call throws iff several do |
| ExampleCrawlerService.EnqueueFacts | src/main/java/com/example/crawler/service/CrawlerService.java:168-172 | the loop only appends, at most one entry per link, and a URL is appended iff it is a new link not visited |
| ExampleCrawlerService.Visit | src/main/java/com/example/crawler/service/CrawlerService.java:127-177 | a page visit leaves visited set and both page counters alone |
| ExampleCrawlerService.VisitWithoutCompany | src/main/java/com/example/crawler/service/CrawlerService.java:149-177 | a page with no content only counts a parse error; no company, no links |
| ExampleCrawlerService.Poll | src/main/java/com/example/crawler/service/CrawlerService.java:114-124 | the head URL becomes visited. A visited head is dropped with nothing else changed. An unvisited one raises the crawl task's count by one and the service total by one (as a Java `int`) |
| ExampleCrawlerService.CrawlVisits | src/main/java/com/example/crawler/service/CrawlerService.java:111-181 | a crawl ends with an empty queue or at 100 pages, and crawls at most 100 pages. It adds exactly one new URL to the service-wide visited set per page crawled, so no URL visited before, even by another task, is crawled again |
| ExampleCrawlerService.PollKeepsTotals | src/main/java/com/example/crawler/service/CrawlerService.java:122-123 | one iteration advances the crawl task count and the service total together or not at all |
| ExampleCrawlerService.CrawlKeepsTotals | src/main/java/com/example/crawler/service/CrawlerService.java:111-181 | the same for the whole loop |
| ExampleCrawlerService.CrawlTotals | src/main/java/com/example/crawler/service/CrawlerService.java:111-181 | after a crawl the service total is the old total plus the pages crawled by this task, wrapped to `int` |
| ExampleCrawlerService.ListToStringExamples | src/main/java/com/example/crawler/service/CrawlerService.java:89 | the `List.toString` form the crawl task records as its URL |
| ExampleCrawlerService.CrawlerService.constructor | src/main/java/com/example/crawler/service/CrawlerService.java:47-49 | no tasks, nothing visited, zero pages crawled |
| ExampleCrawlerService.CrawlerService.GetTaskStatus | src/main/java/com/example/crawler/service/CrawlerService.java:195-197 | the crawl task registered under the id, or none iff there is none |
| ExampleCrawlerService.CrawlerService.GetActiveTasks | src/main/java/com/example/crawler/service/CrawlerService.java:199-201 | a copy equal to the crawl task map; the service's map is not modified |
| ExampleCrawlerService.CrawlerService.GetTotalPagesCrawled | src/main/java/com/example/crawler/service/CrawlerService.java:203-205 | the service-wide page total |
| ExampleCrawlerService.CrawlerService.SaveCompany | src/main/java/com/example/crawler/service/CrawlerService.java:183-193 | the store after the save is the one `SaveCompanyIfNew` describes; the result says whether the call returned normally |
| ExampleCrawlerService.CrawlerService.ProcessPage | src/main/java/com/example/crawler/service/CrawlerService.java:127-179 | the `try` body leaves queue, counters and store as `Visit` says |
| ExampleCrawlerService.CrawlerService.EnqueueLinks | src/main/java/com/example/crawler/service/CrawlerService.java:168-172 | the link loop's queue is the one `Enqueue` describes |
| ExampleCrawlerService.CrawlerService.CrawlWebsites | src/main/java/com/example/crawler/service/CrawlerService.java:111-181 | the loop leaves visited set, counters, store and queue as `Crawl` describes |
| ExampleCrawlerService.CrawlerService.StartCrawling | src/main/java/com/example/crawler/service/CrawlerService.java:85-91 | a fresh pending task with zero pages, whose URL is the list's string form, is registered under the id before the crawl is submitted |
| ExampleCrawlerService.CrawlerService.RunTask | src/main/java/com/example/crawler/service/CrawlerService.java:93-105 | the crawl task runs, crawls as `Crawl` describes, ends COMPLETED and is put back under its id |
| FinalCrawlJob.CrawlJob.constructor | ContactCrawler-Final/src/main/java/com/contactcrawler/model/CrawlJob.java:20-27 | a new job is PENDING with the given id and creation time, no completion time or error, and zero counters |
| FinalCrawlJob.CrawlJob.SetJobId | ContactCrawler-Final/src/main/java/com/contactcrawler/model/CrawlJob.java:33-35 | sets only the id |
| FinalCrawlJob.CrawlJob.SetStatus | ContactCrawler-Final/src/main/java/com/contactcrawler/model/CrawlJob.java:41-43 | sets only the status |
| FinalCrawlJob.CrawlJob.SetCreatedAt | ContactCrawler-Final/src/main/java/com/contactcrawler/model/CrawlJob.java:49-51 | sets only the creation time |
| FinalCrawlJob.CrawlJob.SetCompletedAt | ContactCrawler-Final/src/main/java/com/contactcrawler/model/CrawlJob.java:57-59 | sets only the completion time |
| FinalCrawlJob.CrawlJob.SetTotalPages | ContactCrawler-Final/src/main/java/com/contactcrawler/model/CrawlJob.java:65-67 | sets only `totalPages` |
| FinalCrawlJob.CrawlJob.SetProcessedPages | ContactCrawler-Final/src/main/java/com/contactcrawler/model/CrawlJob.java:73-75 | sets only `processedPages` |
| FinalCrawlJob.CrawlJob.SetFoundOrganizations | ContactCrawler-Final/src/main/java/com/contactcrawler/model/CrawlJob.java:81-83 | sets only `foundOrganizations` |
| FinalCrawlJob.CrawlJob.SetErrorMessage | ContactCrawler-Final/src/main/java/com/contactcrawler/model/CrawlJob.java:89-91 | sets only the error message |
| ExampleCrawlTask.CrawlTask.constructor | src/main/java/com/example/crawler/model/CrawlTask.java:15-19 | a new task is PENDING with the given URL and zero pages |
| ExampleCrawlTask.CrawlTask.SetStatus | src/main/java/com/example/crawler/model/CrawlTask.java:25 | sets only the status |
| ExampleCrawlTask.CrawlTask.SetPagesCrawled | src/main/java/com/example/crawler/model/CrawlTask.java:27 | sets only the page count |
| ExampleCrawlTask.CrawlTask.IncrementPagesCrawled | src/main/java/com/example/crawler/model/CrawlTask.java:28 | the page count rises by exactly one (wrapping at the `int` maximum), nothing else changes |
| Int32.IncrementWraps | src/main/java/com/example/crawler/model/CrawlTask.java:28 | `x + 1` on a Java `int` is `x + 1`, except that the maximum wraps to the minimum |
| FetchChain.ChainFirstContent | src/main/java/com/example/crawler/service/CrawlerService.java:133-145 | the fallback chain yields content iff some strategy does, and then the first strategy's content that is non-null and non-empty; otherwise the last strategy's result |
| ExampleContactExtractor.RemoveFillersClean | src/main/java/com/example/crawler/util/ContactExtractor.java:118 | deleting `[\s\-\(\)]` leaves none of them and never lengthens the string |
| ExampleContactExtractor.RemoveFillersOfClean | src/main/java/com/example/crawler/util/ContactExtractor.java:118 | a string without fillers is unchanged |
| ExampleContactExtractor.RemoveFillersAppend | src/main/java/com/example/crawler/util/ContactExtractor.java:118 | filler deletion distributes over concatenation |
| ExampleContactExtractor.NormalizePhoneIdempotent | src/main/java/com/example/crawler/util/ContactExtractor.java:113-124 | normalising twice gives the same number as normalising once |
| ExampleContactExtractor.NormalizedValidPhoneForm | src/main/java/com/example/crawler/util/ContactExtractor.java:113-132 | every normalised number that passes validation is `+7` followed by ten digits |
| ExampleContactExtractor.NormalizePhoneExample | src/main/java/com/example/crawler/util/ContactExtractor.java:113-124 | `"8 (999) 123-45-67"` normalises to `"+79991234567"`, which is valid |
| ExampleContactExtractor.ValidPhoneExample | src/main/java/com/example/crawler/util/ContactExtractor.java:126-132 | `"+79991234567"` is a valid phone |
| ExampleContactExtractor.IsValidEmailIff | src/main/java/com/example/crawler/util/ContactExtractor.java:156-166 | an address is valid iff it matches the e-mail pattern in full, has at least 5 characters, does not start with `.` and has no `..`; the `@` index checks are implied by the pattern |
| ExampleContactExtractor.ExtractPhones | src/main/java/com/example/crawler/util/ContactExtractor.java:91-111 | the valid normalised numbers of the matches, each once, in first-occurrence order |
| ExampleContactExtractor.ExtractEmails | src/main/java/com/example/crawler/util/ContactExtractor.java:134-154 | the valid lower-cased, trimmed addresses of the matches, each once, in first-occurrence order |
| ExampleContactExtractor.ExtractedPhonesForm | src/main/java/com/example/crawler/util/ContactExtractor.java:91-132 | every extracted phone is `+7` and ten digits |
| ExampleContactExtractor.ExtractedEmailsForm | src/main/java/com/example/crawler/util/ContactExtractor.java:134-166 | every extracted address is lower-case and valid |
| ExampleContactExtractor.CompanyNameSingleLine | src/main/java/com/example/crawler/util/ContactExtractor.java:72-89 | for a one-line title the name is the trimmed text before the first `-` or `\|`, or none when that is blank |
| ExampleContactExtractor.ExtractAddressFacts | src/main/java/com/example/crawler/util/ContactExtractor.java:168-190 | an address is found iff either pattern matched; the Russian match wins. The address is trimmed |
| ExampleContactExtractor.ExtractContacts | src/main/java/com/example/crawler/util/ContactExtractor.java:38-70 | the company built is the one `Contacts` describes |
| ExampleContactExtractor.ContactsShape | src/main/java/com/example/crawler/util/ContactExtractor.java:38-70 | no company iff the HTML or source URL is missing or blank. Otherwise the company has a non-blank name, the source URL, a website, and duplicate-free phones and e-mails |
| FinalContactParser.KeepPhoneCharsFacts | ContactCrawler-Final/src/main/java/com/contactcrawler/util/ContactParser.java:107 | `replaceAll("[^0-9+]", "")` leaves only digits and `+` and never lengthens |
| FinalContactParser.KeepPhoneCharsOfClean | ContactCrawler-Final/src/main/java/com/contactcrawler/util/ContactParser.java:107 | a string of digits and `+` is unchanged |
| FinalContactParser.KeepPhoneCharsAppend | ContactCrawler-Final/src/main/java/com/contactcrawler/util/ContactParser.java:107 | the filter distributes over concatenation |
| FinalContactParser.NormalizePhoneKeepsPhoneChars | ContactCrawler-Final/src/main/java/com/contactcrawler/util/ContactParser.java:106-108 | the trailing `trim` removes nothing: the number is exactly its digits and `+` signs |
| FinalContactParser.NormalizePhoneIdempotent | ContactCrawler-Final/src/main/java/com/contactcrawler/util/ContactParser.java:106-108 | normalising twice equals normalising once |
| FinalContactParser.NormalizePhoneAppend | ContactCrawler-Final/src/main/java/com/contactcrawler/util/ContactParser.java:106-108 | normalisation distributes over concatenation |
| FinalContactParser.Pieces | ContactCrawler-Final/src/main/java/com/contactcrawler/util/ContactParser.java:47-68 | splitting always gives at least one piece |
| FinalContactParser.DropTrailingEmpty | ContactCrawler-Final/src/main/java/com/contactcrawler/util/ContactParser.java:47-68 | `String.split` drops only a suffix of the pieces |
| FinalContactParser.DropTrailingEmptyIsEmpty | ContactCrawler-Final/src/main/java/com/contactcrawler/util/ContactParser.java:47-68 | nothing is left iff every piece is empty |
| FinalContactParser.PiecesAllEmpty | ContactCrawler-Final/src/main/java/com/contactcrawler/util/ContactParser.java:47-68 | every piece is empty iff the string consists of the separator only |
| FinalContactParser.BeforeQueryIff | ContactCrawler-Final/src/main/java/com/contactcrawler/util/ContactParser.java:47-68 | `split("[?]")[0]` throws iff the string is non-empty and all `?`; otherwise it is the text before the first `?` |
| FinalContactParser.ScanSnoc | ContactCrawler-Final/src/main/java/com/contactcrawler/util/ContactParser.java:43-73 | the link loop processes one more link unless it has already thrown |
| FinalContactParser.ScanAbortIsFinal | ContactCrawler-Final/src/main/java/com/contactcrawler/util/ContactParser.java:43-103 | once a link throws, later links change nothing |
| FinalContactParser.ScanFound | ContactCrawler-Final/src/main/java/com/contactcrawler/util/ContactParser.java:43-73 | every value the loop adds comes from some link |
| FinalContactParser.OrganizationNameSingleLine | ContactCrawler-Final/src/main/java/com/contactcrawler/util/ContactParser.java:120-125 | for a one-line title the name is the trimmed text before the first `-`, `\|` or `—` |
| FinalContactParser.ContactsShape | ContactCrawler-Final/src/main/java/com/contactcrawler/util/ContactParser.java:22-104 | no HTML gives empty data, and the three sets never hold an entry twice. When no link split threw, the name is set iff the title is non-empty, to the name cut from it, and the description iff a meta description exists, to the first. When a split threw, neither is set and there are no addresses |
| FinalContactParser.ContactsEmails | ContactCrawler-Final/src/main/java/com/contactcrawler/util/ContactParser.java:30-52 | the e-mails are the kept text matches, then the kept `mailto:` addresses, each once |
| FinalContactParser.ContactsPhones | ContactCrawler-Final/src/main/java/com/contactcrawler/util/ContactParser.java:43-73 | a thrown `mailto:` split leaves the phones empty; otherwise they are the kept text matches then the kept `tel:` numbers, each once |
| FinalContactParser.ContactsAddresses | ContactCrawler-Final/src/main/java/com/contactcrawler/util/ContactParser.java:43-84 | a thrown `mailto:` or `tel:` split leaves no addresses; otherwise they are the kept trimmed element texts, each once |
| FinalContactParser.TextEmailForm | ContactCrawler-Final/src/main/java/com/contactcrawler/util/ContactParser.java:36-38 | a kept text e-mail is lower-case and shorter than 50 |
| FinalContactParser.MailtoEmailForm | ContactCrawler-Final/src/main/java/com/contactcrawler/util/ContactParser.java:44-50 | a kept `mailto:` address is lower-case and matches the pattern in full |
| FinalContactParser.ContactsEmailsForm | ContactCrawler-Final/src/main/java/com/contactcrawler/util/ContactParser.java:30-52 | every stored e-mail is lower-case and comes from a text match (shorter than 50) or a `mailto:` link (a full pattern match) |
| FinalContactParser.TelPhoneForm | ContactCrawler-Final/src/main/java/com/contactcrawler/util/ContactParser.java:65-71 | a kept `tel:` number has at least 7 characters, all digits or `+` |
| FinalContactParser.ContactsPhonesForm | ContactCrawler-Final/src/main/java/com/contactcrawler/util/ContactParser.java:54-73 | every stored phone has at least 7 digits-or-`+` characters and comes from a kept text match or a kept `tel:` link |
| FinalContactParser.ContactsAddressesForm | ContactCrawler-Final/src/main/java/com/contactcrawler/util/ContactParser.java:75-118 | every stored address is an element's trimmed text, 11 to 499 long, with an address keyword |
| FinalContactParser.StringSet.constructor | ContactCrawler-Final/src/main/java/com/contactcrawler/util/ContactParser.java:128-130 | a new set is empty |
| FinalContactParser.StringSet.Add | ContactCrawler-Final/src/main/java/com/contactcrawler/util/ContactParser.java:128-130 | adding a present value changes nothing; a new one is appended |
| FinalContactParser.ContactData.constructor | ContactCrawler-Final/src/main/java/com/contactcrawler/util/ContactParser.java:127-132 | new data: three empty sets, no name, no description |
| FinalContactParser.ContactData.SetOrganizationName | ContactCrawler-Final/src/main/java/com/contactcrawler/util/ContactParser.java:150-152 | sets only the name |
| FinalContactParser.ContactData.SetDescription | ContactCrawler-Final/src/main/java/com/contactcrawler/util/ContactParser.java:158-160 | sets only the description |
| FinalContactParser.AddMatches | ContactCrawler-Final/src/main/java/com/contactcrawler/util/ContactParser.java:35-84 | a match loop adds each kept value once, in order |
| FinalContactParser.AddHrefs | ContactCrawler-Final/src/main/java/com/contactcrawler/util/ContactParser.java:44-73 | a link loop adds each kept value once, in order, and reports whether a split threw |
| FinalContactParser.ExtractContacts | ContactCrawler-Final/src/main/java/com/contactcrawler/util/ContactParser.java:22-104 | the data filled in is the one `ContactsOf` describes |
| EmailPattern.LastIndexOf | ContactCrawler-Final/src/main/java/com/contactcrawler/util/ContactParser.java:14-16 | the last position of a character, or none iff it does not occur |
| EmailPattern.SpanAt | src/main/java/com/example/crawler/util/ContactExtractor.java:161 | `indexOf` of a stop character is its first position |
| EmailPattern.MatchesEmailPatternIff | ContactCrawler-Final/src/main/java/com/contactcrawler/util/ContactParser.java:14-48 | the full-match test decides exactly `[A-Za-z0-9._%+-]+@[A-Za-z0-9.-]+\.[A-Za-z]{2,}` |
| TitleSuffix.SpaceRun | src/main/java/com/example/crawler/util/ContactExtractor.java:82 | the length of the leading run of `\s` characters |
| TitleSuffix.DotRun | src/main/java/com/example/crawler/util/ContactExtractor.java:82 | how far `.*` reaches: up to the first line terminator |
| TitleSuffix.TailEnd | src/main/java/com/example/crawler/util/ContactExtractor.java:82 | where `\s*.*$` can end, if anywhere |
| TitleSuffix.FirstGoodSeparator | src/main/java/com/example/crawler/util/ContactExtractor.java:82 | the first separator from which the suffix pattern matches, and none before it |
| TitleSuffix.RunStart | src/main/java/com/example/crawler/util/ContactExtractor.java:82 | the start of the `\s*` run ending at a position |
| TitleSuffix.StripSuffix | ContactCrawler-Final/src/main/java/com/contactcrawler/util/ContactParser.java:122-123 | the replacement never lengthens the title |
| TitleSuffix.DotRunSingleLine | src/main/java/com/example/crawler/util/ContactExtractor.java:82 | on one line `.*` reaches the end |
| TitleSuffix.TailEndSingleLine | src/main/java/com/example/crawler/util/ContactExtractor.java:82 | on one line the suffix ends at the end |
| TitleSuffix.StripSuffixNoSeparator | src/main/java/com/example/crawler/util/ContactExtractor.java:82 | a title without separators is unchanged |
| TitleSuffix.FirstSeparatorIsGood | src/main/java/com/example/crawler/util/ContactExtractor.java:82 | on one line the first separator is where the match starts |
| TitleSuffix.StripSuffixSingleLine | src/main/java/com/example/crawler/util/ContactExtractor.java:82 | on one line the replacement cuts at the space run before the first separator, and trimming gives the trimmed text before it |
| TitleSuffix.TrimDropsSpaceRun | src/main/java/com/example/crawler/util/ContactExtractor.java:82-83 | trimming forgets a trailing space run |
| TitleSuffix.TrimDropsSpaces | src/main/java/com/example/crawler/util/ContactExtractor.java:82-83 | trimming forgets appended `\s` characters |
| TitleSuffix.DotRunExample | src/main/java/com/example/crawler/util/ContactExtractor.java:82 | `.*` stops at a line break |
| TitleSuffix.OnlySeparatorOfExample | src/main/java/com/example/crawler/util/ContactExtractor.java:82 | the example title has one separator |
| TitleSuffix.StripSuffixStopsAtLineBreak | src/main/java/com/example/crawler/util/ContactExtractor.java:82 | `"Acme - Home\nWelcome"` is left whole, since `$` without MULTILINE cannot match before the line break |
| Urls.StripWww | ContactCrawler-Final/src/main/java/com/contactcrawler/service/CrawlerService.java:275-277 | one leading `www.` is removed when present; otherwise the host is unchanged |
| ExampleHtmlParser.ExtractLinks | src/main/java/com/example/crawler/util/HtmlParser.java:74-121 | the links the loop collects are those `Links` describes, without duplicates |
| ExampleHtmlParser.LinksMembership | src/main/java/com/example/crawler/util/HtmlParser.java:74-121 | a link is returned iff the HTML is non-blank, the base URL parses, and some non-blank href resolves to it as an `http(s)` URL that parses. Any failure yields the empty list |
| ExampleHtmlParser.ResolveUnderBase | src/main/java/com/example/crawler/util/HtmlParser.java:95-101 | absolute `http(s)` links are kept; every other link lands under `protocol://host/` |
| ExampleHtmlParser.ResolveExamples | src/main/java/com/example/crawler/util/HtmlParser.java:95-101 | `/p`, `./p` and `p` all resolve to `https://example.com/p` |
| FinalLinkExtractor.ExtractLinks | ContactCrawler-Final/src/main/java/com/contactcrawler/util/LinkExtractor.java:15-56 | the links the loop collects are those `Links` describes, without duplicates |
| FinalLinkExtractor.LinksMembership | ContactCrawler-Final/src/main/java/com/contactcrawler/util/LinkExtractor.java:15-56 | a link is returned iff the HTML is non-empty and some anchor's accepted `http(s)` URL cleans to it; malformed anchors affect nothing else |
| FinalLinkExtractor.CleanUrlPrefix | ContactCrawler-Final/src/main/java/com/contactcrawler/util/LinkExtractor.java:34 | the clean URL starts with `protocol://` |
| FinalLinkExtractor.AnchorLinkIsWeb | ContactCrawler-Final/src/main/java/com/contactcrawler/util/LinkExtractor.java:32-44 | an anchor's link starts with `http://` or `https://` |
| FinalLinkExtractor.LinksAreWeb | ContactCrawler-Final/src/main/java/com/contactcrawler/util/LinkExtractor.java:15-56 | every returned link is `http://` or `https://` |
| FinalLinkExtractor.PortTextRoundTrip | ContactCrawler-Final/src/main/java/com/contactcrawler/util/LinkExtractor.java:35-37 | the port text is empty for no port, 80 or 443, else `:` and the port's digits, which read back as the port |
| FinalLinkExtractor.ParseTail | ContactCrawler-Final/src/main/java/com/contactcrawler/util/LinkExtractor.java:38-43 | path and query text read back as path and query, with no fragment |
| FinalLinkExtractor.ParseCleanAuthority | ContactCrawler-Final/src/main/java/com/contactcrawler/util/LinkExtractor.java:34-43 | host and port text read back as the canonical host and port |
| FinalLinkExtractor.ParseWebScheme | ContactCrawler-Final/src/main/java/com/contactcrawler/util/LinkExtractor.java:32 | `http:` and `https:` are read as the scheme |
| FinalLinkExtractor.ParseCleanHierarchical | ContactCrawler-Final/src/main/java/com/contactcrawler/util/LinkExtractor.java:34-43 | the part after the scheme reads back as the canonical parts |
| FinalLinkExtractor.ParseCleanUrl | ContactCrawler-Final/src/main/java/com/contactcrawler/util/LinkExtractor.java:34-43 | parsing a clean URL gives its canonical parts: no default port, no empty query, no fragment |
| FinalLinkExtractor.CleanUrlIdempotent | ContactCrawler-Final/src/main/java/com/contactcrawler/util/LinkExtractor.java:30-44 | cleaning a clean URL again gives the same string |
| FinalDataProcessing.SortKeyIgnoresCase | ContactCrawler-Final/src/main/java/com/contactcrawler/service/DataProcessingService.java:80 | the sort key is chosen by the lower-cased name |
| FinalDataProcessing.SortKeyFallbacks | ContactCrawler-Final/src/main/java/com/contactcrawler/service/DataProcessingService.java:76-89 | a null, empty, `name` or unknown key sorts by name |
| FinalDataProcessing.SortKeyWebsite | ContactCrawler-Final/src/main/java/com/contactcrawler/service/DataProcessingService.java:83-84 | `Website` sorts by website |
| FinalDataProcessing.SortKeyCrawledAt | ContactCrawler-Final/src/main/java/com/contactcrawler/service/DataProcessingService.java:85-87 | `crawledAt` sorts by crawl time |
| FinalDataProcessing.SortKeyCrawledUnderscore | ContactCrawler-Final/src/main/java/com/contactcrawler/service/DataProcessingService.java:86-87 | `CRAWLED_AT` sorts by crawl time |
| FinalDataProcessing.KeyComparatorIsTotalPreorder | ContactCrawler-Final/src/main/java/com/contactcrawler/service/DataProcessingService.java:75-91 | every key comparator (nulls last, `String.compareTo`) is a total preorder |
| FinalDataProcessing.OrderIsTotalPreorder | ContactCrawler-Final/src/main/java/com/contactcrawler/service/DataProcessingService.java:45-48 | so is the chosen order, reversed or not |
| FinalDataProcessing.ProcessAndSortFacts | ContactCrawler-Final/src/main/java/com/contactcrawler/service/DataProcessingService.java:27-52 | the result is a permutation of the matching organisations, sorted by the chosen order. An organisation is in it iff it is stored and, for a non-blank term, its lower-cased name, website, e-mail or address, or raw phone, contains the lower-cased term |
| FinalDataProcessing.BlankTermKeepsAll | ContactCrawler-Final/src/main/java/com/contactcrawler/service/DataProcessingService.java:33 | a null or blank term keeps every organisation |
| FinalDataProcessing.NullsPlacement | ContactCrawler-Final/src/main/java/com/contactcrawler/service/DataProcessingService.java:45-89 | ascending puts organisations without the key last; descending puts them first |
| FinalDataProcessing.ForkJoinAgreesWithSortByName | ContactCrawler-Final/src/main/java/com/contactcrawler/service/DataProcessingService.java:54-73 | `processWithForkJoinPool` throws iff at least two organisations match and one of them has no name. Otherwise it is the same filter sorted by name |
| ExampleDataProcessing.SortKeyIgnoresCase | src/main/java/com/example/crawler/service/DataProcessingService.java:54 | the key is chosen by the lower-cased name |
| ExampleDataProcessing.SortKeyFallbacks | src/main/java/com/example/crawler/service/DataProcessingService.java:54-66 | a null key and `name` sort by name |
| ExampleDataProcessing.SortKeyUnderscoreIsName | src/main/java/com/example/crawler/service/DataProcessingService.java:59-66 | unlike the Final crawler, `crawled_at` sorts by name |
| ExampleDataProcessing.SortKeyCrawledAt | src/main/java/com/example/crawler/service/DataProcessingService.java:59-61 | `CrawledAt` sorts by crawl time |
| ExampleDataProcessing.ComparatorIsTotalPreorder | src/main/java/com/example/crawler/service/DataProcessingService.java:51-70 | the comparator (case-insensitive names and websites, natural crawl times, nulls last, reversed when descending) is a total preorder |
| ExampleDataProcessing.FilterAndSortFacts | src/main/java/com/example/crawler/service/DataProcessingService.java:25-49 | the result is a permutation of the matching companies, sorted by the comparator. A company is in it iff it is stored and matches the term |
| ExampleDataProcessing.BlankTermKeepsAll | src/main/java/com/example/crawler/service/DataProcessingService.java:37-39 | a null or blank term keeps every company |
| ExampleDataProcessing.NullsPlacement | src/main/java/com/example/crawler/service/DataProcessingService.java:51-70 | ascending puts companies without the key last; descending puts them first |
| ExampleDataProcessing.CaseOnlyNamesTie | src/main/java/com/example/crawler/service/DataProcessingService.java:65-66 | names that differ only in case compare equal |
| Ordering.LexLeIsTotalPreorder | ContactCrawler-Final/src/main/java/com/contactcrawler/service/DataProcessingService.java:77-89 | `String.compareTo` order is a total preorder |
| Ordering.CaseInsensitiveOrderIsTotalPreorder | src/main/java/com/example/crawler/service/DataProcessingService.java:55-66 | `String.CASE_INSENSITIVE_ORDER` is a total preorder |
| Ordering.IntLeIsTotalPreorder | src/main/java/com/example/crawler/service/DataProcessingService.java:59-61 | natural order on times is a total preorder |
| Ordering.NullsLastIsTotalPreorder | src/main/java/com/example/crawler/service/DataProcessingService.java:55-66 | `nullsLast` of a total preorder is a total preorder |
| Ordering.ComparingIsTotalPreorder | src/main/java/com/example/crawler/service/DataProcessingService.java:55-66 | `comparing(key, order)` of a total preorder is a total preorder |
| Ordering.ReversedIsTotalPreorder | src/main/java/com/example/crawler/service/DataProcessingService.java:68-70 | `reversed()` of a total preorder is a total preorder |
| Ordering.SortBySorted | src/main/java/com/example/crawler/service/DataProcessingService.java:31 | under a total preorder the sort returns its input sorted (`SortBy` itself keeps the multiset) |
| Pagination.SubList | ContactCrawler-Final/src/main/java/com/contactcrawler/controller/DataController.java:53-56 | `subList(from, to)` succeeds iff `0 ≤ from ≤ to ≤ n`, and then holds exactly those elements |
| Pagination.PageOf | ContactCrawler-Final/src/main/java/com/contactcrawler/controller/DataController.java:51-56 | a page holds at most `size` elements, is empty beyond the end, and is full when it lies within the list |
| Pagination.PagesTile | ContactCrawler-Final/src/main/java/com/contactcrawler/controller/DataController.java:51-56 | the pages before page `p` are exactly the first `min(p·size, n)` elements |
| Pagination.SliceIsPage | src/main/java/com/example/crawler/controller/DataController.java:51-53 | for a non-negative page and size the overflow-free slice is the page |
| Pagination.SliceOfNegativePage | src/main/java/com/example/crawler/controller/DataController.java:51-53 | a negative page of a positive size makes `subList` throw |
| Pagination.TotalPages | ContactCrawler-Final/src/main/java/com/contactcrawler/controller/DataController.java:61 | `(int) Math.ceil((double) n / size)` is never negative for a non-negative size and never positive for a negative one |
| Pagination.CeilDivBounds | ContactCrawler-Final/src/main/java/com/contactcrawler/controller/DataController.java:61 | the ceiling quotient lies between 0 and `n` |
| Pagination.FloorDivBounds | src/main/java/com/example/crawler/controller/DataController.java:60 | the floor quotient lies between 0 and `n` |
| Pagination.TotalPagesCovers | ContactCrawler-Final/src/main/java/com/contactcrawler/controller/DataController.java:61 | the page count is the least `r` with `r·size ≥ n` |
| Pagination.PagesCoverList | ContactCrawler-Final/src/main/java/com/contactcrawler/controller/DataController.java:51-61 | the pages before the page count hold the whole list, and the page at the count is empty |
| FinalDataController.SliceAsWrittenInRange | ContactCrawler-Final/src/main/java/com/contactcrawler/controller/DataController.java:51-56 | while `page·size + size` fits in an `int`, the slice as written is the page |
| FinalDataController.SliceAsWrittenWraps | ContactCrawler-Final/src/main/java/com/contactcrawler/controller/DataController.java:51-56 | page 2^30 of size 4 wraps `start` to 0 and returns the first elements, where the page is empty |
| FinalDataController.RespondFacts | ContactCrawler-Final/src/main/java/com/contactcrawler/controller/DataController.java:51-63 | for a non-negative page and size the response holds the page, `n`, the page and size, and a page count under which the pages hold the list; a negative page fails |
| FinalDataController.GetAnswerRejects | ContactCrawler-Final/src/main/java/com/contactcrawler/controller/DataController.java:36 | `getAnswer` fails iff `PageRequest.of` rejects the page or size |
| FinalDataController.GetAnswerFacts | ContactCrawler-Final/src/main/java/com/contactcrawler/controller/DataController.java:28-69 | an accepted request gets the page of the processed and sorted list, its length, and a page count covering it |
| FinalDataController.GetCompaniesFacts | ContactCrawler-Final/src/main/java/com/contactcrawler/controller/DataController.java:71-98 | for a non-negative page and size, `getCompanies` answers with the page of the processed and sorted list (cut without overflow; the `int` wrap is recorded under Left out and Findings), its length, and for a positive size a page count covering it; it skips the `PageRequest` checks, and a negative page of a positive size fails |
| ExampleDataController.SliceAsWrittenInRange | src/main/java/com/example/crawler/controller/DataController.java:51-53 | while `(page + 1)·size` fits in an `int`, the slice as written is the page |
| ExampleDataController.SliceAsWrittenWraps | src/main/java/com/example/crawler/controller/DataController.java:51-53 | page 2^30 of size 4 wraps to the first elements, where the page is empty |
| ExampleDataController.RespondFacts | src/main/java/com/example/crawler/controller/DataController.java:51-61 | for a non-negative page and size the response holds the page, `n`, and a page count covering the list; a negative page fails |
| ExampleDataController.GetAnswerSortedByName | src/main/java/com/example/crawler/controller/DataController.java:43-64 | the answer is the page of the matching companies sorted by name ascending, with their count |
| ParsingBenchmark.LowerAll | src/main/java/com/example/crawler/benchmark/ParsingBenchmark.java:48-49 | one lower-cased string per match |
| ParsingBenchmark.LowerAllAt | src/main/java/com/example/crawler/benchmark/ParsingBenchmark.java:48-49 | the `i`-th is the `i`-th match lower-cased |
| ParsingBenchmark.ExtractEmailsWithForLoop | src/main/java/com/example/crawler/benchmark/ParsingBenchmark.java:44-56 | the contains-then-add loop gives the lower-cased matches with repeats dropped |
| ParsingBenchmark.ExtractEmailsWithStream | src/main/java/com/example/crawler/benchmark/ParsingBenchmark.java:59-92 | the `distinct()` variants give the same list as the loop |
| ParsingBenchmark.ExtractedEmails | src/main/java/com/example/crawler/benchmark/ParsingBenchmark.java:44-92 | the result has no duplicates and is all lower-case; an address is in it iff it is some match lower-cased |

## Left out

- Concurrency:
  - Thread pools, the several workers and the monitor thread are not modelled. The Final crawler starts `min(|urls|, 5)` workers; the model runs one.
  - `Thread.sleep` rate limiting and interrupts are not modelled, except for the monitor's interrupted sleep.
  - Atomic counters become plain fields. Each worker iteration is atomic with respect to the monitor. The source's monitor can also run in the middle of an iteration, for example while a page is fetched with the queue momentarily empty, and can then complete a job early; the model does not capture that.
- The Final worker on an empty queue: the source sleeps 100 ms and repeats until the monitor changes the job's status. The model ends its loop there; with one worker nothing can refill the queue.
- Metrics counters, tracing and logging are not modelled, except for the parse-error counters, which the models keep because the properties mention them.
- The network is an input (`Web.fetch`):
  - the WebClient, RestTemplate and Feign clients;
  - Reactor retries;
  - `HtmlParser.fetchHtmlContent`.
- Jsoup parsing, the regular-expression `find` loops and `java.net.URL` are inputs: `Document`, `PageMatches`, hrefs, and a `string -> ParsedUrl` function.
  - `Urls.ParseUrl` is a reference reading of `java.net.URL`, used only to state that link cleaning is idempotent.
  - The e-mail pattern and the title-suffix pattern are modelled exactly, because they decide what the model keeps.
- A Java `HashSet` is a duplicate-free sequence in insertion order. The real iteration order, which decides which phone is "first" in the Final save, is unspecified.
- Sorting and matching:
  - `toLowerCase` and `CASE_INSENSITIVE_ORDER` fold case only for ASCII, Latin-1 and basic Cyrillic letters; every other character has no case. Strings compare by code point, so characters outside the Basic Multilingual Plane, which Java compares by UTF-16 unit, may order differently.
  - `LocalDateTime` is an `int`, and the clock and random UUIDs are parameters.
- Repository queries are a store modelled as a sequence, with lookups by phone and by website. Not modelled:
  - the paged `findAll`;
  - `searchOrganizations`, whose page `getAnswer` discards;
  - `findCompaniesWithContacts`, whose query (companies with contacts) is not part of this model;
  - the passthroughs `getByPhone`, `getByEmail`, `findCompaniesByPhone` and `findCompaniesByEmail`.
- The example crawler's `Future` handle is not modelled.
- A null start URL in the example crawler is not modelled: there `visitedUrls.contains(null)` throws and the crawl task fails. The model's URLs are strings, so `RunTask` always ends COMPLETED.
- The JMH set-up, `main` and the benchmark's generated page in `ParsingBenchmark` are not modelled. `extractEmailsWithParallelStream` and `extractEmailsWithStreamOptimized` share `ExtractEmailsWithStream`'s specification: `distinct` on an ordered stream keeps first occurrences.
- FinalDataController.GetAnswer: slices with the overflow-free `Pagination.Slice`; the `int` arithmetic as written is `SliceAsWritten`, and the wrap is reported under Findings.
- FinalDataController.GetCompanies: `getCompanies` computes `start = page * size` and `start + size` in the same wrapping `int` arithmetic. It is modelled with the overflow-free `Pagination.Slice`; `SliceAsWritten` covers its arithmetic too, and the wrap is the same Findings row.
- FinalDataController.GetCompaniesFacts: states the overflow-free page; as written, a page and size whose product passes the `int` range wrap (see `SliceAsWrittenWraps`).
- Ordering.SortBy: its contract states a sorted permutation but not stability (tied elements keeping their input order), which Java's `List.sort` and ordered `Stream.sorted` also promise.
- ExampleDataController.GetAnswer: the same, with its own `SliceAsWritten`.
- FinalCrawlerService.Page: its own contract only bounds the found count. `VisitFoundIff` states the full condition.
- ExampleCrawlerService.CrawlTotals: states the service total's relation to the crawl task's count (`TotalsAgree`), not its value in isolation, since other tasks share it.

## Findings

| source | as written | input that shows it | evidently intended | confidence | as-written member | corrected member |
|---|---|---|---|---|---|---|
| ContactCrawler-Final/src/main/java/com/contactcrawler/service/CrawlerService.java:120-236 | the worker stops when `processedCount` reaches `maxPages`, but the monitor completes only an empty queue | `maxPages = 1`, the one start URL `a` (so one worker), page `a` links to `b`: `b` is admitted and counted (`totalPages` 2), the worker stops with `b` queued, so the job stays RUNNING | a job whose worker has spent its budget is complete | not executed | FinalCrawlerService.BudgetStallsMonitor | FinalCrawlerService.CorrectedMonitorCompletes |
| ContactCrawler-Final/src/main/java/com/contactcrawler/service/CrawlerService.java:120-236 | admission checks only the visited map, so a URL already queued is queued again and counted twice in `totalPages` | start `a`; `a` links to `b`, `c`; `b` links to `c`: the queue ends empty with 3 processed and `totalPages` 4, so the job stays RUNNING | each URL counted once, so an emptied queue means processed = `totalPages` | not executed | FinalCrawlerService.DuplicateLinkStallsMonitor | FinalCrawlerService.SkipQueuedCountsExactly |
| ContactCrawler-Final/src/main/java/com/contactcrawler/controller/DataController.java:51-84 | `page * size` and `start + size` are `int` arithmetic, in `getAnswer` (:51-56) and in `getCompanies` (:83-84) alike | `page = 2^30`, `size = 4`, a 10-element list: `start` wraps to 0 and the first 4 elements come back | an empty page beyond the end | not executed | FinalDataController.SliceAsWrittenWraps | Pagination.SliceIsPage |
| src/main/java/com/example/crawler/controller/DataController.java:51-53 | `page * size` and `(page + 1) * size` are `int` arithmetic | `page = 2^30`, `size = 4`, a 10-element list: the first 4 elements come back | an empty page beyond the end | not executed | ExampleDataController.SliceAsWrittenWraps | Pagination.SliceIsPage |
