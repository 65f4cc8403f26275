# Web crawler crawl task, modelled in Dafny

This project models the recursive crawl task of the Udacity web crawler,
`CrawInternalTask.compute`. One task gets a URL and a depth budget. It does the following, in order:

1. It stops if the budget is 0 or the clock reads strictly after the deadline.
2. It stops if the URL fully matches an ignore pattern.
3. It stops if adding the URL to the shared visited set finds the URL already there.
4. Otherwise it parses the page and merges the page's word counts into the shared count map.
5. It then runs one child task per link, each with one less level of depth.

The model has five parts:

- `java_int.dfy` (module `JavaInt`): Java's 32-bit `int`. The counts are `Integer`s, and `a + b` on them wraps around modulo 2^32.
- `word_counts.dfy` (module `WordCounts`): the count map and the merge of one page into it. A merge fold (`MergeAll`) covers several pages, and `Total` gives the exact sum it is proved against.
- `crawl_spec.dfy` (module `CrawlSpec`): a task as pure functions.
  - `Crawl` is one task and `CrawlAll` is the run of child tasks, over a `State`. The state holds the visited set, the count map, the number of clock readings so far and the log of parsed URLs.
  - `Config` holds what every task of a crawl shares: the deadline, the clock (`clock(k)` is the k-th reading), the parser (`parse(url)`), the ignore patterns and the full-match test.
  - It also holds the lemmas about whole recursive crawls.
- `crawl_task.dfy` (module `CrawlTask`): the imperative task.
  - Class `Crawler` holds the shared visited set and count map as fields that its methods update in place.
  - `Compute` is one task. The children are recursive calls made in a loop (`InvokeAll`).
  - `Compute` is proved to produce exactly the state `Crawl` specifies, and to keep the crawl invariant `Valid`. The invariant says the parser ran at most once per URL, only on visited URLs, and the count map is the starting map with every parsed page merged in.
- `scenario.dfy` (module `Scenario`): a three-page example crawl, worked out completely, and a four-page graph on which the order of the child tasks changes which pages are visited.

Two facts about the code shape the model:

- Line 55 does not catch exceptions from the parser, so the model has no "empty page on error" path.
- The deadline test at line 44 is `isAfter`, which is strict: a task whose clock reading equals the deadline goes on.

## Model

| member | source | states |
|---|---|---|
| CrawlTask.Crawler.constructor | starter/webcrawler/src/main/java/com/udacity/webcrawler/CrawInternalTask.java:25-41 | the task shares the given visited set and count map; nothing has been parsed yet and the crawl invariant holds |
| CrawlTask.Crawler.ReadClock | starter/webcrawler/src/main/java/com/udacity/webcrawler/CrawInternalTask.java:44 | returns the next clock reading and advances the reading count by one |
| CrawlTask.Crawler.IsIgnored | starter/webcrawler/src/main/java/com/udacity/webcrawler/CrawInternalTask.java:47-51 | the scan over the patterns returns true exactly when some pattern fully matches the URL |
| CrawlTask.Crawler.TryVisit | starter/webcrawler/src/main/java/com/udacity/webcrawler/CrawInternalTask.java:52 | `add` puts the URL in the visited set and reports true exactly when it was absent before |
| CrawlTask.Crawler.MergeCounts | starter/webcrawler/src/main/java/com/udacity/webcrawler/CrawInternalTask.java:56-62 | after the entry loop, the count map is the old map merged with the page (see `WordCounts.MergedLookup`) |
| CrawlTask.Crawler.Compute | starter/webcrawler/src/main/java/com/udacity/webcrawler/CrawInternalTask.java:43-76 | one task leaves the shared state exactly as `Crawl` says, and keeps the invariant (parser at most once per URL, only on visited URLs, counts = start merged with every parsed page) |
| CrawlTask.Crawler.InvokeAll | starter/webcrawler/src/main/java/com/udacity/webcrawler/CrawInternalTask.java:63-74 | running the child tasks one per link, in link order, leaves the state `CrawlAll` says and keeps the invariant |
| JavaInt.Add | starter/webcrawler/src/main/java/com/udacity/webcrawler/CrawInternalTask.java:58 | Java `int` addition: the true sum when it fits, otherwise the sum shifted by 2^32 back into range |
| JavaInt.Wrap | starter/webcrawler/src/main/java/com/udacity/webcrawler/CrawInternalTask.java:58 | the `int` that Java's arithmetic yields for a mathematical value: the value itself when it is in `int` range, otherwise shifted by whole multiples of 2^32 into range |
| CrawlSpec.Crawl | starter/webcrawler/src/main/java/com/udacity/webcrawler/CrawInternalTask.java:43-76 | reference definition of one task on the shared state: depth 0 returns untouched without reading the clock; otherwise one clock reading, then stop if it is after the deadline, if a pattern ignores the URL or if the URL is already visited; otherwise `Visit` and then `CrawlAll` over the page's links |
| CrawlSpec.Visit | starter/webcrawler/src/main/java/com/udacity/webcrawler/CrawInternalTask.java:52-62 | reference definition of a successful claim: the URL joins the visited set and the parse log, and its page's counts are merged with `Merged` |
| CrawlSpec.CrawlAll | starter/webcrawler/src/main/java/com/udacity/webcrawler/CrawInternalTask.java:63-74 | reference definition of the child tasks: one `Crawl` per link with depth `maxDepth - 1`, run in link order on the state the previous one left |
| WordCounts.MergeAll | starter/webcrawler/src/main/java/com/udacity/webcrawler/CrawInternalTask.java:56-62 | reference definition of merging several pages' counts one after another, in order, with `Merged` |
| WordCounts.Merged | starter/webcrawler/src/main/java/com/udacity/webcrawler/CrawInternalTask.java:56-62 | after a merge, the words present are the old ones plus the page's |
| WordCounts.MergedLookup | starter/webcrawler/src/main/java/com/udacity/webcrawler/CrawInternalTask.java:56-62 | a merged word's count is old count + page count (absent = 0, `int` wrap-around); a word not on the page keeps its count |
| WordCounts.MergeAllKeys | starter/webcrawler/src/main/java/com/udacity/webcrawler/CrawInternalTask.java:56-62 | after several merges, a word is present exactly when it was before or some merged page has it |
| WordCounts.MergeAllTotal | starter/webcrawler/src/main/java/com/udacity/webcrawler/CrawInternalTask.java:56-62 | after several merges, a word's count is its starting count plus the exact sum of its page counts, reduced mod 2^32 into `int` range |
| WordCounts.MergeAllExact | starter/webcrawler/src/main/java/com/udacity/webcrawler/CrawInternalTask.java:56-62 | when that true sum fits in an `int`, the count is exactly the sum |
| WordCounts.MergeAllOrderIndependent | starter/webcrawler/src/main/java/com/udacity/webcrawler/CrawInternalTask.java:56-62 | merging the same pages in any order gives the same count map (this is about the merge alone; which pages get parsed can depend on task order, see `Scenario.OrderMatters`) |
| WordCounts.TotalPermutation | starter/webcrawler/src/main/java/com/udacity/webcrawler/CrawInternalTask.java:56-62 | the exact sum of a word's counts does not depend on the order of the pages |
| CrawlSpec.CrawlEntry | starter/webcrawler/src/main/java/com/udacity/webcrawler/CrawInternalTask.java:44-54 | depth 0 changes nothing, not even the clock; a reading strictly after the deadline, an ignored URL or a visited URL changes only the clock count; otherwise the URL is marked visited and parsed first |
| CrawlSpec.VisitEffect | starter/webcrawler/src/main/java/com/udacity/webcrawler/CrawInternalTask.java:52-62 | claiming an unvisited URL parses only that URL, adds only it to the visited set and merges only its page |
| CrawlSpec.CrawlEffect | starter/webcrawler/src/main/java/com/udacity/webcrawler/CrawInternalTask.java:43-76 | a whole task (recursion included) parses distinct URLs, none visited before; the visited set grows by exactly those; counts gain exactly their pages, in parse order |
| CrawlSpec.CrawlAllEffect | starter/webcrawler/src/main/java/com/udacity/webcrawler/CrawInternalTask.java:63-74 | the same for the run of child tasks |
| CrawlSpec.CrawlFetchesWithin | starter/webcrawler/src/main/java/com/udacity/webcrawler/CrawInternalTask.java:43-76 | a task parses only unignored URLs at most `maxDepth - 1` links from its URL, and none at depth 0 |
| CrawlSpec.CrawlAllFetchesWithin | starter/webcrawler/src/main/java/com/udacity/webcrawler/CrawInternalTask.java:63-74 | the child tasks parse only unignored URLs at most `maxDepth - 2` links from one of the links |
| CrawlSpec.CrawlNeverClaimsIgnored | starter/webcrawler/src/main/java/com/udacity/webcrawler/CrawInternalTask.java:47-51 | an ignored URL is never parsed and its visited status is never changed, whatever the depth or the path to it |
| CrawlSpec.CrawlVisitsWithinDepth | starter/webcrawler/src/main/java/com/udacity/webcrawler/CrawInternalTask.java:63-67 | every URL a task newly marks visited is at most `maxDepth - 1` links from the task's URL |
| CrawlSpec.AccumulatedTotals | starter/webcrawler/src/main/java/com/udacity/webcrawler/CrawInternalTask.java:52-62 | when exactly the newly parsed pages were merged, each word's count is its start count plus their total (mod 2^32), and its key is present exactly when it was or one of them has it |
| CrawlSpec.CrawlWordTotals | starter/webcrawler/src/main/java/com/udacity/webcrawler/CrawInternalTask.java:52-74 | after a whole task, count[w] = start count[w] + sum of page(u)[w] over the newly parsed URLs (mod 2^32) |
| CrawlSpec.ConsistentPreserved | starter/webcrawler/src/main/java/com/udacity/webcrawler/CrawInternalTask.java:52-62 | parsing fresh URLs and merging exactly their pages keeps the crawl invariant |
| CrawlSpec.VisitConsistent | starter/webcrawler/src/main/java/com/udacity/webcrawler/CrawInternalTask.java:52-62 | claiming, parsing and merging an unvisited URL keeps the crawl invariant |
| CrawlSpec.CrawlConsistent | starter/webcrawler/src/main/java/com/udacity/webcrawler/CrawInternalTask.java:43-76 | a whole task keeps the crawl invariant |
| CrawlSpec.FreshCrawl | starter/webcrawler/src/main/java/com/udacity/webcrawler/CrawInternalTask.java:43-76 | from an empty visited set and map: visited = parsed URLs, each parsed once, count[w] = sum over visited pages (mod 2^32); depth 0 or a first reading past the deadline visits and counts nothing |
| Scenario.SampleCrawl | starter/webcrawler/src/main/java/com/udacity/webcrawler/CrawInternalTask.java:43-76 | the example A→[B,C], B→[C], C→[] with depth 2 visits {A, B, C}, parses them in that order and counts x = 2, y = 3 |
| Scenario.OrderMatters | starter/webcrawler/src/main/java/com/udacity/webcrawler/CrawInternalTask.java:52-74 | the visited set depends on the order child tasks run in: from A with depth 3, where B→[C] and C→[D], links [B, C] never visit D while links [C, B] do |

## Left out

- Fork/join concurrency is not modelled: `RecursiveTask`, `invokeAll`, `ConcurrentHashMap` and `ConcurrentSkipListSet`. Child tasks run one after another in link order. The merge at lines 57-60 is a containsKey/get/put sequence, not one atomic step. So the additivity proved here holds for this sequential run only, not under real interleaving.
- The crawl result is not independent of the order in which child tasks run, even with atomic merges. A URL is claimed by whichever task reaches it first, with whatever depth budget that task has left, so a URL claimed on a longer path can stop the crawl short of pages that a shorter path would have reached. `Scenario.OrderMatters` proves this for a four-page graph. The model fixes one order, link order, one task after another; under fork/join the visited set and the counts may differ from run to run.
- Regular-expression matching (`Pattern.matcher(url).matches()`) is the uninterpreted test `Config.fullMatch`.
- `Clock` and `Instant` are integer readings, `Config.clock(k)` for the k-th reading, against an integer deadline.
- `PageParserFactory.get(url).parse()` is the fixed function `Config.parse`, which is assumed to return the same page every time it is called on a URL. Network access and the parser's exceptions are not modelled. Such an exception leaves the URL marked visited, and since neither `compute` nor `invokeAll` (line 74) catches it, it propagates through every ancestor task to the root, may cancel sibling tasks, and ends the whole crawl.
- Negative `maxDepth` is not modelled: the depth is a `nat`. In Java a negative depth never reaches 0, so such a crawl is stopped only by the deadline and the visited set.
- The `Builder` (lines 78-131) only copies fields and is not modelled. The constructor is modelled by `CrawlTask.Crawler.constructor`.
- The crawler that builds the root tasks and reports the result is not part of this model.
- The profiler (`ProfilerImpl`, `ProfilingMethodInterceptor`) is not modelled: it consists of reflective proxies, file output and wall-clock timing.

