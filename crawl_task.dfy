/**
 The crawl task itself (CrawInternalTask.compute), run against the state that
 every task of one crawl shares by reference: the visited-URL set and the
 word-count map that the tasks update in place. A task is one call of
 `Compute`; its child tasks are the recursive calls, run one after another.
 */
module CrawlTask {
  import opened JavaInt
  import opened WordCounts
  import opened CrawlSpec

  class Crawler {
    /** Deadline, clock, parser and ignore patterns, the same for every task. */
    const cfg: Config
    /** The shared `visitedUrls` set. */
    var visitedUrls: set<string>
    /** The shared `counts` map. */
    var counts: Counts
    /** How many times the clock has been read. */
    var clockReads: nat
    /** The URLs the parser has been called on, in call order. */
    ghost var fetched: seq<string>
    /** The aggregate the crawl started with. */
    ghost const initialCounts: Counts

    ghost function Snapshot(): State
      reads this
    {
      State(visitedUrls, counts, clockReads, fetched)
    }

    /**
     The crawl's invariant: the parser ran at most once per URL and only on
     visited URLs, and `counts` is the starting aggregate with every parsed
     page merged in.
     */
    ghost predicate Valid()
      reads this
    {
      Consistent(cfg, initialCounts, Snapshot())
    }

    /** The shared state handed to the first task: existing `visitedUrls` and `counts`. */
    constructor (cfg: Config, visitedUrls: set<string>, counts: Counts)
      ensures this.cfg == cfg && this.visitedUrls == visitedUrls && this.counts == counts
      ensures clockReads == 0 && fetched == [] && initialCounts == counts
      ensures Valid()
    {
      this.cfg := cfg;
      this.visitedUrls := visitedUrls;
      this.counts := counts;
      clockReads := 0;
      fetched := [];
      initialCounts := counts;
      new;
      assert PageCounts(cfg, []) == [];
    }

    /** `clock.instant()`: the next reading of the clock. */
    method ReadClock() returns (now: int)
      modifies this`clockReads
      ensures now == cfg.clock(old(clockReads))
      ensures clockReads == old(clockReads) + 1
    {
      now := cfg.clock(clockReads);
      clockReads := clockReads + 1;
    }

    /** The scan of the ignore patterns, stopping at the first one that matches the whole URL. */
    method IsIgnored(url: string) returns (ignored: bool)
      ensures ignored == Ignored(cfg, url)
    {
      for i := 0 to |cfg.ignoredUrls|
        invariant forall k :: 0 <= k < i ==> !cfg.fullMatch(cfg.ignoredUrls[k], url)
      {
        if cfg.fullMatch(cfg.ignoredUrls[i], url) {
          return true;
        }
      }
      return false;
    }

    /** `visitedUrls.add(url)`: adds the URL and reports whether it was absent. */
    method TryVisit(url: string) returns (added: bool)
      modifies this`visitedUrls
      ensures added == (url !in old(visitedUrls))
      ensures visitedUrls == old(visitedUrls) + {url}
    {
      added := url !in visitedUrls;
      visitedUrls := visitedUrls + {url};
    }

    /**
     The merge loop over the page's (word, count) entries, in no particular
     order: a present word gets the page's count added, an absent word is
     inserted with it.
     */
    method MergeCounts(page: Counts)
      modifies this`counts
      ensures counts == Merged(old(counts), page)
    {
      var pending := page.Keys;
      while pending != {}
        invariant pending <= page.Keys
        invariant counts.Keys == old(counts).Keys + (page.Keys - pending)
        invariant forall w :: w in counts ==>
          counts[w] == (if w in page && w !in pending then
                          (if w in old(counts) then Add(page[w], old(counts)[w]) else page[w])
                        else old(counts)[w])
        decreases pending
      {
        var w :| w in pending;
        if w in counts {
          counts := counts[w := Add(page[w], counts[w])];
        } else {
          counts := counts[w := page[w]];
        }
        pending := pending - {w};
      }
      assert counts.Keys == Merged(old(counts), page).Keys;
    }

    /**
     One crawl task for `url` with depth budget `maxDepth`. It does exactly what
     `Crawl` says and keeps the crawl's invariant.
     */
    method Compute(url: string, maxDepth: nat)
      requires Valid()
      modifies this
      ensures Valid()
      ensures Snapshot() == Crawl(cfg, url, maxDepth, old(Snapshot()))
      decreases maxDepth, 1
    {
      ghost var st0 := Snapshot();
      CrawlEntry(cfg, url, maxDepth, st0);
      if maxDepth == 0 {
        return;
      }
      var now := ReadClock();
      ghost var st1 := Snapshot();
      assert st1 == st0.(clockReads := st0.clockReads + 1);
      ConsistentAfterClockRead(cfg, initialCounts, st0);
      if now > cfg.deadline {
        return;
      }
      var ignored := IsIgnored(url);
      if ignored {
        return;
      }
      var added := TryVisit(url);
      if !added {
        return;
      }
      var page := cfg.parse(url);
      fetched := fetched + [url];
      MergeCounts(page.wordCounts);
      ghost var st2 := Snapshot();
      assert st2 == Visit(cfg, url, st1);
      VisitConsistent(cfg, initialCounts, url, st1);
      InvokeAll(page.links, maxDepth);
      CrawlProceeds(cfg, url, maxDepth, st0);
    }

    /**
     `invokeAll` over the child tasks, one per link of the page, each with one
     level less of depth; they run one after another.
     */
    method InvokeAll(links: seq<string>, maxDepth: nat)
      requires Valid() && maxDepth >= 1
      modifies this
      ensures Valid()
      ensures Snapshot() == CrawlAll(cfg, links, maxDepth, old(Snapshot()))
      decreases maxDepth, 0
    {
      ghost var start := Snapshot();
      for i := 0 to |links|
        invariant Valid()
        invariant Snapshot() == CrawlAll(cfg, links[..i], maxDepth, start)
      {
        ghost var before := Snapshot();
        CrawlAllStep(cfg, links, i, maxDepth, start);
        Compute(links[i], maxDepth - 1);
        assert Snapshot() == Crawl(cfg, links[i], maxDepth - 1, before);
      }
      CrawlAllWhole(cfg, links, maxDepth, start);
    }
  }
}
