/**
 A small concrete crawl: seed A links to B and C, B links to C, C links
 nowhere; A has one "x", B two "y", C one "x" and one "y". With depth 2, no
 ignore patterns and a deadline that is never passed, all three pages are
 visited, each parsed once, and the aggregate is x = 2, y = 3.
 */
module Scenario {
  import opened WordCounts
  import opened CrawlSpec

  function SamplePage(url: string): Page
  {
    if url == "A" then Page(map["x" := 1], ["B", "C"])
    else if url == "B" then Page(map["y" := 2], ["C"])
    else if url == "C" then Page(map["x" := 1, "y" := 1], [])
    else Page(map[], [])
  }

  const SampleConfig: Config :=
    Config(100, k => 0, SamplePage, [], (pattern, url) => false)

  lemma SampleCrawl()
    ensures var r := Crawl(SampleConfig, "A", 2, State({}, map[], 0, []));
      r.visited == {"A", "B", "C"} && r.fetched == ["A", "B", "C"] && r.counts == map["x" := 2, "y" := 3]
  {
    var cfg := SampleConfig;
    var st0 := State({}, map[], 0, []);
    var sA := Visit(cfg, "A", st0.(clockReads := 1));
    CrawlProceeds(cfg, "A", 2, st0);
    var sB := Visit(cfg, "B", sA.(clockReads := 2));
    CrawlProceeds(cfg, "B", 1, sA);
    assert CrawlAll(cfg, ["C"], 1, sB) == Crawl(cfg, "C", 0, CrawlAll(cfg, [], 1, sB));
    assert Crawl(cfg, "B", 1, sA) == sB;
    var sC := Visit(cfg, "C", sB.(clockReads := 3));
    CrawlProceeds(cfg, "C", 1, sB);
    assert Crawl(cfg, "C", 1, sB) == sC;
    assert CrawlAll(cfg, ["B", "C"], 2, sA) == Crawl(cfg, "C", 1, CrawlAll(cfg, ["B"], 2, sA));
    assert CrawlAll(cfg, ["B"], 2, sA) == Crawl(cfg, "B", 1, CrawlAll(cfg, [], 2, sA));
    SampleCounts();
  }

  /** The three merges of the sample crawl, in parse order. */
  lemma SampleCounts()
    ensures Merged(Merged(Merged(map[], map["x" := 1]), map["y" := 2]), map["x" := 1, "y" := 1])
      == map["x" := 2, "y" := 3]
  {
    var m1 := Merged(map[], map["x" := 1]);
    assert m1 == map["x" := 1] by {
      assert m1.Keys == {"x"};
    }
    var m2 := Merged(m1, map["y" := 2]);
    assert m2 == map["x" := 1, "y" := 2] by {
      assert m2.Keys == {"x", "y"};
    }
    var m3 := Merged(m2, map["x" := 1, "y" := 1]);
    assert m3.Keys == {"x", "y"};
  }

  /**
   A link graph where A's links come in the order `first`: A links to those,
   B links to C, C links to D, D links nowhere. No page has any words.
   */
  function ChainPage(first: seq<string>, url: string): Page
  {
    if url == "A" then Page(map[], first)
    else if url == "B" then Page(map[], ["C"])
    else if url == "C" then Page(map[], ["D"])
    else Page(map[], [])
  }

  function ChainConfig(first: seq<string>): Config
  {
    Config(100, k => 0, u => ChainPage(first, u), [], (pattern, url) => false)
  }

  /**
   The set of visited URLs depends on the order in which child tasks run,
   because a URL is claimed by whichever task reaches it first, at whatever
   depth budget that task has left. From A with depth 3: when B's task runs
   before C's, B's child claims C with depth 1 left, so D is never visited;
   when C's task runs first, C is claimed with depth 2 left and D is visited.
   */
  lemma OrderMatters()
    ensures "D" !in Crawl(ChainConfig(["B", "C"]), "A", 3, State({}, map[], 0, [])).visited
    ensures "D" in Crawl(ChainConfig(["C", "B"]), "A", 3, State({}, map[], 0, [])).visited
  {
    BeforeC();
    CFirst();
  }

  lemma BeforeC()
    ensures Crawl(ChainConfig(["B", "C"]), "A", 3, State({}, map[], 0, [])).visited == {"A", "B", "C"}
  {
    var cfg := ChainConfig(["B", "C"]);
    var st0 := State({}, map[], 0, []);
    var sA := Visit(cfg, "A", st0.(clockReads := 1));
    CrawlProceeds(cfg, "A", 3, st0);
    assert CrawlAll(cfg, ["B", "C"], 3, sA) == Crawl(cfg, "C", 2, CrawlAll(cfg, ["B"], 3, sA));
    assert CrawlAll(cfg, ["B"], 3, sA) == Crawl(cfg, "B", 2, CrawlAll(cfg, [], 3, sA));
    var sB := Visit(cfg, "B", sA.(clockReads := 2));
    CrawlProceeds(cfg, "B", 2, sA);
    assert CrawlAll(cfg, ["C"], 2, sB) == Crawl(cfg, "C", 1, CrawlAll(cfg, [], 2, sB));
    var sC := Visit(cfg, "C", sB.(clockReads := 3));
    CrawlProceeds(cfg, "C", 1, sB);
    assert CrawlAll(cfg, ["D"], 1, sC) == Crawl(cfg, "D", 0, CrawlAll(cfg, [], 1, sC));
    assert Crawl(cfg, "B", 2, sA) == sC;
    CrawlEntry(cfg, "C", 2, sC);
  }

  lemma CFirst()
    ensures "D" in Crawl(ChainConfig(["C", "B"]), "A", 3, State({}, map[], 0, [])).visited
  {
    var cfg := ChainConfig(["C", "B"]);
    var st0 := State({}, map[], 0, []);
    var sA := Visit(cfg, "A", st0.(clockReads := 1));
    CrawlProceeds(cfg, "A", 3, st0);
    assert CrawlAll(cfg, ["C", "B"], 3, sA) == Crawl(cfg, "B", 2, CrawlAll(cfg, ["C"], 3, sA));
    assert CrawlAll(cfg, ["C"], 3, sA) == Crawl(cfg, "C", 2, CrawlAll(cfg, [], 3, sA));
    var sC := Visit(cfg, "C", sA.(clockReads := 2));
    CrawlProceeds(cfg, "C", 2, sA);
    assert CrawlAll(cfg, ["D"], 2, sC) == Crawl(cfg, "D", 1, CrawlAll(cfg, [], 2, sC));
    var sD := Visit(cfg, "D", sC.(clockReads := 3));
    CrawlProceeds(cfg, "D", 1, sC);
    assert CrawlAll(cfg, [], 1, sD) == sD;
    assert Crawl(cfg, "C", 2, sA) == sD;
    CrawlEffect(cfg, "B", 2, sD);
  }
}
