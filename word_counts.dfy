/**
 The shared word-count aggregate: a map from word to Java `int` count, and what
 merging one page's counts into it does (CrawInternalTask.java, lines 56-62).
 */
module WordCounts {
  import opened JavaInt

  /** A `Map<String, Integer>` of word counts. */
  type Counts = map<string, Int32>

  /** The count of `w` in `m`; a word that is absent counts as zero. */
  function Lookup(m: Counts, w: string): int
  {
    if w in m then m[w] else 0
  }

  /**
   The aggregate after one page's counts are merged into `counts`: a word of the
   page that is already present gets the page's count added (with `int`
   wrap-around), a word of the page that is absent is inserted with the page's
   count, and every other word keeps its count.
   */
  function Merged(counts: Counts, page: Counts): (r: Counts)
    ensures r.Keys == counts.Keys + page.Keys
  {
    map w | w in counts.Keys + page.Keys ::
      if w in page then (if w in counts then Add(page[w], counts[w]) else page[w])
      else counts[w]
  }

  /**
   After a merge, each word's count is its old count plus the page's, as a Java
   `int` sum: a word new to the aggregate gets the page's count and a word not
   on the page keeps its count.
   */
  lemma MergedLookup(counts: Counts, page: Counts, w: string)
    ensures Lookup(Merged(counts, page), w) == Wrap(Lookup(counts, w) + Lookup(page, w))
    ensures w in page && w !in counts ==> Merged(counts, page)[w] == page[w]
    ensures w !in page ==> Lookup(Merged(counts, page), w) == Lookup(counts, w)
  {
  }

  /** Some page has a count for `w`. */
  predicate Mentions(pages: seq<Counts>, w: string)
  {
    exists i :: 0 <= i < |pages| && w in pages[i]
  }

  /** The aggregate after the pages' counts are merged one after another, in order. */
  function MergeAll(counts: Counts, pages: seq<Counts>): Counts
  {
    if pages == [] then counts
    else Merged(MergeAll(counts, pages[..|pages| - 1]), pages[|pages| - 1])
  }

  /** A word is in the aggregate exactly when it was there before or some merged page has it. */
  lemma {:induction false} MergeAllKeys(counts: Counts, pages: seq<Counts>, w: string)
    ensures w in MergeAll(counts, pages) <==> w in counts || Mentions(pages, w)
    decreases |pages|
  {
    if pages != [] {
      var init := pages[..|pages| - 1];
      MergeAllKeys(counts, init, w);
      if Mentions(init, w) {
        var i :| 0 <= i < |init| && w in init[i];
        assert pages[i] == init[i];
      }
      if Mentions(pages, w) && w !in pages[|pages| - 1] {
        var i :| 0 <= i < |pages| && w in pages[i];
        assert init[i] == pages[i];
      }
    }
  }

  /** The exact (unbounded) sum of the counts of `w` over the pages. */
  function Total(pages: seq<Counts>, w: string): int
  {
    if pages == [] then 0 else Total(pages[..|pages| - 1], w) + Lookup(pages[|pages| - 1], w)
  }

  /** Merging a concatenation of pages is merging the first part, then the second. */
  lemma {:induction false} MergeAllAppend(counts: Counts, p: seq<Counts>, q: seq<Counts>)
    ensures MergeAll(counts, p + q) == MergeAll(MergeAll(counts, p), q)
    decreases |q|
  {
    if q == [] {
      assert p + q == p;
    } else {
      var q' := q[..|q| - 1];
      assert (p + q)[..|p + q| - 1] == p + q';
      assert (p + q)[|p + q| - 1] == q[|q| - 1];
      MergeAllAppend(counts, p, q');
    }
  }

  /** The last merge adds the last page's count to what the earlier merges left. */
  lemma MergeAllLast(counts: Counts, pages: seq<Counts>, w: string)
    requires pages != []
    ensures Lookup(MergeAll(counts, pages), w)
      == Wrap(Lookup(MergeAll(counts, pages[..|pages| - 1]), w) + Lookup(pages[|pages| - 1], w))
  {
    MergedLookup(MergeAll(counts, pages[..|pages| - 1]), pages[|pages| - 1], w);
  }

  /**
   Sum correctness of the aggregate: after merging, each word's count is its
   starting count plus its count on every merged page, reduced to an `int`
   as Java's additions reduce it.
   */
  lemma {:induction false} MergeAllTotal(counts: Counts, pages: seq<Counts>, w: string)
    ensures Lookup(MergeAll(counts, pages), w) == Wrap(Lookup(counts, w) + Total(pages, w))
    decreases |pages|
  {
    if pages == [] {
      assert Lookup(counts, w) + Total(pages, w) == Lookup(counts, w);
    } else {
      var init, last := pages[..|pages| - 1], pages[|pages| - 1];
      var before, m := Lookup(counts, w) + Total(init, w), Lookup(MergeAll(counts, init), w);
      assert m == Wrap(before) by {
        MergeAllTotal(counts, init, w);
      }
      assert Lookup(MergeAll(counts, pages), w) == Wrap(m + Lookup(last, w)) by {
        MergeAllLast(counts, pages, w);
      }
      assert Wrap(m + Lookup(last, w)) == Wrap(before + Lookup(last, w)) by {
        WrapAbsorbs(before, Lookup(last, w));
      }
    }
  }

  /** When the true sum fits in an `int`, the aggregate holds exactly that sum. */
  lemma MergeAllExact(counts: Counts, pages: seq<Counts>, w: string)
    requires -0x8000_0000 <= Lookup(counts, w) + Total(pages, w) < 0x8000_0000
    ensures Lookup(MergeAll(counts, pages), w) == Lookup(counts, w) + Total(pages, w)
  {
    MergeAllTotal(counts, pages, w);
  }

  lemma {:induction false} TotalAppend(p: seq<Counts>, q: seq<Counts>, w: string)
    ensures Total(p + q, w) == Total(p, w) + Total(q, w)
    decreases |q|
  {
    if q == [] {
      assert p + q == p;
    } else {
      var q' := q[..|q| - 1];
      assert (p + q)[..|p + q| - 1] == p + q';
      assert (p + q)[|p + q| - 1] == q[|q| - 1];
      TotalAppend(p, q', w);
    }
  }

  /** Removing one page from the sum takes away exactly that page's count. */
  lemma TotalRemove(q: seq<Counts>, j: nat, w: string)
    requires j < |q|
    ensures Total(q, w) == Total(q[..j] + q[j + 1..], w) + Lookup(q[j], w)
  {
    var single: seq<Counts> := [q[j]];
    assert q == q[..j] + single + q[j + 1..];
    assert single[..0] == [];
    TotalAppend(q[..j] + single, q[j + 1..], w);
    TotalAppend(q[..j], single, w);
    TotalAppend(q[..j], q[j + 1..], w);
  }

  /** The last page of `p` occurs somewhere in a permutation `q`, and the rest still match. */
  lemma MatchLast(p: seq<Counts>, q: seq<Counts>) returns (j: nat)
    requires p != [] && multiset(p) == multiset(q)
    ensures j < |q| && q[j] == p[|p| - 1]
    ensures multiset(p[..|p| - 1]) == multiset(q[..j] + q[j + 1..])
  {
    var n := |p| - 1;
    var x := p[n];
    assert p == p[..n] + [x];
    assert x in multiset(q);
    j :| 0 <= j < |q| && q[j] == x;
    var rest := q[..j] + q[j + 1..];
    assert q == q[..j] + [x] + q[j + 1..];
    assert multiset(q) == multiset(q[..j]) + multiset{x} + multiset(q[j + 1..]);
    assert multiset(rest) == multiset(q[..j]) + multiset(q[j + 1..]);
    assert multiset(p) == multiset(p[..n]) + multiset{x};
    assert multiset(p[..n]) == multiset(p) - multiset{x};
    assert multiset(p[..n]) == multiset(rest);
  }

  /** The sum over the pages does not depend on their order. */
  lemma {:induction false} TotalPermutation(p: seq<Counts>, q: seq<Counts>, w: string)
    requires multiset(p) == multiset(q)
    ensures Total(p, w) == Total(q, w)
    decreases |p|
  {
    if p == [] {
      assert |q| == |multiset(q)| == 0;
    } else {
      var j := MatchLast(p, q);
      TotalPermutation(p[..|p| - 1], q[..j] + q[j + 1..], w);
      TotalRemove(q, j, w);
    }
  }

  /** Two orders of the same pages mention the same words. */
  lemma MentionsPermutation(p: seq<Counts>, q: seq<Counts>, w: string)
    requires multiset(p) == multiset(q)
    ensures Mentions(p, w) <==> Mentions(q, w)
  {
    if Mentions(p, w) {
      var i :| 0 <= i < |p| && w in p[i];
      assert p[i] in multiset(q);
      var j :| 0 <= j < |q| && q[j] == p[i];
    }
    if Mentions(q, w) {
      var j :| 0 <= j < |q| && w in q[j];
      assert q[j] in multiset(p);
      var i :| 0 <= i < |p| && p[i] == q[j];
    }
  }

  /** Two page sequences with the same sum for `w` leave the same count for `w`. */
  lemma MergeAllLookupByTotal(counts: Counts, p: seq<Counts>, q: seq<Counts>, w: string)
    requires Total(p, w) == Total(q, w)
    ensures Lookup(MergeAll(counts, p), w) == Lookup(MergeAll(counts, q), w)
  {
    MergeAllTotal(counts, p, w);
    MergeAllTotal(counts, q, w);
  }

  lemma MergeAllLookupPermutation(counts: Counts, p: seq<Counts>, q: seq<Counts>, w: string)
    requires multiset(p) == multiset(q)
    ensures Lookup(MergeAll(counts, p), w) == Lookup(MergeAll(counts, q), w)
  {
    TotalPermutation(p, q, w);
    MergeAllLookupByTotal(counts, p, q, w);
  }

  /**
   Merging is order-independent: merging the same pages in any order gives
   the same aggregate.
   */
  lemma MergeAllOrderIndependent(counts: Counts, p: seq<Counts>, q: seq<Counts>)
    requires multiset(p) == multiset(q)
    ensures MergeAll(counts, p) == MergeAll(counts, q)
  {
    var a, b := MergeAll(counts, p), MergeAll(counts, q);
    forall w
      ensures w in a <==> w in b
    {
      MergeAllKeys(counts, p, w);
      MergeAllKeys(counts, q, w);
      MentionsPermutation(p, q, w);
    }
    forall w | w in a
      ensures a[w] == b[w]
    {
      MergeAllLookupPermutation(counts, p, q, w);
    }
    assert a.Keys == b.Keys;
  }
}
