/** How much rank the update of `iterate_pagerank` passes on in one sweep.
    On a crawled corpus where every page links somewhere, the contributions
    all pages receive add up to exactly d times the total rank, so ranks
    that every update leaves unchanged sum to 1. */
module RankMass {
  import opened PageGraph
  import opened Transition
  import opened Iteration

  /** Every page links to at least one page. */
  predicate NoDangling(c: Corpus)
  {
    forall p :: p in c.links ==> c.links[p] != {}
  }

  /** What page `i` of the order passes to page `t`: its contribution when
      it links to page `t`, nothing otherwise. */
  function Passes(c: Corpus, ranks: map<Page, real>, d: real, t: nat, i: nat): real
    requires Listed(c) && Ranked(c, ranks) && t < |c.pages| && i < |c.pages|
  {
    if c.pages[t] in c.links[c.pages[i]] then Contribution(c, ranks, c.pages[i], d, |c.pages|) else 0.0
  }

  /** What page `t` receives from the first `j` pages of the order. */
  function Row(c: Corpus, ranks: map<Page, real>, d: real, t: nat, j: nat): real
    requires Listed(c) && Ranked(c, ranks) && t < |c.pages| && j <= |c.pages|
  {
    if j == 0 then 0.0 else Row(c, ranks, d, t, j - 1) + Passes(c, ranks, d, t, j - 1)
  }

  /** What page `i` passes to the first `m` pages of the order. */
  function Col(c: Corpus, ranks: map<Page, real>, d: real, m: nat, i: nat): real
    requires Listed(c) && Ranked(c, ranks) && m <= |c.pages| && i < |c.pages|
  {
    if m == 0 then 0.0 else Col(c, ranks, d, m - 1, i) + Passes(c, ranks, d, m - 1, i)
  }

  /** What the first `m` pages receive from all pages, row by row. */
  function Rows(c: Corpus, ranks: map<Page, real>, d: real, m: nat): real
    requires Listed(c) && Ranked(c, ranks) && m <= |c.pages|
  {
    if m == 0 then 0.0 else Rows(c, ranks, d, m - 1) + Row(c, ranks, d, m - 1, |c.pages|)
  }

  /** What the first `j` pages pass to the first `m` pages, column by
      column. */
  function Cols(c: Corpus, ranks: map<Page, real>, d: real, m: nat, j: nat): real
    requires Listed(c) && Ranked(c, ranks) && m <= |c.pages| && j <= |c.pages|
  {
    if j == 0 then 0.0 else Cols(c, ranks, d, m, j - 1) + Col(c, ranks, d, m, j - 1)
  }

  lemma {:induction false} ColsOfNoRows(c: Corpus, ranks: map<Page, real>, d: real, j: nat)
    requires Listed(c) && Ranked(c, ranks) && j <= |c.pages|
    ensures Cols(c, ranks, d, 0, j) == 0.0
  {
    if j > 0 {
      ColsOfNoRows(c, ranks, d, j - 1);
    }
  }

  /** One more row adds, to the sum by columns, what that row receives from
      the first `j` pages. */
  lemma {:induction false} ColsStep(c: Corpus, ranks: map<Page, real>, d: real, m: nat, j: nat)
    requires Listed(c) && Ranked(c, ranks) && 0 < m <= |c.pages| && j <= |c.pages|
    ensures Cols(c, ranks, d, m, j) == Cols(c, ranks, d, m - 1, j) + Row(c, ranks, d, m - 1, j)
  {
    if j > 0 {
      ColsStep(c, ranks, d, m, j - 1);
    }
  }

  /** The double sum comes out the same by rows and by columns. */
  lemma {:induction false} RowsAreCols(c: Corpus, ranks: map<Page, real>, d: real, m: nat)
    requires Listed(c) && Ranked(c, ranks) && m <= |c.pages|
    ensures Rows(c, ranks, d, m) == Cols(c, ranks, d, m, |c.pages|)
  {
    if m > 0 {
      RowsAreCols(c, ranks, d, m - 1);
      ColsStep(c, ranks, d, m, |c.pages|);
    } else {
      ColsOfNoRows(c, ranks, d, |c.pages|);
    }
  }

  /** The contributions the first `j` pages of the order receive, added up. */
  ghost function InboundTotal(c: Corpus, ranks: map<Page, real>, d: real, j: nat): real
    requires Listed(c) && Ranked(c, ranks) && j <= |c.pages|
  {
    if j == 0 then 0.0
    else InboundTotal(c, ranks, d, j - 1) + InboundSum(c, ranks, Referrers(c, c.pages[j - 1]), d, |c.pages|)
  }

  /** What page `t` receives from the first `j` pages is the contribution
      of those of its referrers. */
  lemma {:induction false} RowIsPartialInbound(c: Corpus, ranks: map<Page, real>, d: real, t: nat, j: nat)
    requires Ordered(c) && Listed(c) && Ranked(c, ranks) && t < |c.pages| && j <= |c.pages|
    ensures Row(c, ranks, d, t, j)
         == InboundSum(c, ranks, Referrers(c, c.pages[t]) * KeySet(c.pages, j), d, |c.pages|)
  {
    var q := c.pages[t];
    if j == 0 {
      assert Referrers(c, q) * KeySet(c.pages, j) == {};
    } else {
      RowIsPartialInbound(c, ranks, d, t, j - 1);
      ReferrersUpTo(c, q, j);
      if q in c.links[c.pages[j - 1]] {
        InboundSumRemove(c, ranks, Referrers(c, q) * KeySet(c.pages, j), d, |c.pages|, c.pages[j - 1]);
      }
    }
  }

  /** Taking one more page of the order adds it to the referrers of `q` seen
      so far exactly when it links to `q`. */
  lemma ReferrersUpTo(c: Corpus, q: Page, j: nat)
    requires Ordered(c) && 0 < j <= |c.pages|
    ensures var k, seen := c.pages[j - 1], Referrers(c, q) * KeySet(c.pages, j);
      && (q in c.links[k] ==> k in seen && seen - {k} == Referrers(c, q) * KeySet(c.pages, j - 1))
      && (q !in c.links[k] ==> seen == Referrers(c, q) * KeySet(c.pages, j - 1))
  {
    NotBefore(c.pages, j - 1, j - 1);
  }

  /** What page `t` receives from all pages is its inbound sum. */
  lemma RowIsInbound(c: Corpus, ranks: map<Page, real>, d: real, t: nat)
    requires Ordered(c) && Listed(c) && Ranked(c, ranks) && t < |c.pages|
    ensures Row(c, ranks, d, t, |c.pages|) == InboundSum(c, ranks, Referrers(c, c.pages[t]), d, |c.pages|)
  {
    var refs := Referrers(c, c.pages[t]);
    RowIsPartialInbound(c, ranks, d, t, |c.pages|);
    assert refs * KeySet(c.pages, |c.pages|) == refs by {
      forall p | p in refs
        ensures p in KeySet(c.pages, |c.pages|)
      {
        var i :| 0 <= i < |c.pages| && c.pages[i] == p;
      }
    }
  }

  /** The rows add up to the inbound total. */
  lemma {:induction false} RowsAreInbound(c: Corpus, ranks: map<Page, real>, d: real, j: nat)
    requires Ordered(c) && Listed(c) && Ranked(c, ranks) && j <= |c.pages|
    ensures Rows(c, ranks, d, j) == InboundTotal(c, ranks, d, j)
  {
    if j > 0 {
      RowsAreInbound(c, ranks, d, j - 1);
      RowIsInbound(c, ranks, d, j - 1);
    }
  }

  /** What page `i` passes to the first `m` pages is its contribution once
      per page it links to among them. */
  lemma {:induction false} ColIsShares(c: Corpus, ranks: map<Page, real>, d: real, m: nat, i: nat)
    requires Listed(c) && Ranked(c, ranks) && m <= |c.pages| && i < |c.pages|
    ensures Col(c, ranks, d, m, i)
         == Times(CountIn(c.pages, c.links[c.pages[i]], m), Contribution(c, ranks, c.pages[i], d, |c.pages|))
  {
    if m > 0 {
      ColIsShares(c, ranks, d, m - 1, i);
    }
  }

  /** What page `i` passes to all pages is one share per link. */
  lemma ColIsWhole(c: Corpus, ranks: map<Page, real>, d: real, i: nat)
    requires Ordered(c) && Listed(c) && Crawled(c) && NoDangling(c) && Ranked(c, ranks) && i < |c.pages|
    ensures Col(c, ranks, d, |c.pages|, i) == Given(c, ranks, d, i)
  {
    ColIsShares(c, ranks, d, |c.pages|, i);
    LinksCounted(c, c.pages[i]);
  }

  /** A page with a link, on a crawled corpus, is counted once per link. */
  lemma LinksCounted(c: Corpus, p: Page)
    requires Ordered(c) && Crawled(c) && NoDangling(c) && p in c.links
    ensures CountIn(c.pages, c.links[p], |c.pages|) == |c.links[p]| > 0
  {
    assert forall x :: x in c.links[p] ==> x in c.pages by {
      forall x | x in c.links[p]
        ensures x in c.pages
      {
        assert x in c.links.Keys;
      }
    }
    CountInSubset(c.pages, c.links[p]);
    assert c.links[p] != {};
  }

  /** What page `i` of the order passes on in all: its contribution once
      per link. */
  function Given(c: Corpus, ranks: map<Page, real>, d: real, i: nat): real
    requires Listed(c) && Ranked(c, ranks) && i < |c.pages|
  {
    Times(Outdegree(c, c.pages[i], |c.pages|), Contribution(c, ranks, c.pages[i], d, |c.pages|))
  }

  /** What the first `j` pages of the order pass on. */
  function GivenSum(c: Corpus, ranks: map<Page, real>, d: real, j: nat): real
    requires Listed(c) && Ranked(c, ranks) && j <= |c.pages|
  {
    if j == 0 then 0.0 else GivenSum(c, ranks, d, j - 1) + Given(c, ranks, d, j - 1)
  }

  /** The columns add up to what the pages pass on. */
  lemma {:induction false} ColsAreGiven(c: Corpus, ranks: map<Page, real>, d: real, j: nat)
    requires Listed(c) && Ranked(c, ranks) && j <= |c.pages|
    requires forall i :: 0 <= i < |c.pages| ==> Col(c, ranks, d, |c.pages|, i) == Given(c, ranks, d, i)
    ensures Cols(c, ranks, d, |c.pages|, j) == GivenSum(c, ranks, d, j)
  {
    if j > 0 {
      ColsAreGiven(c, ranks, d, j - 1);
    }
  }

  /** What the first `j` pages pass on is d times their total rank: each
      passes on one k-th of its damped rank along each of its k links. */
  lemma {:induction false} GivenIsDamped(c: Corpus, ranks: map<Page, real>, d: real, j: nat)
    requires Listed(c) && Ranked(c, ranks) && j <= |c.pages|
    ensures Covers(c.pages, ranks)
    ensures GivenSum(c, ranks, d, j) == d * SumUpTo(c.pages, ranks, j)
  {
    assert Covers(c.pages, ranks) by {
      forall i | 0 <= i < |c.pages|
        ensures c.pages[i] in ranks
      {
        assert c.pages[i] in c.links;
      }
    }
    if j > 0 {
      GivenIsDamped(c, ranks, d, j - 1);
      ContributionMakesWhole(c, ranks, c.pages[j - 1], d, |c.pages|);
      Distribute(d, GivenSum(c, ranks, d, j - 1), Given(c, ranks, d, j - 1),
                 SumUpTo(c.pages, ranks, j - 1), ranks[c.pages[j - 1]], SumUpTo(c.pages, ranks, j));
    }
  }

  /** A referrer's contribution along each of its links, taken once per
      link, is its damped rank. */
  lemma ContributionMakesWhole(c: Corpus, ranks: map<Page, real>, p: Page, d: real, n: nat)
    requires p in c.links && Ranked(c, ranks) && n > 0
    ensures Times(Outdegree(c, p, n), Contribution(c, ranks, p, d, n)) == d * ranks[p]
  {
    TimesIsProduct(Outdegree(c, p, n), Contribution(c, ranks, p, d, n));
    SharesMakeWhole(Outdegree(c, p, n), d, ranks[p]);
  }

  lemma SharesMakeWhole(k: nat, d: real, r: real)
    requires k > 0
    ensures k as real * (d * (r / k as real)) == d * r
  {
    var x := k as real;
    assert x * (r / x) == r;
    assert x * (d * (r / x)) == d * (x * (r / x));
  }

  lemma Distribute(d: real, before: real, next: real, s: real, r: real, t: real)
    requires before == d * s && next == d * r && t == s + r
    ensures before + next == d * t
  {
  }

  /** On a crawled corpus where every page has a link, one sweep passes on
      exactly the damped total rank: the contributions all pages receive
      add up to d times the sum of the ranks. */
  lemma MassConserved(c: Corpus, ranks: map<Page, real>, d: real)
    requires Ordered(c) && Crawled(c) && NoDangling(c) && c.pages != [] && Ranked(c, ranks)
    ensures Listed(c) && Covers(c.pages, ranks)
    ensures InboundTotal(c, ranks, d, |c.pages|) == d * Total(c.pages, ranks)
  {
    ReceivedIsGiven(c, ranks, d);
    GivenIsDampedTotal(c, ranks, d);
  }

  /** What all pages pass on is d times the total rank. */
  lemma GivenIsDampedTotal(c: Corpus, ranks: map<Page, real>, d: real)
    requires Listed(c) && Ranked(c, ranks)
    ensures Covers(c.pages, ranks)
    ensures GivenSum(c, ranks, d, |c.pages|) == d * Total(c.pages, ranks)
  {
    GivenIsDamped(c, ranks, d, |c.pages|);
  }

  /** What all pages receive is what all pages pass on. */
  lemma ReceivedIsGiven(c: Corpus, ranks: map<Page, real>, d: real)
    requires Ordered(c) && Crawled(c) && NoDangling(c) && c.pages != [] && Ranked(c, ranks)
    ensures Listed(c)
    ensures InboundTotal(c, ranks, d, |c.pages|) == GivenSum(c, ranks, d, |c.pages|)
  {
    var n := |c.pages|;
    forall i | 0 <= i < n
      ensures Col(c, ranks, d, n, i) == Given(c, ranks, d, i)
    {
      ColIsWhole(c, ranks, d, i);
    }
    SentIsReceived(c, ranks, d);
  }

  /** The double sum of what passes between pages, by receiver and by
      sender. */
  lemma SentIsReceived(c: Corpus, ranks: map<Page, real>, d: real)
    requires Ordered(c) && Listed(c) && Ranked(c, ranks)
    requires forall i :: 0 <= i < |c.pages| ==> Col(c, ranks, d, |c.pages|, i) == Given(c, ranks, d, i)
    ensures InboundTotal(c, ranks, d, |c.pages|) == GivenSum(c, ranks, d, |c.pages|)
  {
    var n := |c.pages|;
    RowsAreInbound(c, ranks, d, n);
    RowsAreCols(c, ranks, d, n);
    ColsAreGiven(c, ranks, d, n);
  }

  /** Ranks that no update changes are the teleport term once per page plus
      the contributions received. */
  lemma {:induction false} FixedPrefix(c: Corpus, ranks: map<Page, real>, d: real, j: nat)
    requires Listed(c) && Ranked(c, ranks) && j <= |c.pages|
    requires forall q :: q in c.links ==> NewRank(c, ranks, q, d, |c.pages|) == ranks[q]
    ensures Covers(c.pages, ranks)
    ensures SumUpTo(c.pages, ranks, j)
         == Times(j, Part(1.0 - d, |c.pages|)) + InboundTotal(c, ranks, d, j)
  {
    if j > 0 {
      FixedPrefix(c, ranks, d, j - 1);
      var q := c.pages[j - 1];
      assert NewRank(c, ranks, q, d, |c.pages|) == ranks[q];
      PartIsQuotient(1.0 - d, |c.pages|);
    }
  }

  /** Ranks that every page's update leaves unchanged sum to exactly 1 on a
      crawled corpus where every page has a link, for any damping factor
      other than 1. */
  lemma FixedPointSumsToOne(c: Corpus, ranks: map<Page, real>, d: real)
    requires Ordered(c) && Crawled(c) && NoDangling(c) && c.pages != [] && Ranked(c, ranks) && d != 1.0
    requires forall q :: q in c.links ==> NewRank(c, ranks, q, d, |c.pages|) == ranks[q]
    ensures Covers(c.pages, ranks)
    ensures Total(c.pages, ranks) == 1.0
  {
    FixedPrefix(c, ranks, d, |c.pages|);
    MassConserved(c, ranks, d);
    Settle(c, ranks, d);
  }

  /** A total that is the teleport mass plus d times itself is 1. */
  lemma Settle(c: Corpus, ranks: map<Page, real>, d: real)
    requires Listed(c) && Ranked(c, ranks) && Covers(c.pages, ranks) && d != 1.0
    requires Total(c.pages, ranks) == Times(|c.pages|, Part(1.0 - d, |c.pages|)) + InboundTotal(c, ranks, d, |c.pages|)
    requires InboundTotal(c, ranks, d, |c.pages|) == d * Total(c.pages, ranks)
    ensures Total(c.pages, ranks) == 1.0
  {
    var n := |c.pages|;
    PartsMakeWhole(1.0 - d, n);
    SolveBalance(Total(c.pages, ranks), Times(n, Part(1.0 - d, n)), InboundTotal(c, ranks, d, n), d);
  }

  /** A total made of the teleport mass 1 - d and d times itself is 1,
      unless d = 1. */
  lemma SolveBalance(t: real, teleport: real, inbound: real, d: real)
    requires d != 1.0 && t == teleport + inbound && teleport == 1.0 - d && inbound == d * t
    ensures t == 1.0
  {
    assert (1.0 - d) * (t - 1.0) == 0.0;
    ZeroFactor(1.0 - d, t - 1.0);
  }

  lemma ZeroFactor(e: real, x: real)
    requires e != 0.0 && e * x == 0.0
    ensures x == 0.0
  {
    assert x == (e * x) / e;
  }
}
