/** `sample_pagerank`: estimate PageRank by walking the Markov chain of the
    transition model and counting visits. The random choices are explicit:
    `start` is the index `random.choice` picks among the pages, and `rs`
    holds the successive values `random.random` returns. */
module Sampling {
  import opened PageGraph
  import opened Transition

  /** `j` is the first index whose running sum exceeds `r`. */
  ghost predicate FirstAbove(keys: seq<Page>, dist: map<Page, real>, r: real, j: nat)
    requires Covers(keys, dist)
  {
    && j < |keys|
    && r < SumUpTo(keys, dist, j + 1)
    && forall i :: 0 < i <= j ==> r >= SumUpTo(keys, dist, i)
  }

  /** No running sum exceeds `r`. */
  ghost predicate NoneAbove(keys: seq<Page>, dist: map<Page, real>, r: real)
    requires Covers(keys, dist)
  {
    forall i :: 0 < i <= |keys| ==> r >= SumUpTo(keys, dist, i)
  }

  /** Inverse-CDF selection: the first index, searching from `from`, at
      which the running sum of the distribution exceeds `r`; None when no
      running sum does. */
  function Selection(keys: seq<Page>, dist: map<Page, real>, r: real, from: nat): (o: Option<nat>)
    requires Covers(keys, dist) && from <= |keys|
    ensures o.Some? ==> from <= o.value < |keys|
    decreases |keys| - from
  {
    if from == |keys| then None
    else if r < SumUpTo(keys, dist, from + 1) then Some(from)
    else Selection(keys, dist, r, from + 1)
  }

  /** The index selected is the first whose running sum exceeds `r`, and
      nothing is selected only when no running sum exceeds `r`. */
  lemma {:induction false} SelectionIsFirstAbove(keys: seq<Page>, dist: map<Page, real>, r: real, from: nat)
    requires Covers(keys, dist) && from <= |keys|
    requires forall i :: 0 < i <= from ==> r >= SumUpTo(keys, dist, i)
    ensures Selection(keys, dist, r, from).Some? ==> FirstAbove(keys, dist, r, Selection(keys, dist, r, from).value)
    ensures Selection(keys, dist, r, from).None? ==> NoneAbove(keys, dist, r)
    decreases |keys| - from
  {
    if from < |keys| && r >= SumUpTo(keys, dist, from + 1) {
      SelectionIsFirstAbove(keys, dist, r, from + 1);
    }
  }

  /** Every page of the corpus has a next-page distribution over the corpus
      order. */
  predicate IsChain(c: Corpus, chain: map<Page, map<Page, real>>)
  {
    && (forall i :: 0 <= i < |c.pages| ==> c.pages[i] in c.links)
    && (forall p :: p in c.links ==> p in chain && Covers(c.pages, chain[p]))
  }

  /** The Markov chain the surfer follows: each page's transition model. */
  function Transitions(c: Corpus, d: real): (chain: map<Page, map<Page, real>>)
    requires Ordered(c)
    ensures IsChain(c, chain)
  {
    map p | p in c.links :: TransitionModel(c, p, d).value
  }

  /** The page the surfer on `page` moves to when the random value is `r`:
      the selected key of its distribution, or `page` itself when no key is
      selected. */
  function NextPage(c: Corpus, chain: map<Page, map<Page, real>>, page: Page, r: real): (next: Page)
    requires IsChain(c, chain) && page in c.links
    ensures next in c.links
  {
    match Selection(c.pages, chain[page], r, 0)
    case Some(j) => c.pages[j]
    case None => page
  }

  /** The page the walk is on after `k` steps. */
  function PageAt(c: Corpus, chain: map<Page, map<Page, real>>, start: Page, rs: seq<real>, k: nat): (p: Page)
    requires IsChain(c, chain) && start in c.links && k <= |rs|
    ensures p in c.links
  {
    if k == 0 then start else NextPage(c, chain, PageAt(c, chain, start, rs, k - 1), rs[k - 1])
  }

  /** The first `k` pages visited. */
  function Walk(c: Corpus, chain: map<Page, map<Page, real>>, start: Page, rs: seq<real>, k: nat): (w: seq<Page>)
    requires IsChain(c, chain) && start in c.links && k <= |rs|
    ensures |w| == k
  {
    if k == 0 then [] else Walk(c, chain, start, rs, k - 1) + [PageAt(c, chain, start, rs, k - 1)]
  }

  /** The `i`-th page of the walk is the page reached after `i` steps, and
      every page visited is a page of the corpus. */
  lemma {:induction false} WalkVisits(c: Corpus, chain: map<Page, map<Page, real>>, start: Page, rs: seq<real>, k: nat, i: nat)
    requires IsChain(c, chain) && start in c.links && k <= |rs| && i < k
    ensures Walk(c, chain, start, rs, k)[i] == PageAt(c, chain, start, rs, i)
    ensures Walk(c, chain, start, rs, k)[i] in c.links
  {
    if i < k - 1 {
      WalkVisits(c, chain, start, rs, k - 1, i);
    }
  }

  /** How often each visited page was visited. */
  function VisitCounts(w: seq<Page>): (counts: map<Page, nat>)
    ensures forall p :: p in counts <==> p in w
    ensures forall p :: p in counts ==> 0 < counts[p] <= |w|
  {
    map p | p in w :: multiset(w)[p]
  }

  /** Each visited page's share of the visits; unvisited pages are absent. */
  function SampledRanks(w: seq<Page>): (ranks: map<Page, real>)
    ensures forall p :: p in ranks <==> p in w
    ensures forall p :: p in ranks ==> 0.0 < ranks[p] <= 1.0
  {
    var counts := VisitCounts(w);
    var ranks := map p | p in counts :: counts[p] as real / |w| as real;
    assert forall p :: p in ranks ==> 0.0 < ranks[p] <= 1.0 by {
      forall p | p in ranks {
        Fraction(counts[p], |w|);
      }
    }
    ranks
  }

  lemma Fraction(a: nat, b: nat)
    requires 0 < a <= b
    ensures 0.0 < a as real / b as real <= 1.0
  {
  }

  /** The cumulative-sum loop over the distribution: the first key whose
      running sum exceeds `r`, or `current` when there is none. */
  method SelectNext(keys: seq<Page>, dist: map<Page, real>, r: real, current: Page) returns (next: Page)
    requires Covers(keys, dist)
    ensures match Selection(keys, dist, r, 0)
            case Some(j) => next == keys[j]
            case None => next == current
  {
    var probCount := 0.0;
    var i := 0;
    while i < |keys|
      invariant 0 <= i <= |keys|
      invariant probCount == SumUpTo(keys, dist, i)
      invariant Selection(keys, dist, r, 0) == Selection(keys, dist, r, i)
    {
      probCount := probCount + dist[keys[i]];
      if r < probCount {
        return keys[i];
      }
      i := i + 1;
    }
    return current;
  }

  /** The walk grows by the page reached so far, and the next page is
      chosen from that page's distribution. */
  lemma WalkStep(c: Corpus, chain: map<Page, map<Page, real>>, start: Page, rs: seq<real>, i: nat, j: nat)
    requires IsChain(c, chain) && start in c.links && j == i + 1 && j <= |rs|
    ensures Walk(c, chain, start, rs, j) == Walk(c, chain, start, rs, i) + [PageAt(c, chain, start, rs, i)]
    ensures PageAt(c, chain, start, rs, j) == NextPage(c, chain, PageAt(c, chain, start, rs, i), rs[i])
  {
    assert j - 1 == i;
  }

  /** Before any step nothing has been visited and the surfer is at the
      start. */
  lemma WalkStart(c: Corpus, chain: map<Page, map<Page, real>>, start: Page, rs: seq<real>)
    requires IsChain(c, chain) && start in c.links
    ensures VisitCounts(Walk(c, chain, start, rs, 0)) == map[]
    ensures PageAt(c, chain, start, rs, 0) == start
  {
  }

  /** One more visit of `p`: its count goes up by one, or it is recorded
      with count 1 on its first visit. */
  function Bump(counts: map<Page, nat>, p: Page): map<Page, nat>
  {
    if p in counts then counts[p := counts[p] + 1] else counts[p := 1]
  }

  /** Visiting `p` once more bumps its count and changes no other. */
  lemma CountStep(w: seq<Page>, p: Page)
    ensures VisitCounts(w + [p]) == Bump(VisitCounts(w), p)
  {
    var counts, after := VisitCounts(w), VisitCounts(w + [p]);
    var expected := Bump(counts, p);
    assert multiset(w + [p]) == multiset(w) + multiset{p};
    assert forall q :: q in after <==> q in expected;
    assert forall q :: q in after ==> after[q] == expected[q];
    assert after == expected;
  }

  /** The surfer's next page, once the distribution looked up is the
      page's own. */
  lemma NextPageSelected(c: Corpus, chain: map<Page, map<Page, real>>, page: Page, r: real, next: Page)
    requires IsChain(c, chain) && page in c.links
    requires match Selection(c.pages, chain[page], r, 0)
             case Some(j) => next == c.pages[j]
             case None => next == page
    ensures NextPage(c, chain, page, r) == next
  {
  }

  /** The transition model of each page is that page's entry of the chain. */
  lemma TransitionsAt(c: Corpus, d: real, p: Page)
    requires Ordered(c) && p in c.links
    ensures p in Transitions(c, d) && Transitions(c, d)[p] == TransitionModel(c, p, d).value
  {
  }

  /** Dividing each count by the number of steps gives the sampled ranks. */
  lemma SharesAreSampledRanks(w: seq<Page>, ranks: map<Page, real>)
    requires forall p :: p in ranks <==> p in VisitCounts(w)
    requires forall p :: p in ranks ==> |w| > 0 && ranks[p] == VisitCounts(w)[p] as real / |w| as real
    ensures ranks == SampledRanks(w)
  {
    var expected := SampledRanks(w);
    assert forall p :: p in ranks <==> p in expected;
    assert ranks == expected;
  }

  /** `sample_pagerank`: visit `n` pages starting from the page at index
      `start`, caching each visited page's distribution, and return each
      visited page's share of the visits. An empty corpus has no page to
      start from (IndexError). */
  method SamplePageRank(c: Corpus, d: real, n: int, start: nat, rs: seq<real>)
    returns (r: Result<map<Page, real>>)
    requires Ordered(c)
    requires c.pages != [] ==> start < |c.pages|
    requires n <= |rs|
    ensures c.pages == [] ==> r == Err(IndexError)
    ensures c.pages != [] ==>
      r == Ok(SampledRanks(Walk(c, Transitions(c, d), c.pages[start], rs, if n > 0 then n else 0)))
  {
    if |c.pages| == 0 {
      return Err(IndexError);
    }
    var first := c.pages[start];
    ghost var chain := Transitions(c, d);
    var steps := if n > 0 then n else 0;
    forall p | p in c.links
      ensures chain[p] == TransitionModel(c, p, d).value
    {
      TransitionsAt(c, d, p);
    }
    var pagesCount := CountVisits(c, d, chain, first, steps, rs);
    ghost var walk := Walk(c, chain, first, rs, steps);
    var outputRanks := VisitShares(pagesCount, steps);
    SharesAreSampledRanks(walk, outputRanks);
    return Ok(outputRanks);
  }

  /** The main loop of `sample_pagerank`: count the visits of a walk of
      `steps` pages, computing each page's distribution on its first visit
      and reusing it afterwards. */
  method CountVisits(c: Corpus, d: real, ghost chain: map<Page, map<Page, real>>, first: Page, steps: nat, rs: seq<real>)
    returns (pagesCount: map<Page, nat>)
    requires Ordered(c) && first in c.links && steps <= |rs| && IsChain(c, chain)
    requires forall p :: p in c.links ==> chain[p] == TransitionModel(c, p, d).value
    ensures pagesCount == VisitCounts(Walk(c, chain, first, rs, steps))
  {
    WalkStart(c, chain, first, rs);
    var currentPage := first;
    var pagesProbabilities: map<Page, map<Page, real>> := map[];
    pagesCount := map[];
    var i := 0;
    while i < steps
      invariant 0 <= i <= steps
      invariant currentPage == PageAt(c, chain, first, rs, i)
      invariant pagesCount == VisitCounts(Walk(c, chain, first, rs, i))
      invariant Cached(pagesProbabilities, chain)
    {
      ghost var before := i;
      var rgn := rs[i];
      CountStep(Walk(c, chain, first, rs, i), currentPage);
      if currentPage in pagesCount {
        pagesCount := pagesCount[currentPage := pagesCount[currentPage] + 1];
      } else {
        pagesCount := pagesCount[currentPage := 1];
      }
      var probabilities;
      probabilities, pagesProbabilities := Distribution(c, d, chain, pagesProbabilities, currentPage);
      var next := SelectNext(c.pages, probabilities, rgn, currentPage);
      NextPageSelected(c, chain, currentPage, rgn, next);
      currentPage := next;
      i := i + 1;
      WalkStep(c, chain, first, rs, before, i);
    }
    assert i == steps;
  }

  /** Every cached distribution is the page's entry of the chain. */
  ghost predicate Cached(cache: map<Page, map<Page, real>>, chain: map<Page, map<Page, real>>)
  {
    forall p :: p in cache ==> p in chain && cache[p] == chain[p]
  }

  /** The distribution of `page`: the cached one, or its transition model,
      which is then cached. */
  method Distribution(c: Corpus, d: real, ghost chain: map<Page, map<Page, real>>,
                      cache: map<Page, map<Page, real>>, page: Page)
    returns (probabilities: map<Page, real>, cache': map<Page, map<Page, real>>)
    requires Ordered(c) && page in c.links && IsChain(c, chain) && Cached(cache, chain)
    requires forall p :: p in c.links ==> chain[p] == TransitionModel(c, p, d).value
    ensures probabilities == chain[page] && Cached(cache', chain)
    ensures cache' == if page in cache then cache else cache[page := probabilities]
  {
    if page in cache {
      probabilities := cache[page];
      cache' := cache;
    } else {
      probabilities := TransitionModel(c, page, d).value;
      assert probabilities == chain[page];
      cache' := cache[page := probabilities];
      assert Cached(cache', chain) by {
        forall p | p in cache'
          ensures p in chain && cache'[p] == chain[p]
        {
          if p != page {
            assert cache'[p] == cache[p];
          }
        }
      }
    }
  }

  /** The output loop of `sample_pagerank`: each counted page's count
      divided by the number of steps. */
  method VisitShares(counts: map<Page, nat>, steps: nat) returns (ranks: map<Page, real>)
    requires counts != map[] ==> steps > 0
    ensures forall p :: p in ranks <==> p in counts
    ensures forall p :: p in ranks ==> steps > 0 && ranks[p] == counts[p] as real / steps as real
  {
    ranks := map[];
    var remaining := counts.Keys;
    while remaining != {}
      invariant remaining <= counts.Keys
      invariant forall p :: p in ranks <==> p in counts && p !in remaining
      invariant forall p :: p in ranks ==> steps > 0 && ranks[p] == counts[p] as real / steps as real
      decreases remaining
    {
      var key :| key in remaining;
      assert key in counts;
      ranks := ranks[key := counts[key] as real / steps as real];
      remaining := remaining - {key};
    }
  }

  /** The visit counts of the first `j` keys added up; a key never visited
      adds nothing. */
  function CountSum(keys: seq<Page>, counts: map<Page, nat>, j: nat): nat
    requires j <= |keys|
  {
    if j == 0 then 0
    else CountSum(keys, counts, j - 1) + (if keys[j - 1] in counts then counts[keys[j - 1]] else 0)
  }

  /** Bumping the count of `p` adds one to the sum exactly when `p` is among
      the keys added up. */
  lemma {:induction false} CountSumBump(keys: seq<Page>, counts: map<Page, nat>, p: Page, j: nat)
    requires j <= |keys|
    ensures CountSum(keys, Bump(counts, p), j) == CountSum(keys, counts, j) + CountIn(keys, {p}, j)
  {
    if j > 0 {
      CountSumBump(keys, counts, p, j - 1);
    }
  }

  /** Summed over the pages of the corpus, the visit counts of a walk add up
      to the number of pages visited. */
  lemma {:induction false} VisitCountsSumToSteps(keys: seq<Page>, w: seq<Page>)
    requires Distinct(keys) && forall i :: 0 <= i < |w| ==> w[i] in keys
    ensures CountSum(keys, VisitCounts(w), |keys|) == |w|
    decreases |w|
  {
    if w == [] {
      CountSumEmpty(keys, |keys|);
    } else {
      var prefix, p := w[..|w| - 1], w[|w| - 1];
      assert w == prefix + [p];
      VisitCountsSumToSteps(keys, prefix);
      CountStep(prefix, p);
      CountSumBump(keys, VisitCounts(prefix), p, |keys|);
      CountInSubset(keys, {p});
    }
  }

  /** The counts of a walk of `k` pages, summed over the corpus, add up to
      `k`. */
  lemma WalkCountsSumToSteps(c: Corpus, chain: map<Page, map<Page, real>>, start: Page, rs: seq<real>, k: nat)
    requires Ordered(c) && IsChain(c, chain) && start in c.links && k <= |rs|
    ensures CountSum(c.pages, VisitCounts(Walk(c, chain, start, rs, k)), |c.pages|) == k
  {
    var w := Walk(c, chain, start, rs, k);
    forall i | 0 <= i < |w|
      ensures w[i] in c.pages
    {
      WalkVisits(c, chain, start, rs, k, i);
    }
    VisitCountsSumToSteps(c.pages, w);
  }

  lemma {:induction false} CountSumEmpty(keys: seq<Page>, j: nat)
    requires j <= |keys|
    ensures CountSum(keys, map[], j) == 0
  {
    if j > 0 {
      CountSumEmpty(keys, j - 1);
    }
  }

  /** The running sum of the sampled ranks is the running sum of the counts
      divided by the number of pages visited. */
  lemma {:induction false} RankPrefixSum(keys: seq<Page>, w: seq<Page>, j: nat)
    requires |w| > 0 && j <= |keys| && forall i :: 0 <= i < |keys| ==> keys[i] in w
    ensures Covers(keys, SampledRanks(w))
    ensures SumUpTo(keys, SampledRanks(w), j) == CountSum(keys, VisitCounts(w), j) as real / |w| as real
  {
    if j > 0 {
      RankPrefixSum(keys, w, j - 1);
      var k := keys[j - 1];
      SumOfQuotients(CountSum(keys, VisitCounts(w), j - 1) as real, VisitCounts(w)[k] as real, |w| as real);
    }
  }

  lemma SumOfQuotients(a: real, b: real, n: real)
    requires n > 0.0
    ensures a / n + b / n == (a + b) / n
  {
  }

  /** The sampled ranks add up to exactly 1 over the visited pages, as the
      docstring of `sample_pagerank` promises. */
  lemma SampledRanksSumToOne(keys: seq<Page>, w: seq<Page>)
    requires |w| > 0 && Distinct(keys) && forall p :: p in keys <==> p in w
    ensures Covers(keys, SampledRanks(w))
    ensures Total(keys, SampledRanks(w)) == 1.0
  {
    assert forall i :: 0 <= i < |keys| ==> keys[i] in w;
    assert forall i :: 0 <= i < |w| ==> w[i] in keys;
    RankPrefixSum(keys, w, |keys|);
    VisitCountsSumToSteps(keys, w);
    WholeQuotient(|w| as real);
  }

  lemma WholeQuotient(n: real)
    requires n > 0.0
    ensures n / n == 1.0
  {
  }

  /** A single sample gives the start page the whole rank. */
  lemma SingleSample(c: Corpus, chain: map<Page, map<Page, real>>, start: Page, rs: seq<real>)
    requires IsChain(c, chain) && start in c.links && 1 <= |rs|
    ensures SampledRanks(Walk(c, chain, start, rs, 1)) == map[start := 1.0]
  {
    var w := Walk(c, chain, start, rs, 1);
    assert w == [start];
    var ranks := SampledRanks(w);
    assert multiset(w)[start] == 1;
    assert forall p :: p in ranks <==> p == start;
    assert ranks == map[start := 1.0];
  }

  /** With a random value below 1 and a distribution summing to 1, some key
      is always selected, so the "no key selected" outcome of the loop
      cannot occur with exact arithmetic. */
  lemma SelectionAlwaysMade(keys: seq<Page>, dist: map<Page, real>, r: real)
    requires Covers(keys, dist) && keys != [] && Total(keys, dist) == 1.0 && r < 1.0
    ensures Selection(keys, dist, r, 0).Some?
  {
    SelectionIsFirstAbove(keys, dist, r, 0);
  }

  /** For a non-negative random value, the key selected has a positive
      probability: the surfer never moves to a page it cannot reach. */
  lemma SelectedIsPossible(keys: seq<Page>, dist: map<Page, real>, r: real)
    requires Covers(keys, dist) && 0.0 <= r
    ensures Selection(keys, dist, r, 0).Some? ==> dist[keys[Selection(keys, dist, r, 0).value]] > 0.0
  {
    SelectionIsFirstAbove(keys, dist, r, 0);
    if Selection(keys, dist, r, 0).Some? {
      var j := Selection(keys, dist, r, 0).value;
      assert r >= SumUpTo(keys, dist, j);
    }
  }

  /** On a crawled corpus with a random value in [0, 1), the surfer always
      moves to a page whose transition probability from the current page is
      positive. */
  lemma NextPageFollowsModel(c: Corpus, d: real, page: Page, r: real)
    requires Ordered(c) && Crawled(c) && page in c.links && 0.0 <= r < 1.0
    ensures Selection(c.pages, Transitions(c, d)[page], r, 0).Some?
    ensures TransitionModel(c, page, d).value[NextPage(c, Transitions(c, d), page, r)] > 0.0
  {
    TransitionsAt(c, d, page);
    TransitionSumsToOne(c, page, d);
    var dist := TransitionModel(c, page, d).value;
    SelectionAlwaysMade(c.pages, dist, r);
    SelectedIsPossible(c.pages, dist, r);
  }
}
