/** `iterate_pagerank`: start every page at rank 1/N, build the index of the
    pages linking to each page, then update one page at a time in
    round-robin order, in place, until N consecutive updates each changed
    a rank by at most 0.001. The unbounded loop gets a step budget. */
module Iteration {
  import opened PageGraph
  import opened Transition

  /** The largest change of a rank that counts as stable. */
  const Threshold: real := 0.001

  function Abs(x: real): real
  {
    if x < 0.0 then -x else x
  }

  /** Every page of the round-robin cycle is a page of the corpus, and there
      is at least one. */
  predicate Listed(c: Corpus)
  {
    && c.pages != []
    && forall i :: 0 <= i < |c.pages| ==> c.pages[i] in c.links
  }

  /** The rank map holds a rank for every page of the corpus. */
  ghost predicate Ranked(c: Corpus, ranks: map<Page, real>)
  {
    forall p :: p in c.links ==> p in ranks
  }

  /** The pages linking to `q`. */
  function Referrers(c: Corpus, q: Page): (refs: set<Page>)
    ensures forall p :: p in refs <==> p in c.links && q in c.links[p]
  {
    set p | p in c.links && q in c.links[p]
  }

  /** The reverse-link index: `p` is listed under `q` exactly when `p` links
      to `q`. */
  ghost predicate IsReverseIndex(c: Corpus, index: map<Page, set<Page>>)
  {
    && (forall q, p :: q in index && p in index[q] ==> p in c.links && q in c.links[p])
    && (forall p, q :: p in c.links && q in c.links[p] ==> q in index && p in index[q])
  }

  /** The divisor of a referrer's rank: its number of links, or the number
      of pages when it has none. */
  function Outdegree(c: Corpus, p: Page, n: nat): (k: nat)
    requires p in c.links && n > 0
    ensures k > 0
  {
    if |c.links[p]| != 0 then |c.links[p]| else n
  }

  /** What referrer `p` passes on: the damped share of its rank per link. */
  function Contribution(c: Corpus, ranks: map<Page, real>, p: Page, d: real, n: nat): real
    requires p in c.links && Ranked(c, ranks) && n > 0
  {
    d * (ranks[p] / Outdegree(c, p, n) as real)
  }

  /** The contributions of a set of referrers, added up. */
  ghost function InboundSum(c: Corpus, ranks: map<Page, real>, refs: set<Page>, d: real, n: nat): real
    requires Ranked(c, ranks) && n > 0 && forall p :: p in refs ==> p in c.links
    decreases refs
  {
    if refs == {} then 0.0
    else
      var p :| p in refs;
      Contribution(c, ranks, p, d, n) + InboundSum(c, ranks, refs - {p}, d, n)
  }

  /** The sum does not depend on the order the referrers are taken in: any
      one of them can be taken out first. */
  lemma {:induction false} InboundSumRemove(c: Corpus, ranks: map<Page, real>, refs: set<Page>, d: real, n: nat, y: Page)
    requires Ranked(c, ranks) && n > 0 && (forall p :: p in refs ==> p in c.links) && y in refs
    ensures InboundSum(c, ranks, refs, d, n) == Contribution(c, ranks, y, d, n) + InboundSum(c, ranks, refs - {y}, d, n)
    decreases refs
  {
    var x :| x in refs && InboundSum(c, ranks, refs, d, n) == Contribution(c, ranks, x, d, n) + InboundSum(c, ranks, refs - {x}, d, n);
    if x != y {
      InboundSumRemove(c, ranks, refs - {x}, d, n, y);
      InboundSumRemove(c, ranks, refs - {y}, d, n, x);
      assert refs - {x} - {y} == refs - {y} - {x};
    }
  }

  /** The rank of `q` after its update: the teleport term (1 - d)/N plus the
      contributions of the pages linking to it. A page nobody links to gets
      the teleport term alone. */
  ghost function NewRank(c: Corpus, ranks: map<Page, real>, q: Page, d: real, n: nat): (r: real)
    requires Ranked(c, ranks) && n > 0
    ensures 0.0 <= d && (forall p :: p in ranks ==> ranks[p] >= 0.0) ==> r >= (1.0 - d) / n as real
  {
    var inbound := InboundSum(c, ranks, Referrers(c, q), d, n);
    assert 0.0 <= d && (forall p :: p in ranks ==> ranks[p] >= 0.0) ==> inbound >= 0.0 by {
      if 0.0 <= d && (forall p :: p in ranks ==> ranks[p] >= 0.0) {
        InboundSumNonNegative(c, ranks, Referrers(c, q), d, n);
      }
    }
    (1.0 - d) / n as real + inbound
  }

  /** The update as written, where a page nobody links to reads the
      variable `reference_page` left behind by the last inner loop that ran:
      `stale` is that page, None when no inner loop has run yet. It fails,
      with NameError, exactly when the page has no referrer and there is no
      stale page to read. */
  ghost function NewRankAsWritten(c: Corpus, ranks: map<Page, real>, q: Page, d: real, n: nat, stale: Option<Page>): (r: Result<real>)
    requires Ranked(c, ranks) && n > 0 && (stale.Some? ==> stale.value in c.links)
    ensures r.Err? <==> Referrers(c, q) == {} && stale.None?
    ensures r.Err? ==> r.error == NameError
  {
    if Referrers(c, q) != {} then Ok(NewRank(c, ranks, q, d, n))
    else
      match stale
      case None => Err(NameError)
      case Some(p) => Ok((1.0 - d) / n as real + d * (ranks[p] / n as real))
  }

  /** The solver's state between updates: the ranks, the number of updates
      so far (`current_count`) and the number of consecutive stable updates
      (`convergence_count`). */
  datatype State = State(ranks: map<Page, real>, updates: nat, stable: nat)

  /** Every page starts at 1/N. */
  function InitialRanks(c: Corpus): (ranks: map<Page, real>)
    requires c.pages != []
    ensures Ranked(c, ranks)
    ensures forall p :: p in ranks ==> ranks[p] == 1.0 / |c.pages| as real
  {
    map p | p in c.links :: 1.0 / |c.pages| as real
  }

  /** The position in the cycle of the `k`-th update, counted up and
      wrapped around at `n`. */
  function Position(k: nat, n: nat): (i: nat)
    requires n > 0
    ensures i < n
  {
    if k == 0 then 0
    else
      var next := Position(k - 1, n) + 1;
      if next == n then 0 else next
  }

  /** The position is the number of updates modulo the cycle length. */
  lemma {:induction false} PositionIsModulo(k: nat, n: nat)
    requires n > 0
    ensures Position(k, n) == k % n
  {
    if k > 0 {
      PositionIsModulo(k - 1, n);
      var q := (k - 1) / n;
      assert k - 1 == q * n + (k - 1) % n;
      if (k - 1) % n + 1 == n {
        ModUnique(k, n, q + 1, 0);
      } else {
        ModUnique(k, n, q, (k - 1) % n + 1);
      }
    }
  }

  /** The page the `k`-th update is for, cycling through the corpus. */
  function Current(c: Corpus, k: nat): (q: Page)
    requires Listed(c)
    ensures q in c.links
  {
    c.pages[Position(k, |c.pages|)]
  }

  /** One update: the current page gets its new rank, in place, and the
      stable counter goes up when the rank moved by at most the threshold
      and back to zero otherwise. */
  ghost function Step(c: Corpus, d: real, st: State): (next: State)
    requires Listed(c) && Ranked(c, st.ranks)
    ensures Ranked(c, next.ranks)
    ensures next.updates == st.updates + 1
  {
    var q := Current(c, st.updates);
    var rank := NewRank(c, st.ranks, q, d, |c.pages|);
    State(st.ranks[q := rank], st.updates + 1,
          if Abs(st.ranks[q] - rank) <= Threshold then st.stable + 1 else 0)
  }

  /** The state after `k` updates. */
  ghost function After(c: Corpus, d: real, k: nat): (st: State)
    requires Listed(c)
    ensures Ranked(c, st.ranks) && st.updates == k && st.stable <= k
  {
    if k == 0 then State(InitialRanks(c), 0, 0) else Step(c, d, After(c, d, k - 1))
  }

  /** How much the `k`-th update moved the rank of its page. */
  ghost function Change(c: Corpus, d: real, k: nat): real
    requires Listed(c)
  {
    var q := Current(c, k);
    Abs(After(c, d, k).ranks[q] - After(c, d, k + 1).ranks[q])
  }

  /** The stable counter after each number of updates. */
  ghost function Stable(c: Corpus, d: real): (count: nat -> nat)
    requires Listed(c)
  {
    (k: nat) => After(c, d, k).stable
  }

  /** The first `j`, from `k` on and at most `fuel` more, at which `count`
      reaches `target`. */
  ghost function FirstReaching(count: nat -> nat, target: nat, k: nat, fuel: nat): (o: Option<nat>)
    decreases fuel
  {
    if count(k) >= target then Some(k)
    else if fuel == 0 then None
    else FirstReaching(count, target, k + 1, fuel - 1)
  }

  /** The number of updates after which the stable counter first reaches N,
      within `fuel` more updates from `k`. */
  ghost function Stop(c: Corpus, d: real, k: nat, fuel: nat): (o: Option<nat>)
    requires Listed(c)
  {
    FirstReaching(Stable(c, d), |c.pages|, k, fuel)
  }

  /** What `iterate_pagerank` returns with a budget of `maxSteps` updates:
      the ranks once the counter reaches N, NotConverged when the budget
      runs out first, and ZeroDivisionError for an empty corpus. */
  ghost function Iterated(c: Corpus, d: real, maxSteps: nat): (r: Result<map<Page, real>>)
    requires c.pages != [] ==> Listed(c)
    ensures r == Err(ZeroDivisionError) <==> c.pages == []
    ensures r.Err? ==> r.error == ZeroDivisionError || r.error == NotConverged
    ensures r.Ok? ==> forall p :: p in r.value <==> p in c.links
  {
    if c.pages == [] then Err(ZeroDivisionError)
    else
      match Stop(c, d, 0, maxSteps)
      case Some(k) =>
        RanksAreExactlyCorpus(c, d, k);
        Ok(After(c, d, k).ranks)
      case None => Err(NotConverged)
  }

  /** The reverse index lists under each page exactly the pages linking to
      it; a page nobody links to is absent. */
  lemma IndexIsReferrers(c: Corpus, index: map<Page, set<Page>>, q: Page)
    requires IsReverseIndex(c, index)
    ensures q in index ==> index[q] == Referrers(c, q)
    ensures q !in index ==> Referrers(c, q) == {}
  {
    if q in index {
      assert forall p :: p in index[q] <==> p in Referrers(c, q);
    } else if Referrers(c, q) != {} {
      var p :| p in Referrers(c, q);
      assert false;
    }
  }

  /** Every page in the reverse index has a link, so the `or page_count`
      fallback of the divisor is never taken. */
  lemma FallbackNeverTaken(c: Corpus, q: Page, p: Page, n: nat)
    requires p in Referrers(c, q) && n > 0
    ensures |c.links[p]| > 0 && Outdegree(c, p, n) == |c.links[p]|
  {
    assert q in c.links[p];
  }

  /** A page without links is in nobody's referrers: unlike the documented
      convention, its rank is not spread over the corpus. */
  lemma DanglingContributesNothing(c: Corpus, p: Page, q: Page)
    requires p in c.links && c.links[p] == {}
    ensures p !in Referrers(c, q)
  {
  }

  /** The corrected update of a page nobody links to is the teleport term
      alone. */
  lemma UnreferencedGetsTeleportOnly(c: Corpus, ranks: map<Page, real>, q: Page, d: real, n: nat)
    requires Ranked(c, ranks) && n > 0 && Referrers(c, q) == {}
    ensures NewRank(c, ranks, q, d, n) == (1.0 - d) / n as real
  {
  }

  /** The update as written agrees with the corrected one for every page
      somebody links to. */
  lemma AsWrittenAgreesWhenReferred(c: Corpus, ranks: map<Page, real>, q: Page, d: real, n: nat, stale: Option<Page>)
    requires Ranked(c, ranks) && n > 0 && (stale.Some? ==> stale.value in c.links)
    requires Referrers(c, q) != {}
    ensures NewRankAsWritten(c, ranks, q, d, n, stale) == Ok(NewRank(c, ranks, q, d, n))
  {
  }

  /** On the corpus of test.py the first page updated, page 1, has no
      referrer and no inner loop has run yet: the update as written raises
      NameError, where the corrected one gives 0.05. */
  lemma SampleCorpusRaisesNameError()
    ensures var c := SampleCorpus();
      && Current(c, 0) == "1.html"
      && Referrers(c, "1.html") == {}
      && NewRankAsWritten(c, InitialRanks(c), "1.html", 0.85, 3, None) == Err(NameError)
      && NewRank(c, InitialRanks(c), "1.html", 0.85, 3) == 0.05
  {
    var c := SampleCorpus();
    assert Referrers(c, "1.html") == {} by {
      forall p | p in c.links
        ensures "1.html" !in c.links[p]
      {
      }
    }
  }

  /** Pages A, B, C where A links to B, and B and C link to A. */
  function StaleCorpus(): Corpus
  {
    Corpus(["A", "B", "C"], map["A" := {"B"}, "B" := {"A"}, "C" := {"A"}])
  }

  /** The first update of the stale corpus is for A, whose referrers B and C
      each have one link: A's rank goes from 1/3 to (1 + d)/3. */
  lemma StaleCorpusFirstUpdate(d: real)
    ensures Listed(StaleCorpus()) && Current(StaleCorpus(), 0) == "A"
    ensures After(StaleCorpus(), d, 1).ranks["A"] == (1.0 + d) / 3.0
  {
    var c := StaleCorpus();
    StaleListed();
    var start := After(c, d, 0);
    AfterStep(c, d, 0, 1);
    StepChangesOnlyCurrent(c, d, start);
    StaleInboundOfA(d, start.ranks);
  }

  /** A's referrers B and C, at rank 1/3 each with one link each, pass on
      d/3 each. */
  lemma StaleInboundOfA(d: real, ranks: map<Page, real>)
    requires Ranked(StaleCorpus(), ranks) && ranks["B"] == 1.0 / 3.0 && ranks["C"] == 1.0 / 3.0
    ensures InboundSum(StaleCorpus(), ranks, Referrers(StaleCorpus(), "A"), d, 3) == 2.0 * d / 3.0
  {
    var c := StaleCorpus();
    StaleCorpusReferrers();
    InboundSumPair(c, ranks, "B", "C", d, 3);
    assert Contribution(c, ranks, "B", d, 3) == d * (1.0 / 3.0);
    assert Contribution(c, ranks, "C", d, 3) == d * (1.0 / 3.0);
  }

  /** The inbound sum of two referrers is their two contributions. */
  lemma InboundSumPair(c: Corpus, ranks: map<Page, real>, x: Page, y: Page, d: real, n: nat)
    requires Ranked(c, ranks) && n > 0 && x in c.links && y in c.links && x != y
    ensures InboundSum(c, ranks, {x, y}, d, n) == Contribution(c, ranks, x, d, n) + Contribution(c, ranks, y, d, n)
  {
    InboundSumRemove(c, ranks, {x, y}, d, n, x);
    assert {x, y} - {x} == {y};
    InboundSumSingle(c, ranks, y, d, n);
  }

  /** The inbound sum of a single referrer is its contribution. */
  lemma InboundSumSingle(c: Corpus, ranks: map<Page, real>, x: Page, d: real, n: nat)
    requires Ranked(c, ranks) && n > 0 && x in c.links
    ensures InboundSum(c, ranks, {x}, d, n) == Contribution(c, ranks, x, d, n)
  {
    InboundSumRemove(c, ranks, {x}, d, n, x);
    assert {x} - {x} == {};
  }

  /** The second update is for B, so A keeps the rank of its first update. */
  lemma StaleCorpusSecondUpdate(d: real)
    ensures Listed(StaleCorpus()) && Current(StaleCorpus(), 1) == "B"
    ensures After(StaleCorpus(), d, 2).ranks["A"] == After(StaleCorpus(), d, 1).ranks["A"]
  {
    var c := StaleCorpus();
    AfterStep(c, d, 1, 2);
    StepChangesOnlyCurrent(c, d, After(c, d, 1));
  }

  /** In the stale corpus the third update is for C, which has no referrer.
      It comes right after B's update, whose inner loop ran over B's only
      referrer A, so the stale page is A whatever the set order. By then A's
      rank is (1 + d)/3, and the update as written gives C the extra
      d(1 + d)/9 on top of the teleport term, which is all the corrected
      update gives it. */
  lemma StaleReadCounterexample(d: real)
    ensures var c := StaleCorpus();
      && Listed(c)
      && Current(c, 2) == "C"
      && Referrers(c, "B") == {"A"}
      && Referrers(c, "C") == {}
      && NewRankAsWritten(c, After(c, d, 2).ranks, "C", d, 3, Some("A"))
         == Ok((1.0 - d) / 3.0 + d * (1.0 + d) / 9.0)
      && NewRank(c, After(c, d, 2).ranks, "C", d, 3) == (1.0 - d) / 3.0
      && (0.0 < d ==> NewRankAsWritten(c, After(c, d, 2).ranks, "C", d, 3, Some("A")).value
                      > NewRank(c, After(c, d, 2).ranks, "C", d, 3))
  {
    StaleCorpusShape();
    StaleCorpusFirstUpdate(d);
    StaleCorpusSecondUpdate(d);
    StaleRead(d, After(StaleCorpus(), d, 2).ranks);
  }

  /** Reading the stale page A when A's rank is (1 + d)/3 gives C the extra
      d(1 + d)/9. */
  lemma StaleRead(d: real, ranks: map<Page, real>)
    requires Ranked(StaleCorpus(), ranks) && ranks["A"] == (1.0 + d) / 3.0
    ensures var c := StaleCorpus();
      && NewRankAsWritten(c, ranks, "C", d, 3, Some("A")) == Ok((1.0 - d) / 3.0 + d * (1.0 + d) / 9.0)
      && NewRank(c, ranks, "C", d, 3) == (1.0 - d) / 3.0
      && (0.0 < d ==> NewRankAsWritten(c, ranks, "C", d, 3, Some("A")).value > NewRank(c, ranks, "C", d, 3))
  {
    var c := StaleCorpus();
    StaleCorpusShape();
    var written := NewRankAsWritten(c, ranks, "C", d, 3, Some("A"));
    StaleShare(d, ranks["A"], written.value);
  }

  /** The round-robin order and the referrers of the stale corpus. */
  lemma StaleCorpusShape()
    ensures var c := StaleCorpus();
      && Listed(c)
      && Current(c, 2) == "C"
      && Referrers(c, "B") == {"A"}
      && Referrers(c, "C") == {}
  {
    StaleCorpusOrder();
    StaleCorpusReferrers();
  }

  lemma StaleCorpusOrder()
    ensures Listed(StaleCorpus()) && Current(StaleCorpus(), 2) == "C"
  {
    StaleListed();
    assert Position(2, 3) == 2;
  }

  lemma StaleListed()
    ensures Listed(StaleCorpus())
  {
  }

  lemma StaleCorpusReferrers()
    ensures Referrers(StaleCorpus(), "A") == {"B", "C"}
    ensures Referrers(StaleCorpus(), "B") == {"A"} && Referrers(StaleCorpus(), "C") == {}
  {
    var c := StaleCorpus();
    assert Referrers(c, "A") == {"B", "C"};
    assert Referrers(c, "B") == {"A"};
    assert Referrers(c, "C") == {};
  }

  lemma StaleShare(d: real, a: real, w: real)
    requires a == (1.0 + d) / 3.0 && w == (1.0 - d) / 3.0 + d * (a / 3.0)
    ensures w == (1.0 - d) / 3.0 + d * (1.0 + d) / 9.0
    ensures 0.0 < d ==> w > (1.0 - d) / 3.0
  {
    assert a / 3.0 == (1.0 + d) / 9.0;
    assert d * ((1.0 + d) / 9.0) == d * (1.0 + d) / 9.0;
    if 0.0 < d {
      assert d * (1.0 + d) > 0.0;
    }
  }

  /** Pages A, B, C where A has no links, B links to A and C, and C links
      to B. */
  function LeakyCorpus(): Corpus
  {
    Corpus(["A", "B", "C"], map["A" := {}, "B" := {"A", "C"}, "C" := {"B"}])
  }

  /** Ranks A = C = 5/21 and B = 2/7. */
  function LeakyRanks(): map<Page, real>
  {
    map["A" := 5.0 / 21.0, "B" := 2.0 / 7.0, "C" := 5.0 / 21.0]
  }

  /** Every page of the leaky corpus has a referrer, so the update as written
      and the corrected one agree on it. With d = 1/2 the ranks A = C = 5/21,
      B = 2/7 are left unchanged by the update of every page, yet they sum
      to 16/21: A's rank is passed on to nobody. */
  lemma DanglingPageLeaksRank()
    ensures var c, ranks := LeakyCorpus(), LeakyRanks();
      && Ordered(c) && Crawled(c) && Ranked(c, ranks) && Covers(c.pages, ranks)
      && (forall q :: q in c.links ==> Referrers(c, q) != {} && NewRank(c, ranks, q, 0.5, 3) == ranks[q])
      && Total(c.pages, ranks) == 16.0 / 21.0
  {
    var c, ranks := LeakyCorpus(), LeakyRanks();
    LeakyCorpusShape();
    LeakyRanksFixed();
    assert Total(c.pages, ranks) == 5.0 / 21.0 + 2.0 / 7.0 + 5.0 / 21.0;
  }

  /** The leaky corpus is a crawled corpus in which A is referred to by B,
      B by C and C by B. */
  lemma LeakyCorpusShape()
    ensures var c := LeakyCorpus();
      && Ordered(c) && Crawled(c)
      && Referrers(c, "A") == {"B"} && Referrers(c, "B") == {"C"} && Referrers(c, "C") == {"B"}
  {
    var c := LeakyCorpus();
    assert Referrers(c, "A") == {"B"};
    assert Referrers(c, "B") == {"C"};
    assert Referrers(c, "C") == {"B"};
  }

  /** Each page's update leaves its rank in `LeakyRanks` unchanged. */
  lemma LeakyRanksFixed()
    ensures var c, ranks := LeakyCorpus(), LeakyRanks();
      && Ranked(c, ranks)
      && NewRank(c, ranks, "A", 0.5, 3) == ranks["A"]
      && NewRank(c, ranks, "B", 0.5, 3) == ranks["B"]
      && NewRank(c, ranks, "C", 0.5, 3) == ranks["C"]
  {
    var c, ranks := LeakyCorpus(), LeakyRanks();
    LeakyCorpusShape();
    InboundSumSingle(c, ranks, "B", 0.5, 3);
    InboundSumSingle(c, ranks, "C", 0.5, 3);
  }

  /** A counter that goes up by one at every position where `small` holds
      and drops to zero elsewhere counts the consecutive positions just
      before `k` where `small` holds. */
  lemma {:induction false} CounterWindow(count: nat -> nat, small: nat -> bool, k: nat, i: nat)
    requires forall m: nat :: m < k ==> count(m + 1) == if small(m) then count(m) + 1 else 0
    requires k - count(k) <= i < k
    ensures small(i)
  {
    var before := k - 1;
    assert count(before + 1) == if small(before) then count(before) + 1 else 0;
    if i < before {
      CounterWindow(count, small, before, i);
    }
  }

  /** Whether each update moved its page by at most the threshold. */
  ghost function Small(c: Corpus, d: real): nat -> bool
    requires Listed(c)
  {
    (i: nat) => Change(c, d, i) <= Threshold
  }

  /** The counter at `k` updates is the number of consecutive stable
      updates just before: each of the last `After(k).stable` updates moved
      its page by at most the threshold. */
  lemma ConvergenceWindow(c: Corpus, d: real, k: nat, i: nat)
    requires Listed(c) && k - After(c, d, k).stable <= i < k
    ensures Change(c, d, i) <= Threshold
  {
    forall m: nat | m < k
      ensures Stable(c, d)(m + 1) == if Small(c, d)(m) then Stable(c, d)(m) + 1 else 0
    {
      CounterStep(c, d, m);
    }
    CounterWindow(Stable(c, d), Small(c, d), k, i);
  }

  lemma CounterStep(c: Corpus, d: real, m: nat)
    requires Listed(c)
    ensures Stable(c, d)(m + 1) == if Small(c, d)(m) then Stable(c, d)(m) + 1 else 0
  {
    StableStep(c, d, m, m + 1);
  }

  /** The counter goes up by one after an update that moved its page by at
      most the threshold, and drops to zero after any other. */
  lemma StableStep(c: Corpus, d: real, i: nat, j: nat)
    requires Listed(c) && j == i + 1
    ensures After(c, d, j).stable == if Change(c, d, i) <= Threshold then After(c, d, i).stable + 1 else 0
  {
    AfterStep(c, d, i, j);
  }

  /** The state after `j = i + 1` updates is one update after the state
      after `i`. */
  lemma AfterStep(c: Corpus, d: real, i: nat, j: nat)
    requires Listed(c) && j == i + 1
    ensures After(c, d, j) == Step(c, d, After(c, d, i))
  {
    assert j - 1 == i;
  }

  /** `FirstReaching` finds the first position where the count reaches the
      target, and finds none only when no position within the budget does. */
  lemma {:induction false} FirstReachingIsFirst(count: nat -> nat, target: nat, k: nat, fuel: nat)
    ensures FirstReaching(count, target, k, fuel).Some? ==>
      var j := FirstReaching(count, target, k, fuel).value;
      && k <= j <= k + fuel
      && count(j) >= target
      && forall i :: k <= i < j ==> count(i) < target
    ensures FirstReaching(count, target, k, fuel).None? ==>
      forall i :: k <= i <= k + fuel ==> count(i) < target
    decreases fuel
  {
    if count(k) < target && fuel > 0 {
      FirstReachingIsFirst(count, target, k + 1, fuel - 1);
    }
  }

  /** When `iterate_pagerank` returns ranks, they are the ranks of every
      page of the corpus, at least one full round of N updates has been
      made, and each of the last N updates (one per page, in round-robin
      order) moved its page's rank by at most the threshold. */
  lemma IteratedConverged(c: Corpus, d: real, maxSteps: nat)
    requires Listed(c)
    ensures Stop(c, d, 0, maxSteps).Some? ==>
      var k := Stop(c, d, 0, maxSteps).value;
      && Iterated(c, d, maxSteps) == Ok(After(c, d, k).ranks)
      && (forall p :: p in After(c, d, k).ranks <==> p in c.links)
      && |c.pages| <= k <= maxSteps
      && forall i :: k - |c.pages| <= i < k ==> Change(c, d, i) <= Threshold
    ensures Stop(c, d, 0, maxSteps).None? ==> Iterated(c, d, maxSteps) == Err(NotConverged)
  {
    FirstReachingIsFirst(Stable(c, d), |c.pages|, 0, maxSteps);
    if Stop(c, d, 0, maxSteps).Some? {
      var k := Stop(c, d, 0, maxSteps).value;
      RanksAreExactlyCorpus(c, d, k);
      forall i | k - |c.pages| <= i < k
        ensures Change(c, d, i) <= Threshold
      {
        ConvergenceWindow(c, d, k, i);
      }
    }
  }

  /** A window of N consecutive updates visits every page: the one at
      position `j` of the cycle is updated at `WindowIndex(k, n, j)`. */
  function WindowIndex(k: nat, n: nat, j: nat): (i: nat)
    requires 0 <= j < n <= k
    ensures k - n <= i < k && Position(i, n) == j
  {
    var a := k - n;
    var m := (j - a) % n;
    RoundRobin(a, m, j, n);
    PositionIsModulo(a + m, n);
    a + m
  }

  lemma RoundRobin(a: int, m: int, j: int, n: int)
    requires 0 <= j < n && m == (j - a) % n
    ensures (a + m) % n == j
  {
    var q := (j - a) / n;
    assert j - a == q * n + m;
    ModUnique(a + m, n, -q, j);
  }

  /** Euclidean division is unique: a remainder in [0, n) is the one `%`
      computes. */
  lemma ModUnique(x: int, n: int, s: int, r: int)
    requires 0 <= r < n && x == s * n + r
    ensures x % n == r
  {
    var s', r' := x / n, x % n;
    assert x == s' * n + r';
    var t := s - s';
    assert t * n == r' - r by {
      assert t * n == s * n - s' * n;
    }
    MulBounds(t, n);
  }

  lemma MulBounds(t: int, n: int)
    requires n > 0
    ensures t >= 1 ==> t * n >= n
    ensures t <= -1 ==> t * n <= -n
  {
    if t >= 1 {
      assert t * n - n == (t - 1) * n;
    } else if t <= -1 {
      assert t * n + n == (t + 1) * n;
    }
  }

  /** Each page of the corpus changed by at most the threshold at its last
      update before the ranks are returned. */
  lemma EveryPageStable(c: Corpus, d: real, maxSteps: nat, j: nat)
    requires Listed(c) && Stop(c, d, 0, maxSteps).Some? && j < |c.pages|
    ensures var k := Stop(c, d, 0, maxSteps).value;
      |c.pages| <= k && Current(c, WindowIndex(k, |c.pages|, j)) == c.pages[j]
      && Change(c, d, WindowIndex(k, |c.pages|, j)) <= Threshold
  {
    IteratedConverged(c, d, maxSteps);
  }

  /** Contributions of non-negative ranks with a non-negative damping
      factor are non-negative. */
  lemma {:induction false} InboundSumNonNegative(c: Corpus, ranks: map<Page, real>, refs: set<Page>, d: real, n: nat)
    requires Ranked(c, ranks) && n > 0 && (forall p :: p in refs ==> p in c.links) && 0.0 <= d
    requires forall p :: p in ranks ==> ranks[p] >= 0.0
    ensures InboundSum(c, ranks, refs, d, n) >= 0.0
    decreases refs
  {
    if refs != {} {
      var p :| p in refs && InboundSum(c, ranks, refs, d, n) == Contribution(c, ranks, p, d, n) + InboundSum(c, ranks, refs - {p}, d, n);
      InboundSumNonNegative(c, ranks, refs - {p}, d, n);
      ProductNonNegative(d, ranks[p], Outdegree(c, p, n) as real);
      assert Contribution(c, ranks, p, d, n) >= 0.0;
      assert InboundSum(c, ranks, refs - {p}, d, n) >= 0.0;
    }
  }

  lemma ProductNonNegative(d: real, r: real, k: real)
    requires 0.0 <= d && 0.0 <= r && 0.0 < k
    ensures d * (r / k) >= 0.0
  {
    assert r / k >= 0.0;
  }

  /** Every rank in the map is positive. */
  ghost predicate Positive(ranks: map<Page, real>)
  {
    forall p :: p in ranks ==> ranks[p] > 0.0
  }

  /** An update with a damping factor in [0, 1) keeps every rank positive. */
  lemma StepKeepsPositive(c: Corpus, d: real, st: State)
    requires Listed(c) && Ranked(c, st.ranks) && 0.0 <= d < 1.0 && Positive(st.ranks)
    ensures Positive(Step(c, d, st).ranks)
  {
    var q := Current(c, st.updates);
    InboundSumNonNegative(c, st.ranks, Referrers(c, q), d, |c.pages|);
    assert (1.0 - d) / |c.pages| as real > 0.0;
  }

  /** With a damping factor in [0, 1) every rank stays positive. */
  lemma {:induction false} RanksStayPositive(c: Corpus, d: real, k: nat)
    requires Listed(c) && 0.0 <= d < 1.0
    ensures Positive(After(c, d, k).ranks)
  {
    if k > 0 {
      var before := k - 1;
      RanksStayPositive(c, d, before);
      AfterStep(c, d, before, k);
      StepKeepsPositive(c, d, After(c, d, before));
    }
  }

  /** An update gives the current page its new rank, leaves every other
      rank as it was, and ranks no page outside the corpus. */
  lemma StepChangesOnlyCurrent(c: Corpus, d: real, st: State)
    requires Listed(c) && Ranked(c, st.ranks)
    ensures var next, q := Step(c, d, st), Current(c, st.updates);
      && (forall p :: p in next.ranks <==> p in st.ranks)
      && next.ranks[q] == NewRank(c, st.ranks, q, d, |c.pages|)
      && forall p :: p in st.ranks && p != q ==> next.ranks[p] == st.ranks[p]
  {
  }

  /** The ranks are always those of exactly the pages of the corpus. */
  lemma {:induction false} RanksAreExactlyCorpus(c: Corpus, d: real, k: nat)
    requires Listed(c)
    ensures forall p :: p in After(c, d, k).ranks <==> p in c.links
  {
    if k > 0 {
      var before := k - 1;
      RanksAreExactlyCorpus(c, d, before);
      AfterStep(c, d, before, k);
      StepChangesOnlyCurrent(c, d, After(c, d, before));
    }
  }

  /** The inner loop of the index build: record `page` as a referrer of
      each page it links to, creating the entry on first use. */
  method AddReferrer(index: map<Page, set<Page>>, page: Page, targets: set<Page>)
    returns (index': map<Page, set<Page>>)
    ensures forall q :: q in index' <==> q in index || q in targets
    ensures forall q :: q in index' ==>
      index'[q] == (if q in index then index[q] else {}) + (if q in targets then {page} else {})
  {
    index' := index;
    var remaining := targets;
    while remaining != {}
      invariant remaining <= targets
      invariant forall q :: q in index' <==> q in index || (q in targets && q !in remaining)
      invariant forall q :: q in index' ==>
        index'[q] == (if q in index then index[q] else {}) + (if q in targets && q !in remaining then {page} else {})
      decreases remaining
    {
      var referencedPage :| referencedPage in remaining;
      if referencedPage in index' {
        index' := index'[referencedPage := index'[referencedPage] + {page}];
      } else {
        index' := index'[referencedPage := {page}];
      }
      remaining := remaining - {referencedPage};
    }
  }

  /** The set-up loop of `iterate_pagerank`: every page starts at 1/N, and
      the index lists the pages linking to each page. */
  method BuildIndex(c: Corpus) returns (pageRanks: map<Page, real>, index: map<Page, set<Page>>)
    requires Ordered(c) && c.pages != []
    ensures pageRanks == InitialRanks(c)
    ensures IsReverseIndex(c, index)
  {
    var startingRank := 1.0 / |c.pages| as real;
    pageRanks := map[];
    index := map[];
    var i := 0;
    while i < |c.pages|
      invariant 0 <= i <= |c.pages|
      invariant forall p :: p in pageRanks <==> p in c.pages[..i]
      invariant forall p :: p in pageRanks ==> pageRanks[p] == startingRank
      invariant forall q, p :: q in index && p in index[q] ==> p in c.pages[..i] && p in c.links && q in c.links[p]
      invariant forall j, q :: 0 <= j < i && q in c.links[c.pages[j]] ==> q in index && c.pages[j] in index[q]
    {
      ghost var before := i;
      var page := c.pages[i];
      pageRanks := pageRanks[page := startingRank];
      index := AddReferrer(index, page, c.links[page]);
      i := i + 1;
      assert c.pages[..i] == c.pages[..before] + [page];
    }
    assert c.pages[..i] == c.pages;
    StartingRanks(c, pageRanks);
    IndexFromPages(c, index);
  }

  /** A rank of 1/N for each page of the corpus order is the initial rank
      map. */
  lemma StartingRanks(c: Corpus, ranks: map<Page, real>)
    requires Ordered(c) && c.pages != []
    requires forall p :: p in ranks <==> p in c.pages
    requires forall p :: p in ranks ==> ranks[p] == 1.0 / |c.pages| as real
    ensures ranks == InitialRanks(c)
  {
    assert forall p :: p in ranks <==> p in InitialRanks(c);
  }

  /** An index that lists each page of the corpus order under every page it
      links to, and nothing else, is the reverse index. */
  lemma IndexFromPages(c: Corpus, index: map<Page, set<Page>>)
    requires Ordered(c)
    requires forall q, p :: q in index && p in index[q] ==> p in c.links && q in c.links[p]
    requires forall j, q :: 0 <= j < |c.pages| && q in c.links[c.pages[j]] ==> q in index && c.pages[j] in index[q]
    ensures IsReverseIndex(c, index)
  {
    forall p, q | p in c.links && q in c.links[p]
      ensures q in index && p in index[q]
    {
      var j :| 0 <= j < |c.pages| && c.pages[j] == p;
    }
  }

  /** The inner sum of an update: the contributions of the referrers, taken
      in any order. */
  method ReferencesSum(c: Corpus, ranks: map<Page, real>, refs: set<Page>, d: real, n: nat)
    returns (sum: real)
    requires Ranked(c, ranks) && n > 0 && forall p :: p in refs ==> p in c.links
    ensures sum == InboundSum(c, ranks, refs, d, n)
  {
    sum := 0.0;
    var remaining := refs;
    while remaining != {}
      invariant remaining <= refs
      invariant sum + InboundSum(c, ranks, remaining, d, n) == InboundSum(c, ranks, refs, d, n)
      decreases remaining
    {
      var referencePage :| referencePage in remaining;
      InboundSumRemove(c, ranks, remaining, d, n, referencePage);
      sum := sum + d * (ranks[referencePage] / Outdegree(c, referencePage, n) as real);
      remaining := remaining - {referencePage};
    }
  }

  /** One pass of the update loop: the new rank of the current page, and
      the stable counter moved on. */
  method Update(c: Corpus, d: real, index: map<Page, set<Page>>,
                pageRanks: map<Page, real>, currentCount: nat, convergenceCount: nat)
    returns (pageRanks': map<Page, real>, currentCount': nat, convergenceCount': nat)
    requires Listed(c) && IsReverseIndex(c, index) && Ranked(c, pageRanks)
    ensures State(pageRanks', currentCount', convergenceCount')
         == Step(c, d, State(pageRanks, currentCount, convergenceCount))
  {
    var pageCount := |c.pages|;
    PositionIsModulo(currentCount, pageCount);
    var currentPage := c.pages[currentCount % pageCount];
    assert currentPage == Current(c, currentCount);
    IndexIsReferrers(c, index, currentPage);
    var referencesSum := 0.0;
    if currentPage in index {
      referencesSum := ReferencesSum(c, pageRanks, index[currentPage], d, pageCount);
    }
    var newRank := (1.0 - d) / pageCount as real + referencesSum;
    assert newRank == NewRank(c, pageRanks, currentPage, d, pageCount);
    if Abs(pageRanks[currentPage] - newRank) <= Threshold {
      convergenceCount' := convergenceCount + 1;
    } else {
      convergenceCount' := 0;
    }
    pageRanks' := pageRanks[currentPage := newRank];
    currentCount' := currentCount + 1;
  }

  /** The search stops at the first position within the budget where the
      count reaches the target. */
  lemma {:induction false} FirstReachingAt(count: nat -> nat, target: nat, k: nat, fuel: nat, j: nat)
    requires k <= j <= k + fuel && count(j) >= target
    requires forall i :: k <= i < j ==> count(i) < target
    ensures FirstReaching(count, target, k, fuel) == Some(j)
    decreases fuel
  {
    if k < j {
      FirstReachingAt(count, target, k + 1, fuel - 1, j);
    }
  }

  /** The search finds nothing when the count stays below the target for
      the whole budget. */
  lemma {:induction false} FirstReachingNone(count: nat -> nat, target: nat, k: nat, fuel: nat)
    requires forall i :: k <= i <= k + fuel ==> count(i) < target
    ensures FirstReaching(count, target, k, fuel) == None
    decreases fuel
  {
    if fuel > 0 {
      FirstReachingNone(count, target, k + 1, fuel - 1);
    }
  }

  /** No state before the `k`-th has a counter of N. */
  ghost predicate Unconverged(c: Corpus, d: real, k: nat)
    requires Listed(c)
  {
    forall i: nat :: i < k ==> After(c, d, i).stable < |c.pages|
  }

  /** One more unconverged state. */
  lemma UnconvergedStep(c: Corpus, d: real, i: nat, j: nat)
    requires Listed(c) && j == i + 1 && Unconverged(c, d, i) && After(c, d, i).stable < |c.pages|
    ensures Unconverged(c, d, j)
  {
    forall k: nat | k < j
      ensures After(c, d, k).stable < |c.pages|
    {
      if k == i {
      }
    }
  }

  /** The loop of `iterate_pagerank` stops at the first state whose counter
      has reached N. */
  lemma StopAt(c: Corpus, d: real, maxSteps: nat, k: nat)
    requires Listed(c) && k <= maxSteps && After(c, d, k).stable >= |c.pages|
    requires Unconverged(c, d, k)
    ensures Iterated(c, d, maxSteps) == Ok(After(c, d, k).ranks)
  {
    FirstReachingAt(Stable(c, d), |c.pages|, 0, maxSteps, k);
  }

  /** The loop of `iterate_pagerank` runs out of budget when no state within
      it has a counter of N. */
  lemma StopNone(c: Corpus, d: real, maxSteps: nat)
    requires Listed(c) && Unconverged(c, d, maxSteps) && After(c, d, maxSteps).stable < |c.pages|
    ensures Iterated(c, d, maxSteps) == Err(NotConverged)
  {
    forall i: nat | i <= maxSteps
      ensures Stable(c, d)(i) < |c.pages|
    {
      if i < maxSteps {
        assert After(c, d, i).stable < |c.pages|;
      }
    }
    FirstReachingNone(Stable(c, d), |c.pages|, 0, maxSteps);
  }

  /** `iterate_pagerank` with a budget of `maxSteps` updates: ZeroDivisionError
      for an empty corpus, the ranks once N consecutive updates were stable,
      or NotConverged when the budget runs out first. */
  method IteratePageRank(c: Corpus, d: real, maxSteps: nat) returns (r: Result<map<Page, real>>)
    requires Ordered(c)
    ensures r == Iterated(c, d, maxSteps)
  {
    if |c.pages| == 0 {
      return Err(ZeroDivisionError);
    }
    var pageCount := |c.pages|;
    var pageRanks, index := BuildIndex(c);
    var currentCount: nat := 0;
    var convergenceCount: nat := 0;
    while true
      invariant currentCount <= maxSteps
      invariant State(pageRanks, currentCount, convergenceCount) == After(c, d, currentCount)
      invariant Unconverged(c, d, currentCount)
      decreases maxSteps - currentCount
    {
      if convergenceCount >= pageCount {
        break;
      }
      if currentCount == maxSteps {
        StopNone(c, d, maxSteps);
        return Err(NotConverged);
      }
      ghost var before := currentCount;
      pageRanks, currentCount, convergenceCount := Update(c, d, index, pageRanks, currentCount, convergenceCount);
      AfterStep(c, d, before, currentCount);
      UnconvergedStep(c, d, before, currentCount);
    }
    StopAt(c, d, maxSteps, currentCount);
    return Ok(pageRanks);
  }
}
