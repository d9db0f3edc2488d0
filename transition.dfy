/** `transition_model`: the probability of each page being visited next,
    given the page the random surfer is on. */
module Transition {
  import opened PageGraph

  /** One `n`-th of `whole`, computed as `(1 / n) * whole`. */
  function Part(whole: real, n: nat): real
    requires n > 0
  {
    (1.0 / n as real) * whole
  }

  /** The share of the probability every page receives by teleporting: one
      N-th of `1 - d`, or one N-th of everything from a page without links. */
  function TeleportShare(c: Corpus, page: Page, d: real): real
    requires page in c.links
  {
    var n := |c.links.Keys|;
    assert page in c.links.Keys;
    if |c.links[page]| != 0 then Part(1.0 - d, n) else Part(1.0, n)
  }

  /** The extra share a page receives for being linked to by `page`: one
      k-th of `d` for each of its k links. */
  function FollowShare(c: Corpus, page: Page, d: real): real
    requires page in c.links
  {
    var k := |c.links[page]|;
    if k != 0 then Part(d, k) else 0.0
  }

  /** The next-page distribution of the surfer on `page`: every page of the
      corpus gets the teleport share, and pages `page` links to also get the
      follow share. A page outside the corpus raises KeyError. */
  function TransitionModel(c: Corpus, page: Page, d: real): (r: Result<map<Page, real>>)
    ensures r.Ok? <==> page in c.links
    ensures r.Ok? ==> forall p :: p in r.value <==> p in c.links
    ensures r.Ok? ==> forall p :: p in r.value ==>
      r.value[p] == TeleportShare(c, page, d) + (if p in c.links[page] then FollowShare(c, page, d) else 0.0)
  {
    if page !in c.links then Err(KeyError)
    else
      var teleport := TeleportShare(c, page, d);
      var follow := FollowShare(c, page, d);
      Ok(map p | p in c.links :: if p in c.links[page] then teleport + follow else teleport)
  }

  /** A dangling page spreads the surfer uniformly whatever the damping;
      otherwise every page gets (1 - d)/N, and each of the k linked pages
      d/k on top. */
  lemma TransitionValues(c: Corpus, page: Page, d: real, p: Page)
    requires page in c.links && p in c.links
    ensures c.links[page] == {} ==>
      TransitionModel(c, page, d).value[p] == 1.0 / |c.links.Keys| as real
    ensures c.links[page] != {} ==>
      TransitionModel(c, page, d).value[p]
        == (1.0 - d) / |c.links.Keys| as real
           + (if p in c.links[page] then d / |c.links[page]| as real else 0.0)
  {
    var n, k := |c.links.Keys|, |c.links[page]|;
    assert page in c.links.Keys;
    if k != 0 {
      PartIsQuotient(1.0 - d, n);
      PartIsQuotient(d, k);
    } else {
      PartIsQuotient(1.0, n);
    }
  }

  /** One `n`-th of `whole` is `whole / n`. */
  lemma PartIsQuotient(whole: real, n: nat)
    requires n > 0
    ensures Part(whole, n) == whole / n as real
  {
  }

  /** `x` added `j` times. */
  function Times(j: nat, x: real): real
  {
    if j == 0 then 0.0 else Times(j - 1, x) + x
  }

  /** Adding `x` up `j` times makes `j * x`. */
  lemma {:induction false} TimesIsProduct(j: nat, x: real)
    ensures Times(j, x) == j as real * x
  {
    if j > 0 {
      TimesIsProduct(j - 1, x);
      assert (j - 1) as real * x + x == j as real * x;
    }
  }

  /** `n` parts of one `n`-th make the whole. */
  lemma PartsMakeWhole(whole: real, n: nat)
    requires n > 0
    ensures Times(n, Part(whole, n)) == whole
  {
    TimesIsProduct(n, Part(whole, n));
    ReciprocalTimes(whole, n);
  }

  lemma ReciprocalTimes(whole: real, n: nat)
    requires n > 0
    ensures n as real * ((1.0 / n as real) * whole) == whole
  {
    var r, a := n as real, 1.0 / n as real;
    assert r * a == 1.0;
    assert r * (a * whole) == (r * a) * whole;
  }

  /** One `n`-th of a non-negative amount lies between 0 and the amount, and
      is positive when the amount is. */
  lemma PartBounds(whole: real, n: nat)
    requires n > 0 && 0.0 <= whole
    ensures 0.0 <= Part(whole, n) <= whole
    ensures whole > 0.0 ==> Part(whole, n) > 0.0
  {
    var a := 1.0 / n as real;
    assert 0.0 < a <= 1.0;
    assert whole - a * whole == (1.0 - a) * whole;
  }

  /** When every key gets `t`, plus `f` for the keys in `s`, the running
      sum is `t` once per key so far plus `f` once per key of `s` so far. */
  lemma {:induction false} SharePrefixSum(keys: seq<Page>, m: map<Page, real>, s: set<Page>, t: real, f: real, j: nat)
    requires Covers(keys, m) && j <= |keys|
    requires forall i :: 0 <= i < |keys| ==> m[keys[i]] == t + (if keys[i] in s then f else 0.0)
    ensures SumUpTo(keys, m, j) == Times(j, t) + Times(CountIn(keys, s, j), f)
  {
    if j > 0 {
      SharePrefixSum(keys, m, s, t, f, j - 1);
    }
  }

  /** The distribution of a page of a crawled corpus sums to exactly 1 over
      the corpus, for every damping factor. */
  lemma TransitionSumsToOne(c: Corpus, page: Page, d: real)
    requires Ordered(c) && Crawled(c) && page in c.links
    ensures Covers(c.pages, TransitionModel(c, page, d).value)
    ensures Total(c.pages, TransitionModel(c, page, d).value) == 1.0
  {
    var keys, m, linked := c.pages, TransitionModel(c, page, d).value, c.links[page];
    var t, f := TeleportShare(c, page, d), FollowShare(c, page, d);
    var n, k := |c.links.Keys|, |linked|;
    assert page in c.links.Keys;
    DistinctLength(keys, c.links.Keys);
    assert forall i :: 0 <= i < |keys| ==> m[keys[i]] == t + (if keys[i] in linked then f else 0.0);
    SharePrefixSum(keys, m, linked, t, f, |keys|);
    CountInSubset(keys, linked);
    if k != 0 {
      PartsMakeWhole(1.0 - d, n);
      PartsMakeWhole(d, k);
    } else {
      PartsMakeWhole(1.0, n);
    }
  }

  /** With a damping factor in [0, 1] every probability is non-negative and
      at most 1, and below 1 every page can be reached in one step. */
  lemma TransitionIsProbability(c: Corpus, page: Page, d: real, p: Page)
    requires page in c.links && p in c.links && 0.0 <= d <= 1.0
    ensures 0.0 <= TransitionModel(c, page, d).value[p] <= 1.0
    ensures d < 1.0 ==> TransitionModel(c, page, d).value[p] > 0.0
  {
    var n, k := |c.links.Keys|, |c.links[page]|;
    assert page in c.links.Keys;
    if k != 0 {
      PartBounds(1.0 - d, n);
      PartBounds(d, k);
    } else {
      PartBounds(1.0, n);
    }
  }

  /** The corpus of test.py: page 1 links to pages 2 and 3, which link to
      each other. */
  function SampleCorpus(): Corpus
  {
    Corpus(["1.html", "2.html", "3.html"],
           map["1.html" := {"2.html", "3.html"}, "2.html" := {"3.html"}, "3.html" := {"2.html"}])
  }

  /** With exact arithmetic, the surfer on page 1 of test.py's corpus moves
      to page 1 with probability 0.05 and to pages 2 and 3 with 0.475 each. */
  lemma SampleCorpusFromPageOne()
    ensures TransitionModel(SampleCorpus(), "1.html", 0.85)
         == Ok(map["1.html" := 0.05, "2.html" := 0.475, "3.html" := 0.475])
  {
    var c := SampleCorpus();
    assert c.links.Keys == {"1.html", "2.html", "3.html"};
    assert |c.links.Keys| == 3;
    assert |c.links["1.html"]| == 2;
    var r := TransitionModel(c, "1.html", 0.85).value;
    assert r.Keys == {"1.html", "2.html", "3.html"};
    assert r["1.html"] == 0.05 && r["2.html"] == 0.475 && r["3.html"] == 0.475;
    var e := map["1.html" := 0.05, "2.html" := 0.475, "3.html" := 0.475];
    assert forall p :: p in r ==> p in e && r[p] == e[p];
    assert r == e;
  }

  /** A page without links sends the surfer to each of three pages with
      probability 1/3, whatever the damping factor. */
  lemma DanglingPageIsUniform(d: real)
    ensures TransitionModel(Corpus(["A", "B", "C"], map["A" := {}, "B" := {"A"}, "C" := {"A"}]), "A", d)
         == Ok(map["A" := 1.0 / 3.0, "B" := 1.0 / 3.0, "C" := 1.0 / 3.0])
  {
    var c := Corpus(["A", "B", "C"], map["A" := {}, "B" := {"A"}, "C" := {"A"}]);
    assert c.links.Keys == {"A", "B", "C"};
    assert |c.links.Keys| == 3;
    var r := TransitionModel(c, "A", d).value;
    assert r.Keys == {"A", "B", "C"};
    var e := map["A" := 1.0 / 3.0, "B" := 1.0 / 3.0, "C" := 1.0 / 3.0];
    assert forall p :: p in r ==> p in e && r[p] == e[p];
    assert r == e;
  }
}
