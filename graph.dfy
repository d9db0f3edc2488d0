/** The link graph every PageRank algorithm reads, the errors the algorithms
    raise, and sums of per-page values taken in a fixed key order. */
module PageGraph {

  /** A page identifier (the file name of an HTML page). */
  type Page = string

  /** A corpus as the crawler hands it over: a dictionary from each page to
      the set of pages it links to. `pages` is the dictionary's key order
      (insertion order), which fixes every enumeration the algorithms do. */
  datatype Corpus = Corpus(pages: seq<Page>, links: map<Page, set<Page>>)

  /** The exceptions the algorithms raise, plus the missing convergence that
      a step budget turns into an error. */
  datatype Error = KeyError | IndexError | ZeroDivisionError | NameError | NotConverged

  datatype Result<T> = Ok(value: T) | Err(error: Error)

  datatype Option<T> = None | Some(value: T)

  /** No page is listed twice. */
  predicate Distinct(s: seq<Page>)
  {
    forall i, j :: 0 <= i < j < |s| ==> s[i] != s[j]
  }

  /** `pages` enumerates the dictionary's keys, each exactly once. */
  predicate Ordered(c: Corpus)
  {
    && Distinct(c.pages)
    && (forall i :: 0 <= i < |c.pages| ==> c.pages[i] in c.links)
    && (forall p :: p in c.links ==> p in c.pages)
  }

  /** What the crawler guarantees: every link names a page of the corpus and
      no page links to itself. */
  predicate Crawled(c: Corpus)
  {
    forall p :: p in c.links ==> c.links[p] <= c.links.Keys && p !in c.links[p]
  }

  /** Every key of `keys` has a value in `m`. */
  predicate Covers(keys: seq<Page>, m: map<Page, real>)
  {
    forall i :: 0 <= i < |keys| ==> keys[i] in m
  }

  /** The running sum of `m` over the first `j` keys, added left to right as
      a loop over the dictionary adds them. */
  function SumUpTo(keys: seq<Page>, m: map<Page, real>, j: nat): real
    requires Covers(keys, m) && j <= |keys|
  {
    if j == 0 then 0.0 else SumUpTo(keys, m, j - 1) + m[keys[j - 1]]
  }

  /** The sum of `m` over all of `keys`. */
  function Total(keys: seq<Page>, m: map<Page, real>): real
    requires Covers(keys, m)
  {
    SumUpTo(keys, m, |keys|)
  }

  /** How many of the first `j` keys lie in `s`. */
  function CountIn(keys: seq<Page>, s: set<Page>, j: nat): nat
    requires j <= |keys|
  {
    if j == 0 then 0 else CountIn(keys, s, j - 1) + (if keys[j - 1] in s then 1 else 0)
  }

  /** The first `j` keys, as a set. */
  function KeySet(keys: seq<Page>, j: nat): (ks: set<Page>)
    requires j <= |keys|
    ensures forall i :: 0 <= i < j ==> keys[i] in ks
  {
    if j == 0 then {} else KeySet(keys, j - 1) + {keys[j - 1]}
  }

  /** In a duplicate-free order, a key is not among the keys before it. */
  lemma {:induction false} NotBefore(keys: seq<Page>, j: nat, m: nat)
    requires Distinct(keys) && j <= m < |keys|
    ensures keys[m] !in KeySet(keys, j)
  {
    if j > 0 {
      NotBefore(keys, j - 1, m);
    }
  }

  /** Counting the keys of a duplicate-free prefix that lie in `s` counts
      the members of `s` among them. */
  lemma {:induction false} CountInIsCardinality(keys: seq<Page>, s: set<Page>, j: nat)
    requires Distinct(keys) && j <= |keys|
    ensures CountIn(keys, s, j) == |s * KeySet(keys, j)|
  {
    if j > 0 {
      CountInIsCardinality(keys, s, j - 1);
      var k, before := keys[j - 1], s * KeySet(keys, j - 1);
      NotBefore(keys, j - 1, j - 1);
      if k in s {
        assert s * KeySet(keys, j) == before + {k};
        assert k !in before;
        assert |before + {k}| == |before| + 1;
      } else {
        assert s * KeySet(keys, j) == before;
      }
    }
  }

  /** Every member of a subset of the keys is counted exactly once. */
  lemma CountInSubset(keys: seq<Page>, s: set<Page>)
    requires Distinct(keys) && (forall p :: p in s ==> p in keys)
    ensures CountIn(keys, s, |keys|) == |s|
  {
    CountInIsCardinality(keys, s, |keys|);
    assert s * KeySet(keys, |keys|) == s;
  }

  /** A duplicate-free enumeration is as long as the set it enumerates. */
  lemma DistinctLength(keys: seq<Page>, s: set<Page>)
    requires Distinct(keys) && (forall p :: p in keys <==> p in s)
    ensures |keys| == |s|
  {
    CountInSubset(keys, s);
    assert CountIn(keys, s, |keys|) == |keys| by {
      CountAll(keys, s, |keys|);
    }
  }

  lemma {:induction false} CountAll(keys: seq<Page>, s: set<Page>, j: nat)
    requires j <= |keys| && (forall i :: 0 <= i < |keys| ==> keys[i] in s)
    ensures CountIn(keys, s, j) == j
  {
    if j > 0 {
      CountAll(keys, s, j - 1);
    }
  }
}
