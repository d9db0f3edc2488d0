# PageRank engine of pagerank.py, in Dafny

This project models the three PageRank functions of `pagerank.py` and proves
what they compute.

- **`transition_model`** gives the next-page distribution of a random surfer.
- **`sample_pagerank`** estimates ranks by walking that Markov chain and
  counting visits.
- **`iterate_pagerank`** computes ranks by updating them in place, one page at
  a time, until N consecutive updates are stable.

Modules:

- `PageGraph` (graph.dfy) holds the corpus, the errors and sums in key order.
  A corpus is the crawler's dictionary from each page to the set of pages it
  links to. `pages` is the dictionary's key order, which fixes every
  enumeration the code does.
  - `Ordered` says that order lists each key once.
  - `Crawled` states what the crawler guarantees: links stay inside the corpus
    and no page links to itself.
- `Transition` (transition.dfy) holds `transition_model`. It is a pure
  function. The shares go through `Part(whole, n) = (1/n) * whole`, as the
  source computes them.
- `Sampling` (sampling.dfy) holds `sample_pagerank`, as imperative methods
  checked against specification functions:
  - `Walk` and `PageAt` give the pages visited.
  - `Selection` is the inverse-CDF choice.
  - `VisitCounts` and `SampledRanks` give the output.
- `Iteration` (iteration.dfy) holds `iterate_pagerank`. It is a set-up
  method (the reverse-link index) and an update loop, checked against the
  ghost state machine `After` (the state after k updates) and `Stop` (the
  first state whose counter reached N).
- `RankMass` (mass.dfy) is about the totals of `iterate_pagerank`'s update
  rule. It proves that, on a corpus where every page has a link, one sweep
  passes on exactly d times the total rank, so ranks that no update changes
  sum to 1. It also exhibits a corpus with a page without links whose fixed
  point sums to less than 1 (in `Iteration`).

Randomness is explicit. `start` is the index `random.choice` returns, and
`rs` holds the successive values of `random.random()`. Floats are `real`, so
"sums to 1" is an exact equality.

## Model

| member | source | states |
|---|---|---|
| Transition.TransitionModel | pagerank.py:51-76 | Fails with KeyError exactly when the page is not in the corpus. Otherwise its keys are exactly the corpus pages, and each value is the teleport share, plus the follow share when the page links to the key. |
| Transition.TransitionValues | pagerank.py:64-75 | A page without links gives every page exactly 1/N, whatever the damping factor. Otherwise every page gets (1-d)/N, and each of the k linked pages gets d/k on top. |
| Transition.TransitionSumsToOne | pagerank.py:60-76 | On a crawled corpus the distribution covers every page, and its values add up to exactly 1 over the corpus order, for every damping factor. |
| Transition.TransitionIsProbability | pagerank.py:64-75 | With d in [0, 1], every value lies in [0, 1]. With d < 1 every value is positive. |
| Transition.DanglingPageIsUniform | pagerank.py:67-69 | A concrete page without links: each of three pages gets 1/3 for any damping factor. |
| Transition.SampleCorpusFromPageOne | test.py:4-8 | On test.py's corpus, page 1 with d = 0.85 gives exactly {1: 0.05, 2: 0.475, 3: 0.475}. |
| Sampling.Selection | pagerank.py:106-110 | The index the cumulative-sum search selects is a valid index of the key order. |
| Sampling.SelectionIsFirstAbove | pagerank.py:106-110 | The selected key is the first whose running sum exceeds r. No key is selected only when no running sum exceeds r. |
| Sampling.SelectNext | pagerank.py:92-110 | The loop accumulating `prob_count` returns the key `Selection` picks. When there is none, it returns the current page. |
| Sampling.SelectionAlwaysMade | pagerank.py:106-110 | With r < 1 and a distribution adding up to 1, some key is always selected, so the current page is never kept by default. |
| Sampling.SelectedIsPossible | pagerank.py:106-110 | With r >= 0, the selected key has a positive probability. |
| Sampling.NextPageFollowsModel | pagerank.py:100-110 | On a crawled corpus with r in [0, 1), a key is selected, and the next page has positive probability in the current page's transition model. |
| Sampling.Transitions | pagerank.py:100-104 | Every page's distribution covers the corpus order, and every page of the order is a key. |
| Sampling.NextPage | pagerank.py:106-110 | The surfer's next page is a page of the corpus. |
| Sampling.PageAt | pagerank.py:88-110 | The page after any number of steps is a page of the corpus. |
| Sampling.Walk | pagerank.py:91-98 | The walk of k steps visits k pages. |
| Sampling.WalkVisits | pagerank.py:91-110 | The i-th page of the walk is the page reached after i steps, and it is a page of the corpus. |
| Sampling.VisitCounts | pagerank.py:95-98 | A page has a count exactly when it was visited, and every count lies between 1 and the walk's length. |
| Sampling.CountStep | pagerank.py:95-98 | One more visit adds one to that page's count, or records it with 1 on its first visit. No other count changes. |
| Sampling.VisitCountsSumToSteps | pagerank.py:95-98 | Summed over a duplicate-free order of the pages, the visit counts add up to the number of visits. |
| Sampling.WalkCountsSumToSteps | pagerank.py:91-98 | The counts of a walk of k pages, summed over the corpus, add up to k. |
| Sampling.SampledRanks | pagerank.py:112-114 | The output has a key exactly for each visited page, and every value lies in (0, 1]. |
| Sampling.SampledRanksSumToOne | pagerank.py:112-114 | Over the visited pages, the sampled ranks add up to exactly 1. |
| Sampling.SingleSample | pagerank.py:88-114 | With a single sample, the start page gets rank 1 and no other page is ranked. |
| Sampling.Distribution | pagerank.py:100-104 | The distribution used is the page's transition model, whether cached or computed. A cache entry is added only on the first visit, and every cached entry is correct. |
| Sampling.CountVisits | pagerank.py:91-110 | The loop's counts are the visit counts of the walk through the chain of transition models, driven by `rs`. |
| Sampling.VisitShares | pagerank.py:112-114 | The output has a key exactly for each counted page, with value count / n. |
| Sampling.SamplePageRank | pagerank.py:79-116 | IndexError for an empty corpus. Otherwise, the sampled ranks of the walk of max(n, 0) pages from `pages[start]`. |
| Iteration.InitialRanks | pagerank.py:128-133 | Every page of the corpus, and nothing else, starts at 1/N. |
| Iteration.AddReferrer | pagerank.py:134-138 | After the inner loop, the page is recorded under exactly the pages it links to, and every other entry is unchanged. |
| Iteration.BuildIndex | pagerank.py:128-138 | The set-up returns the initial ranks and an index in which p is listed under q exactly when p links to q. |
| Iteration.IndexIsReferrers | pagerank.py:131-138 | The index entry of a page is the set of pages linking to it. A page nobody links to has no entry. |
| Iteration.FallbackNeverTaken | pagerank.py:149 | Every page in the index has at least one link, so `or page_count` never supplies the divisor. |
| Iteration.DanglingContributesNothing | pagerank.py:134-138 | A page without links is in no page's index entry, so its rank is never passed on. |
| Iteration.InboundSumRemove | pagerank.py:148-149 | The sum over the referrers does not depend on the order in which the set is walked. |
| Iteration.ReferencesSum | pagerank.py:146-149 | The inner loop adds up d * rank / outdegree over the referrers, in any order. |
| Iteration.UnreferencedGetsTeleportOnly | pagerank.py:150-152 | A page nobody links to gets exactly (1-d)/N (corrected behaviour). |
| Iteration.AsWrittenAgreesWhenReferred | pagerank.py:147-152 | For a page somebody links to, the code as written and the corrected update agree. |
| Iteration.SampleCorpusRaisesNameError | pagerank.py:150-151 | On test.py's corpus, the first update is for page 1, which has no referrer. Reading `reference_page` there raises NameError. The corrected update gives 0.05. |
| Iteration.NewRank | pagerank.py:146-152 | The corrected update of one page: with d and every rank non-negative, it is at least the teleport term (1-d)/N. |
| Iteration.NewRankAsWritten | pagerank.py:146-151 | The update as written fails, with NameError, exactly when nobody links to the page and no inner loop has run yet to bind `reference_page`. |
| Iteration.StaleCorpusFirstUpdate | pagerank.py:143-158 | In the corpus A→B, B→A, C→A, the first update is for A, and it sets A's rank to (1+d)/3. |
| Iteration.StaleCorpusSecondUpdate | pagerank.py:143-158 | The second update is for B, and it leaves A's rank at (1+d)/3. |
| Iteration.StaleReadCounterexample | pagerank.py:145-152 | In that corpus the third update is for C, which nobody links to, while B's update has left `reference_page` = A. As written, C gets (1-d)/3 + d(1+d)/9. The corrected update gives (1-d)/3, which is strictly less whenever d > 0. |
| Iteration.DanglingPageLeaksRank | pagerank.py:124-152 | In the corpus A→{}, B→{A, C}, C→{B} with d = 1/2, every page has a referrer, and the ranks A = C = 5/21, B = 2/7 are left unchanged by every update. They sum to 16/21, not to the 1 the docstring promises, because A never passes its rank on. |
| Iteration.PositionIsModulo | pagerank.py:145 | The position in the cycle of the k-th update is k mod N. |
| Iteration.Step | pagerank.py:145-159 | An update keeps a rank for every page and counts one more update. |
| Iteration.StepChangesOnlyCurrent | pagerank.py:152-158 | An update sets the current page's rank to (1-d)/N plus the referrers' contributions. Every other rank and the key set stay unchanged. |
| Iteration.After | pagerank.py:143-159 | After k updates, every page has a rank, the update count is k, and the stable counter is at most k. |
| Iteration.RanksAreExactlyCorpus | pagerank.py:128-158 | After any number of updates, the ranks are those of exactly the corpus pages. |
| Iteration.StableStep | pagerank.py:154-157 | The counter goes up by one after an update that moved its page by at most 0.001, and drops to 0 after any other. |
| Iteration.ConvergenceWindow | pagerank.py:154-157 | Each of the last `stable` updates moved its page's rank by at most 0.001. |
| Iteration.Iterated | pagerank.py:143-161 | ZeroDivisionError exactly for an empty corpus. Any other failure is NotConverged. Returned ranks are those of exactly the corpus pages. |
| Iteration.IteratedConverged | pagerank.py:143-161 | When ranks are returned, they cover exactly the corpus, at least N updates were made within the budget, and each of the last N changed a rank by at most 0.001. Otherwise the result is NotConverged. |
| Iteration.EveryPageStable | pagerank.py:144-145 | The last N updates before the return cover every page once, each changing it by at most 0.001. |
| Iteration.RanksStayPositive | pagerank.py:152-158 | With d in [0, 1), every rank stays positive through any number of updates. |
| Iteration.Update | pagerank.py:145-159 | One pass of the loop body performs exactly one step of the state machine. |
| Iteration.IteratePageRank | pagerank.py:119-161 | ZeroDivisionError for an empty corpus. Otherwise, the ranks of the first state whose counter reached N, or NotConverged when the update budget runs out first. |
| RankMass.MassConserved | pagerank.py:146-152 | On a crawled corpus where every page has a link, the contributions all pages receive in one sweep add up to exactly d times the total rank. |
| RankMass.FixedPointSumsToOne | pagerank.py:124-126 | On a crawled corpus where every page has a link, ranks that no update changes sum to exactly 1, for every damping factor other than 1. |

## Left out

- `crawl` reads files and is not modelled. What it guarantees becomes the
  `Crawled` precondition: links stay inside the corpus and no page links to
  itself.
- `main` is command-line plumbing and is not modelled: argument check,
  sorting and printing.
- The `random` module is not modelled. `random.choice` becomes the index
  `start`, and `random.random()` becomes the sequence `rs`. Nothing
  statistical is claimed, such as convergence of the sample to the
  stationary distribution.
- Floating-point rounding is not modelled; numbers are exact reals. In the
  code, the "no key selected" branch of `sample_pagerank` can only be
  reached through rounding. With exact reals and r < 1 a key is always
  selected (`Sampling.SelectionAlwaysMade`).
- The `while True` of `iterate_pagerank` need not terminate. The model adds a
  budget, `maxSteps` updates, and returns NotConverged when it runs out.
  Nothing is claimed about whether the iteration converges.
- Python's set iteration order is not modelled. The inner loops of the
  index build and of the reference sum take elements in any order. Over
  exact reals the sum does not depend on that order
  (`Iteration.InboundSumRemove`).
- The number of pages N is `len(corpus)`. `Transition` takes it as the
  number of keys of the corpus map. `Sampling` and `Iteration` take it as
  the length of the key order. Under `Ordered` the two are equal
  (`PageGraph.DistinctLength`).
- Where the documentation and the code disagree, the model follows the code.
  - **Pages without links.** The documentation says such a page spreads its
    rank over the whole corpus during the iterative update. In the code it is
    never in the reverse index, so it contributes nothing
    (`Iteration.DanglingContributesNothing`), and the `or page_count` fallback
    is dead code (`Iteration.FallbackNeverTaken`).
  - **The threshold.** It is the constant 0.001, as in the code, not a
    parameter.
  - **Fewer than one sample.** The documentation says sampling needs at
    least one sample. For n < 1 the code skips the loop and returns an
    empty dictionary. `Sampling.SamplePageRank` does the same: its walk has
    max(n, 0) pages.
- Iteration.IteratePageRank: the docstring's promise that the returned
  ranks lie in [0, 1] and sum to 1 is not claimed. The code does not keep
  it.
  - A page without links passes nothing on, so rank leaks.
    `Iteration.DanglingPageLeaksRank` gives ranks that no update changes
    and that sum to 16/21.
  - Updates in place can carry the total above 1 during the run. In the
    corpus of `Iteration.StaleCorpusFirstUpdate`, A's first update makes
    the total 1 + d/3.
  - What is proved is the case without such pages:
    `RankMass.FixedPointSumsToOne` shows that exact fixed points of the
    update sum to 1 there. The loop stops at an approximate fixed point
    (each change at most 0.001), and floating-point error is not modelled,
    so the returned ranks are not claimed to sum to 1 even then.
- Sampling.Selection, Sampling.NextPage, Sampling.PageAt and Sampling.Walk only
  state range facts in their own contracts. What they select is stated by
  `Sampling.SelectionIsFirstAbove`, `Sampling.WalkVisits` and the methods
  proved against them.

## Findings

| source | as written | input that shows it | evidently intended | confidence | as-written member | corrected member |
|---|---|---|---|---|---|---|
| pagerank.py:150-151 | A page nobody links to adds `damping_factor * page_ranks[reference_page] / page_count`. `reference_page` is whatever the last inner loop left behind, and it is unbound if no inner loop has run yet. | test.py's corpus `{1: {2, 3}, 2: {3}, 3: {2}}`: the first update is for page 1, no page links to it, and no inner loop has run, so the update raises NameError. | Such a page gets no contribution, so its rank is (1-d)/N (0.05 here). | not executed | Iteration.SampleCorpusRaisesNameError | Iteration.UnreferencedGetsTeleportOnly |
| pagerank.py:150-151 | Same stale read, once some inner loop has run. | Pages A, B, C with A→B, B→A, C→A. The third update is for C, which nobody links to. A's rank is (1+d)/3 after its own update, and B's update has just left `reference_page` = A. So C gets (1-d)/3 + d(1+d)/9 instead of (1-d)/3, which is 0.25 instead of 1/6 at d = 1/2. | Zero contribution for C. | not executed | Iteration.StaleReadCounterexample | Iteration.UnreferencedGetsTeleportOnly |

The code as written is modelled by `Iteration.NewRankAsWritten`. The
iteration itself (`Iteration.NewRank`, `Iteration.Step` and
`Iteration.IteratePageRank`) uses the corrected update.
