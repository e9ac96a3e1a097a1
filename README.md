# Analytics cache and aggregations — a Dafny model

This project models the part of the fraud-case backend that sits behind the
analytics dashboard:

- the in-memory TTL cache `SimpleCache` (`backend/app/core/cache.py`),
  with lazy expiry on read, exact-key and prefix invalidation, and `clear`;
- the cache-aside lookup `_get_cases_cached`, which serves a user's case list
  from the cache under `"cases:" + user_id`, or fetches it, normalises it into
  five-field records and stores it for 30 seconds;
- the two aggregation bodies that work over that list:
  - the risk distribution: four threshold buckets, plus the count, mean,
    minimum and maximum of the counted scores;
  - the signal breakdown: per-detector triggered count, maximum score, mean
    score and up to ten sample case ids, sorted by triggered count.

The wall clock is an explicit `now: real` parameter. The case service is an
input: `Fetched(cases)` or `Failed(error)`.

Modules:

- `Wrappers`: `Option` and `Result`.
- `Cache`: entries, map-level specification functions, and the class
  `SimpleCache` whose methods update its `entries` map in place.
- `Cases`: record types, normalisation, and `GetCasesCached`.
- `SeqMath`: sum, minimum, maximum and mean bounds.
- `RiskDistribution`: the risk-distribution handler body.
- `SignalBreakdown`: the signal-breakdown handler body.

Each handler body is a method with the source's loops. It is proved equal to a
specification function (`ReportOf`, `SignalBreakdownOf`), and the lemmas state
what that function promises.

In these points the model follows the code exactly:

- expiry is strict, so an entry is still served at exactly its expiry instant;
- `set` does not check that the TTL is positive;
- the buckets are total over every integer score, not only over [0, 100];
- a case counts for the signal breakdown when its `signals` mapping is
  non-empty, even if it has no `detector_breakdown` key;
- only non-mapping detector entries are skipped.

## Model

| member | source | states |
|---|---|---|
| Cache.SimpleCache.constructor | backend/app/core/cache.py:21-22 | a new cache holds no entries |
| Cache.SimpleCache.Get | backend/app/core/cache.py:24-32 | returns the value only when the key is present and `now` is not past its expiry; deletes the key exactly when it is present and expired; otherwise the map is unchanged |
| Cache.SimpleCache.Set | backend/app/core/cache.py:34-39 | the key now maps to the value with expiry `now + ttl`; every other entry is unchanged |
| Cache.SimpleCache.Invalidate | backend/app/core/cache.py:41-43 | the map loses exactly that key, whether or not it was present |
| Cache.SimpleCache.InvalidatePrefix | backend/app/core/cache.py:45-49 | deleting the collected keys one at a time leaves exactly the entries whose key does not start with the prefix |
| Cache.SimpleCache.Clear | backend/app/core/cache.py:51-53 | the map is empty afterwards |
| Cache.SetThenGet | backend/app/core/cache.py:24-39 | after a `set` with TTL ≥ 0, a `get` at the same instant returns the value and deletes nothing |
| Cache.GetPastExpiry | backend/app/core/cache.py:29-31 | a `get` past the expiry returns nothing, removes that key only, and keeps every other entry unchanged |
| Cache.ExpiredStaysAbsent | backend/app/core/cache.py:29-31 | once a `get` has dropped a stale entry, no later `get` finds it |
| Cache.GetAtExpiryInstant | backend/app/core/cache.py:29 | at exactly the expiry instant the entry is still returned and kept, because the test is strict |
| Cache.GetMissing | backend/app/core/cache.py:26-28 | a `get` of a missing key returns nothing and changes nothing |
| Cache.SetLastWriterWins | backend/app/core/cache.py:36-39 | a second `set` of a key replaces the first; `set` adds only its own key and keeps every other entry |
| Cache.InvalidateProperties | backend/app/core/cache.py:41-43 | after `invalidate` the key is unreadable; it is a no-op on a missing key; it is idempotent; it keeps every other entry |
| Cache.RemovePrefixExact | backend/app/core/cache.py:45-49 | a key survives `invalidate_prefix` if and only if it was present and does not start with the prefix, and survivors keep their entries |
| Cases.Normalize | backend/app/api/routes/analytics.py:33-42 | same length and order; each record carries its source case's id, status, risk score, signals and creation time |
| Cases.GetCasesCached | backend/app/api/routes/analytics.py:25-44 | on a hit returns the cached list and leaves the cache as it was; on a miss returns the normalised list and stores it under `"cases:" + user_id` for 30 seconds; a failing source is passed on and nothing is stored |
| Cases.CacheKeysDistinct | backend/app/api/routes/analytics.py:27 | different users never share a cache key |
| Cases.StoredListServedWithinTtl | backend/app/api/routes/analytics.py:22-44 | a list stored on a miss is served unchanged by every lookup within the next 30 seconds |
| Cases.InvalidationForcesRefetch | backend/app/api/routes/cases.py:50 | after a user's key is invalidated, the user's next lookup misses, and every other user's lookup is unaffected |
| Cases.InvalidateAllCaseLists | backend/app/core/cache.py:45-49 | `invalidate_prefix("cases:")` drops every user's case list and keeps every key outside that prefix |
| SeqMath.MinOf | backend/app/api/routes/analytics.py:104 | the minimum is one of the scores and is at most each of them |
| SeqMath.MaxOf | backend/app/api/routes/analytics.py:105 | the maximum is one of the scores and is at least each of them |
| SeqMath.MeanBetweenMinAndMax | backend/app/api/routes/analytics.py:103-105 | the mean of a non-empty score list lies between its minimum and maximum |
| RiskDistribution.BucketsPartitionScores | backend/app/api/routes/analytics.py:91-98 | the threshold chain puts each integer score in the one bucket whose range holds it: below 25 low, 25–49 medium, 50–74 high, 75 and above critical |
| RiskDistribution.GetRiskDistribution | backend/app/api/routes/analytics.py:85-106 | the loop over the cases yields the specified report: bucket counts of the counted scores, their count, and their mean, minimum and maximum (all 0 when none) |
| RiskDistribution.CountedScoresExact | backend/app/api/routes/analytics.py:88-90 | a score is collected if and only if some analyzed case with that risk score exists; there are never more scores than cases |
| RiskDistribution.OneCaseOneBucket | backend/app/api/routes/analytics.py:89-98 | an analyzed, scored case adds exactly one to its own bucket and nothing to the others |
| RiskDistribution.UncountedCaseIgnored | backend/app/api/routes/analytics.py:89 | a case that is not analyzed or has no score leaves the whole report unchanged |
| RiskDistribution.ClassifyCountsRange | backend/app/api/routes/analytics.py:91-98 | each bucket's count is the number of counted scores in that bucket's range |
| RiskDistribution.BucketsSumToTotal | backend/app/api/routes/analytics.py:85-102 | low + medium + high + critical equals `total_analyzed`, and each bucket counts exactly its range |
| RiskDistribution.ReportStatistics | backend/app/api/routes/analytics.py:100-105 | with no counted case everything is 0; otherwise the minimum and maximum are scores of counted cases, every counted score lies between them, and the mean lies between them too |
| RiskDistribution.ExampleScores | backend/app/api/routes/analytics.py:88-90 | of scores 10 and 80 analyzed and 90 pending, only 10 and 80 are collected |
| RiskDistribution.ExampleReport | backend/app/api/routes/analytics.py:85-106 | scores 10 and 80 analyzed and 90 pending give one low, one critical, total 2, mean 45, minimum 10 and maximum 80 |
| SignalBreakdown.AccumulateWellFormed | backend/app/api/routes/analytics.py:138-145 | `signal_stats` lists each detector it holds exactly once |
| SignalBreakdown.ObserveEntry | backend/app/api/routes/analytics.py:136-153 | one mapping-valued entry registers its detector if new and, when its score is positive, adds one trigger, its score, a raised maximum and (while fewer than ten) its case id |
| SignalBreakdown.TallyCases | backend/app/api/routes/analytics.py:126-153 | the loop over the cases leaves `signal_stats` equal to the statistics of every observation of every considered case, in order |
| SignalBreakdown.FinishAll | backend/app/api/routes/analytics.py:155-163 | each detector's entry gets the mean of its triggering scores (0 when it never triggered), and its total is dropped |
| SignalBreakdown.TallyEntries | backend/app/api/routes/analytics.py:132-153 | the inner loop over one case's detector entries advances the statistics by exactly that case's observations |
| SignalBreakdown.GetSignalBreakdown | backend/app/api/routes/analytics.py:124-170 | the nested loops, the averaging loop and the sort yield the specified breakdown |
| SignalBreakdown.SortByCountDesc | backend/app/api/routes/analytics.py:166-170 | the result is a permutation of its input, ordered by triggered count from highest to lowest, with equal counts in their input order (stable) |
| SignalBreakdown.AccumulateSeen | backend/app/api/routes/analytics.py:127-145 | a detector has statistics if and only if it occurs in a mapping entry of an analyzed case with signals, even when it never triggers |
| SignalBreakdown.AccumulateTallies | backend/app/api/routes/analytics.py:136-153 | each detector's count, total, maximum and sample are those of its observations with a positive score (a missing score counts as 0), and the sample is the first ten of their case ids |
| SignalBreakdown.AccumulateOrder | backend/app/api/routes/analytics.py:138-145 | detectors are registered in the order in which they are first met |
| SignalBreakdown.TriggeringExact | backend/app/api/routes/analytics.py:147 | a detector's triggering observations are exactly its observations with a positive score |
| SignalBreakdown.BreakdownEntriesExact | backend/app/api/routes/analytics.py:124-163 | each entry of the answer is a detector that occurs, carrying the exact count, maximum, mean and sample of its triggering observations |
| SignalBreakdown.BreakdownCoversSeen | backend/app/api/routes/analytics.py:127-145 | every detector that occurs has an entry in the answer |
| SignalBreakdown.BreakdownNamesDistinct | backend/app/api/routes/analytics.py:138-145 | no detector has two entries in the answer |
| SignalBreakdown.BreakdownOrdered | backend/app/api/routes/analytics.py:165-170 | the answer runs from the highest triggered count down, and detectors with equal counts appear in first-seen order |
| SignalBreakdown.DescribedBounds | backend/app/api/routes/analytics.py:147-162 | the sample holds min(count, 10) case ids; the maximum is at least every triggering score; a never-triggered detector has count, maximum and mean 0 and no sample; a triggered one has 0 < mean ≤ maximum |
| SignalBreakdown.ExampleBreakdown | backend/app/api/routes/analytics.py:124-170 | detector `d1` scoring 5, 5 and 0 in three analyzed cases gives one entry with count 2, maximum 5, mean 5 and sample `c1`, `c2` |

## Left out

- Rounding: `round(x, 1)` of the average score and of each detector's average is floating-point. The model states the exact mean, sum over count, as a real number.
- Scores are integers. Float risk and detector scores are not modelled.
- The wall clock is an explicit parameter. `GetCasesCached` takes two instants because the source reads the clock again after awaiting the case service.
- Thread safety, claimed by the class comment, is not modelled. There is no lock, and concurrency is outside the model.
- The `cached` decorator (backend/app/core/cache.py:60-88) is not modelled. It is an async higher-order wrapper keyed by function name and keyword arguments.
- The module-level `analytics_cache` instance is not modelled as shared state. Callers pass the cache object explicitly.
- The case service `list_cases()` is not modelled. It is an input: a list of source cases, or a domain error.
- HTTP routing, authentication, and the mapping of errors to status 400/500 are not modelled.
- `compute_analytics_summary` and the summary endpoint are not part of this model. Their code lives in a service module that is not available.
- Inputs that make the source raise are excluded by the types:
  - a `signals` or `detector_breakdown` value that is not a mapping;
  - a score that is `None` or not a number.
- A source case's fields other than the five copied ones are modelled only as an opaque string map.
- The shape of `signals` beyond `detector_breakdown` is modelled only as the number of other keys, which decides its truthiness.
- `Cases.InvalidationForcesRefetch` models the route's single `invalidate` call (backend/app/api/routes/cases.py:50 and 86). The upload and analysis handlers around it are not modelled.
- Cache hits assume the stored value is never Python's `None`. The cached lists are never `None`, so the `is not None` test is a plain presence test here.
