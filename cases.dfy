/**
 * Case records as the analytics read them, their normalisation from the
 * case service's objects, and the cache-aside lookup that keeps one user's
 * normalised list in the shared cache for 30 seconds.
 */
module Cases {
  import opened Wrappers
  import opened Cache

  /** One value under `detector_breakdown`: a mapping that may carry a `score`, or any value that is not a mapping. */
  datatype Detector = DetectorDict(score: Option<int>) | NotADict

  /**
   * A case's `signals` mapping: its `detector_breakdown` entries, in the
   * mapping's own order, when that key is present, and how many other keys
   * the mapping holds.
   */
  datatype Signals = Signals(detectorBreakdown: Option<seq<(string, Detector)>>, otherKeys: nat)

  /** A case as the case service lists it; `extra` stands for the attributes the analytics never read. */
  datatype SourceCase = SourceCase(caseId: string, status: string, riskScore: Option<int>,
                                   signals: Option<Signals>, createdAt: string, extra: map<string, string>)

  /** The five-field record the aggregations work on. */
  datatype CaseRecord = CaseRecord(caseId: string, status: string, riskScore: Option<int>,
                                   signals: Option<Signals>, createdAt: string)

  /** What the case service's `list_cases` produced: the cases, or the domain error it raised. */
  datatype Fetch = Fetched(cases: seq<SourceCase>) | Failed(error: string)

  /** Seconds a user's normalised case list stays in the cache. */
  const CacheTtl: int := 30

  /** The cache key of one user's case list. */
  function CacheKey(userId: string): string {
    "cases:" + userId
  }

  /** `r` holds exactly the five fields the analytics read, copied from `c`. */
  predicate Carries(r: CaseRecord, c: SourceCase) {
    && r.caseId == c.caseId
    && r.status == c.status
    && r.riskScore == c.riskScore
    && r.signals == c.signals
    && r.createdAt == c.createdAt
  }

  /** The list comprehension that turns the service's cases into records, one for one and in order. */
  function Normalize(cases: seq<SourceCase>): (records: seq<CaseRecord>)
    ensures |records| == |cases|
    ensures forall i :: 0 <= i < |cases| ==> Carries(records[i], cases[i])
  {
    if cases == [] then []
    else
      var c := cases[0];
      [CaseRecord(c.caseId, c.status, c.riskScore, c.signals, c.createdAt)] + Normalize(cases[1..])
  }

  /**
   * Returns the cached list under `"cases:" + userId` if it is still fresh at
   * `getTime`; otherwise takes the service's answer, normalises it, stores it
   * for 30 seconds from `setTime` (the instant the store happens, after the
   * service has answered) and returns it. A service error is passed on and
   * nothing is stored.
   */
  method GetCasesCached(cache: SimpleCache<seq<CaseRecord>>, userId: string, source: Fetch,
                        getTime: real, setTime: real)
    returns (r: Result<seq<CaseRecord>, string>)
    modifies cache
    ensures var key := CacheKey(userId);
      match Lookup(old(cache.entries), key, getTime)
      case Some(hit) =>
        r == Success(hit) && cache.entries == old(cache.entries)
      case None =>
        match source
        case Failed(e) =>
          r == Failure(e) && cache.entries == AfterGet(old(cache.entries), key, getTime)
        case Fetched(cases) =>
          r == Success(Normalize(cases))
          && cache.entries == Store(old(cache.entries), key, Normalize(cases), CacheTtl, setTime)
  {
    var key := CacheKey(userId);
    var cached := cache.Get(key, getTime);
    if cached.Some? {
      return Success(cached.value);
    }
    match source
    case Failed(e) =>
      return Failure(e);
    case Fetched(cases) =>
      var records := Normalize(cases);
      cache.Set(key, records, CacheTtl, setTime);
      return Success(records);
  }

  /** Two users never share a cache key, so one user's invalidation leaves another's list alone. */
  lemma CacheKeysDistinct(u1: string, u2: string)
    requires u1 != u2
    ensures CacheKey(u1) != CacheKey(u2)
  {
    assert CacheKey(u1)[6..] == u1;
    assert CacheKey(u2)[6..] == u2;
  }

  /** A list stored on a miss is served unchanged by every later lookup within its 30 seconds. */
  lemma StoredListServedWithinTtl(m: map<string, Entry<seq<CaseRecord>>>, userId: string,
                                  records: seq<CaseRecord>, setTime: real, now: real)
    requires setTime <= now <= setTime + CacheTtl as real
    ensures Lookup(Store(m, CacheKey(userId), records, CacheTtl, setTime), CacheKey(userId), now) == Some(records)
  {
  }

  /**
   * After a case is uploaded or queued for analysis the user's key is
   * invalidated: the next lookup misses whatever was cached, and every other
   * user's entry is kept.
   */
  lemma InvalidationForcesRefetch(m: map<string, Entry<seq<CaseRecord>>>, userId: string, other: string, now: real)
    requires other != userId
    ensures Lookup(m - {CacheKey(userId)}, CacheKey(userId), now) == None
    ensures Lookup(m - {CacheKey(userId)}, CacheKey(other), now) == Lookup(m, CacheKey(other), now)
  {
    CacheKeysDistinct(userId, other);
  }

  /** `invalidate_prefix("cases:")` drops every user's case list and no other key. */
  lemma InvalidateAllCaseLists<V>(m: map<string, Entry<V>>, userId: string, k: string)
    ensures CacheKey(userId) !in RemovePrefix(m, "cases:")
    ensures k in m && !HasPrefix(k, "cases:") ==> k in RemovePrefix(m, "cases:")
  {
    assert HasPrefix(CacheKey(userId), "cases:");
  }
}
