/**
 * The per-detector signal breakdown over a user's cases: for every detector
 * named in an analyzed case's `detector_breakdown`, how often it triggered
 * (score above zero), its highest and mean triggering score, and the first
 * ten cases that triggered it; the detectors listed by triggered count,
 * highest first, ties in the order the detectors were first met.
 */
module SignalBreakdown {
  import opened Wrappers
  import opened Cases
  import opened SeqMath

  /** At most this many case ids are kept per detector. */
  const MaxSampleIds: nat := 10

  // ---------------------------------------------------------------------
  // What the walk over the cases meets
  // ---------------------------------------------------------------------

  /** One mapping-valued detector entry met in a considered case: its detector, its score (0 when missing) and the case. */
  datatype Observation = Observation(detector: string, score: int, caseId: string)

  /** The truthiness of `case.get("signals")`: present and not an empty mapping. */
  predicate HasSignals(c: CaseRecord) {
    c.signals.Some? && (c.signals.value.detectorBreakdown.Some? || c.signals.value.otherKeys > 0)
  }

  /** A case is looked into when it is analyzed and has signals. */
  predicate Considered(c: CaseRecord) {
    c.status == "analyzed" && HasSignals(c)
  }

  /** `signals.get("detector_breakdown", {})`. */
  function BreakdownEntries(s: Signals): seq<(string, Detector)> {
    s.detectorBreakdown.GetOr([])
  }

  /** The observations in one case's breakdown entries; entries that are not mappings are skipped. */
  function EntryObservations(caseId: string, entries: seq<(string, Detector)>): seq<Observation> {
    if entries == [] then []
    else
      var (name, data) := entries[|entries| - 1];
      EntryObservations(caseId, entries[..|entries| - 1])
        + match data
          case NotADict => []
          case DetectorDict(score) => [Observation(name, score.GetOr(0), caseId)]
  }

  /** The observations one case contributes. */
  function CaseObservations(c: CaseRecord): seq<Observation> {
    if Considered(c) then EntryObservations(c.caseId, BreakdownEntries(c.signals.value)) else []
  }

  /** Every observation, case after case and entry after entry. */
  function Observations(cases: seq<CaseRecord>): seq<Observation> {
    if cases == [] then []
    else Observations(cases[..|cases| - 1]) + CaseObservations(cases[|cases| - 1])
  }

  // ---------------------------------------------------------------------
  // The running statistics (`signal_stats`)
  // ---------------------------------------------------------------------

  /** One detector's running statistics. */
  datatype Tally = Tally(triggeredCount: nat, totalScore: int, maxScore: int, caseIds: seq<string>)

  /** `signal_stats`: the detectors in insertion order and their running statistics. */
  datatype Stats = Stats(order: seq<string>, tallies: map<string, Tally>)

  /** The detectors listed are exactly those with statistics, each once. */
  ghost predicate WellFormed(s: Stats) {
    && (forall d :: d in s.tallies <==> d in s.order)
    && (forall i, j :: 0 <= i < j < |s.order| ==> s.order[i] != s.order[j])
  }

  /** A triggering observation: one more trigger, its score added, the maximum raised, its case sampled while fewer than ten are. */
  function Trigger(t: Tally, o: Observation): Tally {
    Tally(t.triggeredCount + 1, t.totalScore + o.score, Max(t.maxScore, o.score),
          if |t.caseIds| < MaxSampleIds then t.caseIds + [o.caseId] else t.caseIds)
  }

  /** One step of the inner loop: register the detector if new, then count the observation if it triggers. */
  function Observe(s: Stats, o: Observation): Stats {
    var seen := if o.detector in s.tallies then s
                else Stats(s.order + [o.detector], s.tallies[o.detector := Tally(0, 0, 0, [])]);
    if o.score > 0 then seen.(tallies := seen.tallies[o.detector := Trigger(seen.tallies[o.detector], o)])
    else seen
  }

  /** The statistics after all of `obs`, starting from an empty `signal_stats`. */
  function Accumulate(obs: seq<Observation>): Stats {
    if obs == [] then Stats([], map[])
    else Observe(Accumulate(obs[..|obs| - 1]), obs[|obs| - 1])
  }

  /** `signal_stats` lists every detector it holds exactly once. */
  lemma {:induction false} AccumulateWellFormed(obs: seq<Observation>)
    ensures WellFormed(Accumulate(obs))
  {
    if obs != [] {
      var prev := Accumulate(obs[..|obs| - 1]);
      AccumulateWellFormed(obs[..|obs| - 1]);
      var o := obs[|obs| - 1];
      assert o.detector !in prev.tallies ==> o.detector !in prev.order;
    }
  }

  // ---------------------------------------------------------------------
  // The finished entries and their order
  // ---------------------------------------------------------------------

  /** One entry of the answer; `avgScore` is the exact mean, before rounding. */
  datatype SignalStat = SignalStat(name: string, triggeredCount: nat, maxScore: int, avgScore: real,
                                   caseIds: seq<string>)

  /** The averaging loop for one detector: mean of the triggering scores, 0 when none; the total is dropped. */
  function Finish(name: string, t: Tally): SignalStat {
    SignalStat(name, t.triggeredCount, t.maxScore,
               if t.triggeredCount > 0 then t.totalScore as real / t.triggeredCount as real else 0.0,
               t.caseIds)
  }

  /** Every detector's finished entry, in insertion order. */
  function Finalize(order: seq<string>, tallies: map<string, Tally>): seq<SignalStat>
    requires forall d :: d in order ==> d in tallies
  {
    seq(|order|, i requires 0 <= i < |order| => Finish(order[i], tallies[order[i]]))
  }

  /** Ordered by triggered count, highest first. */
  ghost predicate SortedDesc(r: seq<SignalStat>) {
    forall i, j :: 0 <= i < j < |r| ==> r[i].triggeredCount >= r[j].triggeredCount
  }

  /** Any two entries of `r` with the same count stand in `s` in the same relative order. */
  ghost predicate KeepsTieOrder(s: seq<SignalStat>, r: seq<SignalStat>) {
    forall i, j :: 0 <= i < j < |r| && r[i].triggeredCount == r[j].triggeredCount ==>
      exists i', j' :: 0 <= i' < j' < |s| && s[i'] == r[i] && s[j'] == r[j]
  }

  /** Where a stable insertion puts `x` into a descending list: after every entry with a higher count. */
  function InsertPos(x: SignalStat, r: seq<SignalStat>): (k: nat)
    ensures k <= |r|
    ensures forall m :: 0 <= m < k ==> r[m].triggeredCount > x.triggeredCount
    ensures k < |r| ==> r[k].triggeredCount <= x.triggeredCount
  {
    if r == [] || x.triggeredCount >= r[0].triggeredCount then 0
    else 1 + InsertPos(x, r[1..])
  }

  /** Inserting `x` in front of every entry with a count no higher keeps a descending list descending. */
  lemma InsertSorted(x: SignalStat, r: seq<SignalStat>)
    requires SortedDesc(r)
    ensures SortedDesc(r[..InsertPos(x, r)] + [x] + r[InsertPos(x, r)..])
  {
    var k := InsertPos(x, r);
    var r' := r[..k] + [x] + r[k..];
    forall i, j | 0 <= i < j < |r'|
      ensures r'[i].triggeredCount >= r'[j].triggeredCount
    {
      if j < k {
        assert r'[i] == r[i] && r'[j] == r[j];
      } else if j == k {
        assert r'[i] == r[i];
      } else if i == k {
        assert r'[j] == r[j - 1];
        assert r[k].triggeredCount <= x.triggeredCount;
      } else if i < k {
        assert r'[i] == r[i] && r'[j] == r[j - 1];
      } else {
        assert r'[i] == r[i - 1] && r'[j] == r[j - 1];
      }
    }
  }

  /**
   * `sorted(stats, key=triggered_count, reverse=True)`, a stable sort:
   * a permutation, highest count first, equal counts in their original order.
   */
  function SortByCountDesc(s: seq<SignalStat>): (r: seq<SignalStat>)
    ensures multiset(r) == multiset(s)
    ensures SortedDesc(r)
    ensures KeepsTieOrder(s, r)
  {
    if s == [] then []
    else
      var rest := SortByCountDesc(s[1..]);
      var k := InsertPos(s[0], rest);
      InsertStep(s, rest, k);
      rest[..k] + [s[0]] + rest[k..]
  }

  /** Inserting the head of `s` into the sorted rest of `s` sorts `s`. */
  lemma InsertStep(s: seq<SignalStat>, rest: seq<SignalStat>, k: nat)
    requires s != [] && multiset(rest) == multiset(s[1..]) && SortedDesc(rest) && KeepsTieOrder(s[1..], rest)
    requires k == InsertPos(s[0], rest)
    ensures multiset(rest[..k] + [s[0]] + rest[k..]) == multiset(s)
    ensures SortedDesc(rest[..k] + [s[0]] + rest[k..])
    ensures KeepsTieOrder(s, rest[..k] + [s[0]] + rest[k..])
  {
    InsertPermutes(s, rest, k);
    InsertSorted(s[0], rest);
    InsertKeepsTieOrder(s, rest, k);
  }

  /** Inserting the head of `s` anywhere into a permutation of the rest of `s` gives a permutation of `s`. */
  lemma InsertPermutes<T>(s: seq<T>, rest: seq<T>, k: nat)
    requires s != [] && multiset(rest) == multiset(s[1..]) && k <= |rest|
    ensures multiset(rest[..k] + [s[0]] + rest[k..]) == multiset(s)
  {
    assert s == [s[0]] + s[1..];
    assert rest == rest[..k] + rest[k..];
    assert multiset(rest[..k] + [s[0]] + rest[k..]) == multiset(rest[..k]) + multiset{s[0]} + multiset(rest[k..]);
  }

  /** The insertion step of the sort keeps equal counts in their original order. */
  lemma InsertKeepsTieOrder(s: seq<SignalStat>, rest: seq<SignalStat>, k: nat)
    requires s != [] && multiset(rest) == multiset(s[1..]) && KeepsTieOrder(s[1..], rest)
    requires k == InsertPos(s[0], rest)
    ensures KeepsTieOrder(s, rest[..k] + [s[0]] + rest[k..])
  {
    var r := rest[..k] + [s[0]] + rest[k..];
    forall p | 0 <= p < k
      ensures r[p].triggeredCount > r[k].triggeredCount
    {
      assert r[p] == rest[p] && r[k] == s[0];
    }
    forall i, j | 0 <= i < j < |r| && r[i].triggeredCount == r[j].triggeredCount
      ensures exists i', j' :: 0 <= i' < j' < |s| && s[i'] == r[i] && s[j'] == r[j]
    {
      assert j != k;
      if i == k {
        TieWithInserted(s, rest, k, j);
      } else {
        var a := if i < k then i else i - 1;
        var b := if j < k then j else j - 1;
        InsertedAt(rest, s[0], k, i);
        InsertedAt(rest, s[0], k, j);
        TieAwayFromInserted(s, rest, a, b);
      }
    }
  }

  /** An entry after the inserted head comes after it in `s` too. */
  lemma TieWithInserted(s: seq<SignalStat>, rest: seq<SignalStat>, k: nat, j: nat)
    requires s != [] && multiset(rest) == multiset(s[1..])
    requires k <= |rest| && k < j <= |rest|
    ensures var r := rest[..k] + [s[0]] + rest[k..];
      exists i', j' :: 0 <= i' < j' < |s| && s[i'] == r[k] && s[j'] == r[j]
  {
    var r := rest[..k] + [s[0]] + rest[k..];
    var t := s[1..];
    assert r[j] == rest[j - 1] && r[k] == s[0];
    assert rest[j - 1] in multiset(t);
    var j' :| 0 <= j' < |t| && t[j'] == rest[j - 1];
    assert s[0] == r[k] && s[j' + 1] == r[j];
  }

  /** Two tied entries of the sorted rest stand in the same order in `s`, after its head. */
  lemma TieAwayFromInserted(s: seq<SignalStat>, rest: seq<SignalStat>, a: nat, b: nat)
    requires s != [] && KeepsTieOrder(s[1..], rest)
    requires a < b < |rest| && rest[a].triggeredCount == rest[b].triggeredCount
    ensures exists i', j' :: 0 <= i' < j' < |s| && s[i'] == rest[a] && s[j'] == rest[b]
  {
    var t := s[1..];
    var i', j' :| 0 <= i' < j' < |t| && t[i'] == rest[a] && t[j'] == rest[b];
    assert s[i' + 1] == rest[a] && s[j' + 1] == rest[b];
  }

  /** What stands at position `i` once `x` is inserted at position `k`. */
  lemma InsertedAt<T>(rest: seq<T>, x: T, k: nat, i: nat)
    requires k <= |rest| && i <= |rest|
    ensures (rest[..k] + [x] + rest[k..])[i] == if i < k then rest[i] else if i == k then x else rest[i - 1]
  {
  }

  /** The whole computation on a user's case list. */
  function SignalBreakdownOf(cases: seq<CaseRecord>): seq<SignalStat> {
    var s := Accumulate(Observations(cases));
    AccumulateWellFormed(Observations(cases));
    SortByCountDesc(Finalize(s.order, s.tallies))
  }

  /** Accumulating one more observation is one more `Observe`. */
  lemma AccumulateStep(obs: seq<Observation>, o: Observation)
    ensures Accumulate(obs + [o]) == Observe(Accumulate(obs), o)
  {
    assert (obs + [o])[..|obs|] == obs;
  }

  /** The observations of the first `i + 1` cases. */
  lemma ObservationsStep(cases: seq<CaseRecord>, i: nat)
    requires i < |cases|
    ensures Observations(cases[..i + 1]) == Observations(cases[..i]) + CaseObservations(cases[i])
  {
    assert cases[..i + 1][..i] == cases[..i];
  }

  /** The observations of the first `j + 1` breakdown entries of a case. */
  lemma EntryObservationsStep(caseId: string, entries: seq<(string, Detector)>, j: nat)
    requires j < |entries|
    ensures EntryObservations(caseId, entries[..j + 1])
            == EntryObservations(caseId, entries[..j])
               + match entries[j].1
                 case NotADict => []
                 case DetectorDict(score) => [Observation(entries[j].0, score.GetOr(0), caseId)]
  {
    assert entries[..j + 1][..j] == entries[..j];
  }

  // ---------------------------------------------------------------------
  // The handler's loops
  // ---------------------------------------------------------------------

  /** The body of the inner loop for one mapping-valued entry: register the detector if new, then count a positive score. */
  method ObserveEntry(order: seq<string>, signalStats: map<string, Tally>, caseId: string,
                      detectorName: string, score: int)
    returns (order': seq<string>, signalStats': map<string, Tally>)
    ensures Stats(order', signalStats') == Observe(Stats(order, signalStats), Observation(detectorName, score, caseId))
  {
    order', signalStats' := order, signalStats;
    if detectorName !in signalStats' {
      order' := order' + [detectorName];
      signalStats' := signalStats'[detectorName := Tally(0, 0, 0, [])];
    }
    if score > 0 {
      var stats := signalStats'[detectorName];
      var caseIds := stats.caseIds;
      if |caseIds| < MaxSampleIds {
        caseIds := caseIds + [caseId];
      }
      signalStats' := signalStats'[detectorName := Tally(stats.triggeredCount + 1, stats.totalScore + score,
                                                        Max(stats.maxScore, score), caseIds)];
    }
  }

  /** The inner loop of the handler: one considered case's breakdown entries, in order. */
  method TallyEntries(order: seq<string>, signalStats: map<string, Tally>, ghost before: seq<Observation>,
                      caseId: string, entries: seq<(string, Detector)>)
    returns (order': seq<string>, signalStats': map<string, Tally>)
    requires Stats(order, signalStats) == Accumulate(before)
    ensures Stats(order', signalStats') == Accumulate(before + EntryObservations(caseId, entries))
  {
    order', signalStats' := order, signalStats;
    ghost var seen := before;
    assert entries[..0] == [];
    for j := 0 to |entries|
      invariant seen == before + EntryObservations(caseId, entries[..j])
      invariant Stats(order', signalStats') == Accumulate(seen)
    {
      var (detectorName, detectorData) := entries[j];
      EntryObservationsStep(caseId, entries, j);
      if detectorData.NotADict? {
        continue;
      }
      var score := detectorData.score.GetOr(0);
      ghost var o := Observation(detectorName, score, caseId);
      AccumulateStep(seen, o);
      order', signalStats' := ObserveEntry(order', signalStats', caseId, detectorName, score);
      seen := seen + [o];
    }
    assert entries[..|entries|] == entries;
  }

  /** The outer loop of the handler: every considered case's breakdown entries, case after case. */
  method TallyCases(cases: seq<CaseRecord>) returns (order: seq<string>, signalStats: map<string, Tally>)
    ensures Stats(order, signalStats) == Accumulate(Observations(cases))
  {
    order, signalStats := [], map[];
    ghost var seen: seq<Observation> := [];
    for i := 0 to |cases|
      invariant seen == Observations(cases[..i])
      invariant Stats(order, signalStats) == Accumulate(seen)
    {
      var c := cases[i];
      ObservationsStep(cases, i);
      if c.status != "analyzed" || !HasSignals(c) {
        continue;
      }
      order, signalStats := TallyEntries(order, signalStats, seen, c.caseId, BreakdownEntries(c.signals.value));
      seen := seen + CaseObservations(c);
    }
    assert cases[..|cases|] == cases;
  }

  /** The averaging loop: each registered detector's entry, its total turned into a mean. */
  method FinishAll(order: seq<string>, signalStats: map<string, Tally>) returns (finished: seq<SignalStat>)
    requires forall d :: d in order ==> d in signalStats
    ensures finished == Finalize(order, signalStats)
  {
    finished := [];
    for k := 0 to |order|
      invariant |finished| == k
      invariant forall m :: 0 <= m < k ==> finished[m] == Finish(order[m], signalStats[order[m]])
    {
      var stats := signalStats[order[k]];
      var avgScore := if stats.triggeredCount > 0 then stats.totalScore as real / stats.triggeredCount as real
                      else 0.0;
      finished := finished + [SignalStat(order[k], stats.triggeredCount, stats.maxScore, avgScore, stats.caseIds)];
    }
  }

  /** The handler body: walk the cases and their detector entries, average, then sort. */
  method GetSignalBreakdown(cases: seq<CaseRecord>) returns (signals: seq<SignalStat>)
    ensures signals == SignalBreakdownOf(cases)
  {
    var order, signalStats := TallyCases(cases);
    AccumulateWellFormed(Observations(cases));
    var finished := FinishAll(order, signalStats);
    signals := SortByCountDesc(finished);
  }

  // ---------------------------------------------------------------------
  // An independent account of each detector's statistics
  // ---------------------------------------------------------------------

  /** Detector `d` occurs among the observations. */
  ghost predicate Seen(obs: seq<Observation>, d: string) {
    exists i :: 0 <= i < |obs| && obs[i].detector == d
  }

  /** The observations that trigger detector `d`, in order. */
  function Triggering(obs: seq<Observation>, d: string): seq<Observation> {
    if obs == [] then []
    else
      var o := obs[|obs| - 1];
      Triggering(obs[..|obs| - 1], d) + (if o.detector == d && o.score > 0 then [o] else [])
  }

  function ScoresOf(os: seq<Observation>): seq<int> {
    if os == [] then [] else ScoresOf(os[..|os| - 1]) + [os[|os| - 1].score]
  }

  function IdsOf(os: seq<Observation>): seq<string> {
    if os == [] then [] else IdsOf(os[..|os| - 1]) + [os[|os| - 1].caseId]
  }

  /**
   * `t` summarises the triggering observations `trig`: their number, the sum
   * and the largest of their scores (0 when there are none) and the case
   * ids of the first ten.
   */
  ghost predicate TallyMatches(t: Tally, trig: seq<Observation>) {
    && t.triggeredCount == |trig|
    && t.totalScore == Sum(ScoresOf(trig))
    && t.maxScore == (if trig == [] then 0 else MaxOf(ScoresOf(trig)))
    && t.caseIds == Take(IdsOf(trig), MaxSampleIds)
  }

  /** One more triggering observation keeps the summary exact. */
  lemma TriggerMatches(t: Tally, trig: seq<Observation>, o: Observation)
    requires TallyMatches(t, trig) && o.score > 0
    ensures TallyMatches(Trigger(t, o), trig + [o])
  {
    var trig' := trig + [o];
    assert trig'[..|trig|] == trig;
    assert ScoresOf(trig') == ScoresOf(trig) + [o.score];
    assert IdsOf(trig') == IdsOf(trig) + [o.caseId];
    var ss := ScoresOf(trig);
    assert (ss + [o.score])[..|ss|] == ss;
    assert |ScoresOf(trig)| == |trig| by { ScoresLength(trig); }
    assert |IdsOf(trig)| == |trig| by { IdsLength(trig); }
  }

  lemma {:induction false} ScoresLength(os: seq<Observation>)
    ensures |ScoresOf(os)| == |os|
  {
    if os != [] {
      ScoresLength(os[..|os| - 1]);
    }
  }

  lemma {:induction false} IdsLength(os: seq<Observation>)
    ensures |IdsOf(os)| == |os|
  {
    if os != [] {
      IdsLength(os[..|os| - 1]);
    }
  }

  /** A detector that never occurs has no triggering observation. */
  lemma {:induction false} TriggeringUnseen(obs: seq<Observation>, d: string)
    requires !Seen(obs, d)
    ensures Triggering(obs, d) == []
  {
    if obs != [] {
      var p := obs[..|obs| - 1];
      forall i | 0 <= i < |p|
        ensures p[i].detector != d
      {
        assert p[i] == obs[i];
      }
      TriggeringUnseen(p, d);
      assert obs[|obs| - 1].detector != d;
    }
  }

  /** A detector occurs in `p + [o]` when it occurs in `p` or is `o`'s. */
  lemma SeenStep(p: seq<Observation>, o: Observation, d: string)
    ensures Seen(p + [o], d) <==> Seen(p, d) || o.detector == d
  {
    var obs := p + [o];
    if Seen(p, d) {
      var i :| 0 <= i < |p| && p[i].detector == d;
      assert obs[i] == p[i];
    }
    if Seen(obs, d) && o.detector != d {
      var i :| 0 <= i < |obs| && obs[i].detector == d;
      assert i < |p| && p[i] == obs[i];
    }
    if o.detector == d {
      assert obs[|p|] == o;
    }
  }

  /** `signal_stats` holds exactly the detectors that occur, seen-but-never-triggered ones included. */
  lemma {:induction false} AccumulateSeen(obs: seq<Observation>)
    ensures forall d :: d in Accumulate(obs).tallies <==> Seen(obs, d)
  {
    if obs != [] {
      var p := obs[..|obs| - 1];
      var o := obs[|obs| - 1];
      assert obs == p + [o];
      AccumulateSeen(p);
      forall d
        ensures d in Accumulate(obs).tallies <==> Seen(obs, d)
      {
        SeenStep(p, o, d);
      }
    }
  }

  /** What one `Observe` does to detector `d`'s statistics. */
  lemma ObserveTally(a: Stats, o: Observation, d: string)
    requires d in Observe(a, o).tallies
    ensures d != o.detector ==> d in a.tallies && Observe(a, o).tallies[d] == a.tallies[d]
    ensures d == o.detector ==>
      var t := if d in a.tallies then a.tallies[d] else Tally(0, 0, 0, []);
      Observe(a, o).tallies[d] == if o.score > 0 then Trigger(t, o) else t
  {
  }

  /** Observing `o` keeps every detector's summary exact. */
  lemma TallyStep(p: seq<Observation>, o: Observation, d: string)
    requires forall d :: d in Accumulate(p).tallies ==> TallyMatches(Accumulate(p).tallies[d], Triggering(p, d))
    requires d in Accumulate(p + [o]).tallies
    ensures TallyMatches(Accumulate(p + [o]).tallies[d], Triggering(p + [o], d))
  {
    var obs := p + [o];
    assert obs[..|p|] == p;
    var a := Accumulate(p);
    assert Accumulate(obs) == Observe(a, o);
    ObserveTally(a, o, d);
    var trig := Triggering(p, d);
    var t' := Accumulate(obs).tallies[d];
    if d == o.detector && o.score > 0 {
      assert Triggering(obs, d) == trig + [o];
      var t := if d in a.tallies then a.tallies[d] else Tally(0, 0, 0, []);
      if d !in a.tallies {
        AccumulateSeen(p);
        TriggeringUnseen(p, d);
        assert TallyMatches(t, trig);
      }
      TriggerMatches(t, trig, o);
      assert t' == Trigger(t, o);
    } else {
      assert Triggering(obs, d) == trig + [] == trig;
      if d != o.detector {
        assert t' == a.tallies[d];
      } else if d in a.tallies {
        assert t' == a.tallies[d];
      } else {
        AccumulateSeen(p);
        TriggeringUnseen(p, d);
        assert t' == Tally(0, 0, 0, []);
      }
    }
  }

  /** Every detector in `signal_stats` holds the exact summary of its triggering observations. */
  lemma {:induction false} AccumulateTallies(obs: seq<Observation>)
    ensures forall d :: d in Accumulate(obs).tallies ==> TallyMatches(Accumulate(obs).tallies[d], Triggering(obs, d))
  {
    if obs != [] {
      var p := obs[..|obs| - 1];
      var o := obs[|obs| - 1];
      assert obs == p + [o];
      AccumulateTallies(p);
      forall d | d in Accumulate(obs).tallies
        ensures TallyMatches(Accumulate(obs).tallies[d], Triggering(obs, d))
      {
        TallyStep(p, o, d);
      }
    }
  }

  // ---------------------------------------------------------------------
  // First-seen order
  // ---------------------------------------------------------------------

  /** Detector `a` occurs somewhere before detector `b` first occurs. */
  ghost predicate SeenBefore(obs: seq<Observation>, a: string, b: string) {
    exists k :: 0 <= k < |obs| && obs[k].detector == a && forall k' :: 0 <= k' <= k ==> obs[k'].detector != b
  }

  /** One `Observe` appends the detector to the order exactly when it is new. */
  lemma ObserveOrder(a: Stats, o: Observation)
    ensures Observe(a, o).order == if o.detector in a.tallies then a.order else a.order + [o.detector]
  {
  }

  /** Observing more keeps an earlier first-seen relation. */
  lemma SeenBeforeExtend(p: seq<Observation>, o: Observation, a: string, b: string)
    requires SeenBefore(p, a, b)
    ensures SeenBefore(p + [o], a, b)
  {
    var k :| 0 <= k < |p| && p[k].detector == a && forall k' :: 0 <= k' <= k ==> p[k'].detector != b;
    var obs := p + [o];
    assert obs[k] == p[k];
    assert forall k' :: 0 <= k' <= k ==> obs[k'] == p[k'];
  }

  /** A detector already seen was seen before one that is new. */
  lemma SeenBeforeNew(p: seq<Observation>, o: Observation, a: string)
    requires Seen(p, a) && !Seen(p, o.detector)
    ensures SeenBefore(p + [o], a, o.detector)
  {
    var k :| 0 <= k < |p| && p[k].detector == a;
    var obs := p + [o];
    assert obs[k] == p[k];
    forall k' | 0 <= k' <= k
      ensures obs[k'].detector != o.detector
    {
      assert obs[k'] == p[k'];
    }
  }

  /** `order` lists detectors in the order they are first met in `obs`. */
  ghost predicate FirstSeenOrder(obs: seq<Observation>, order: seq<string>) {
    forall i, j :: 0 <= i < j < |order| ==> SeenBefore(obs, order[i], order[j])
  }

  /** `signal_stats` lists the detectors in the order they were first met. */
  lemma {:induction false} AccumulateOrder(obs: seq<Observation>)
    ensures FirstSeenOrder(obs, Accumulate(obs).order)
  {
    if obs != [] {
      var p := obs[..|obs| - 1];
      var o := obs[|obs| - 1];
      assert obs == p + [o];
      AccumulateOrder(p);
      AccumulateSeen(p);
      AccumulateWellFormed(p);
      var a := Accumulate(p);
      assert FirstSeenOrder(p, a.order);
      var order := Accumulate(obs).order;
      ObserveOrder(a, o);
      forall i, j | 0 <= i < j < |order|
        ensures SeenBefore(obs, order[i], order[j])
      {
        if j < |a.order| {
          assert order[i] == a.order[i] && order[j] == a.order[j];
          assert SeenBefore(p, a.order[i], a.order[j]);
          SeenBeforeExtend(p, o, order[i], order[j]);
        } else {
          assert order[i] == a.order[i] && order[j] == o.detector && o.detector !in a.tallies;
          assert a.order[i] in a.tallies;
          SeenBeforeNew(p, o, order[i]);
        }
      }
    }
  }

  // ---------------------------------------------------------------------
  // The answer as a whole
  // ---------------------------------------------------------------------

  /** `st` is the finished entry of a detector that occurs in `obs`, summarising its triggering observations. */
  ghost predicate DescribesDetector(st: SignalStat, obs: seq<Observation>) {
    var trig := Triggering(obs, st.name);
    && Seen(obs, st.name)
    && st.triggeredCount == |trig|
    && st.maxScore == (if trig == [] then 0 else MaxOf(ScoresOf(trig)))
    && st.avgScore == (if trig == [] then 0.0 else Sum(ScoresOf(trig)) as real / |trig| as real)
    && st.caseIds == Take(IdsOf(trig), MaxSampleIds)
  }

  /** Every entry of the answer is a detector that occurs, with its exact statistics. */
  lemma BreakdownEntriesExact(cases: seq<CaseRecord>)
    ensures var out := SignalBreakdownOf(cases);
      forall i :: 0 <= i < |out| ==> DescribesDetector(out[i], Observations(cases))
  {
    var obs := Observations(cases);
    var acc := Accumulate(obs);
    AccumulateWellFormed(obs);
    AccumulateSeen(obs);
    AccumulateTallies(obs);
    var fin := Finalize(acc.order, acc.tallies);
    var out := SignalBreakdownOf(cases);
    assert multiset(out) == multiset(fin);
    forall i | 0 <= i < |out|
      ensures DescribesDetector(out[i], obs)
    {
      assert out[i] in multiset(fin);
      var k :| 0 <= k < |fin| && fin[k] == out[i];
      var d := acc.order[k];
      assert d in acc.tallies;
      assert TallyMatches(acc.tallies[d], Triggering(obs, d));
      assert fin[k] == Finish(d, acc.tallies[d]);
    }
  }

  /** Every detector that occurs has an entry, triggered or not. */
  lemma BreakdownCoversSeen(cases: seq<CaseRecord>)
    ensures var out := SignalBreakdownOf(cases);
      forall d :: Seen(Observations(cases), d) ==> exists i :: 0 <= i < |out| && out[i].name == d
  {
    var obs := Observations(cases);
    var acc := Accumulate(obs);
    AccumulateWellFormed(obs);
    AccumulateSeen(obs);
    var fin := Finalize(acc.order, acc.tallies);
    var out := SignalBreakdownOf(cases);
    assert multiset(out) == multiset(fin);
    forall d | Seen(obs, d)
      ensures exists i :: 0 <= i < |out| && out[i].name == d
    {
      assert d in acc.order;
      var k :| 0 <= k < |acc.order| && acc.order[k] == d;
      assert fin[k] in multiset(out);
      var i :| 0 <= i < |out| && out[i] == fin[k];
    }
  }

  /** The answer runs from the highest triggered count down, equal counts in first-seen order. */
  lemma BreakdownOrdered(cases: seq<CaseRecord>)
    ensures var out := SignalBreakdownOf(cases);
      && SortedDesc(out)
      && forall i, j :: 0 <= i < j < |out| && out[i].triggeredCount == out[j].triggeredCount ==>
           SeenBefore(Observations(cases), out[i].name, out[j].name)
  {
    var obs := Observations(cases);
    var acc := Accumulate(obs);
    AccumulateWellFormed(obs);
    AccumulateOrder(obs);
    var fin := Finalize(acc.order, acc.tallies);
    var out := SignalBreakdownOf(cases);
    assert KeepsTieOrder(fin, out);
    assert FirstSeenOrder(obs, acc.order);
    forall i, j | 0 <= i < j < |out| && out[i].triggeredCount == out[j].triggeredCount
      ensures SeenBefore(obs, out[i].name, out[j].name)
    {
      var i', j' :| 0 <= i' < j' < |fin| && fin[i'] == out[i] && fin[j'] == out[j];
      assert out[i].name == acc.order[i'] && out[j].name == acc.order[j'];
    }
  }

  /** No two positions of `s` hold the same value. */
  ghost predicate Distinct<T>(s: seq<T>) {
    forall i, j :: 0 <= i < j < |s| ==> s[i] != s[j]
  }

  /** A sequence without repeats holds each value at most once. */
  lemma {:induction false} DistinctOnce<T>(s: seq<T>)
    requires Distinct(s)
    ensures forall x :: multiset(s)[x] <= 1
  {
    if s != [] {
      var p := s[..|s| - 1];
      var last := s[|s| - 1];
      assert s == p + [last];
      assert Distinct(p) by {
        forall i, j | 0 <= i < j < |p| ensures p[i] != p[j] {
          assert p[i] == s[i] && p[j] == s[j];
        }
      }
      DistinctOnce(p);
      assert last !in p by {
        forall i | 0 <= i < |p| ensures p[i] != last {
          assert p[i] == s[i];
        }
      }
    }
  }

  /** A permutation of a sequence without repeats has no repeats. */
  lemma PermutationDistinct<T>(s: seq<T>, r: seq<T>)
    requires Distinct(s) && multiset(r) == multiset(s)
    ensures Distinct(r)
  {
    DistinctOnce(s);
    forall i, j | 0 <= i < j < |r|
      ensures r[i] != r[j]
    {
      var x := r[i];
      assert r == r[..j] + [r[j]] + r[j + 1..];
      assert x in r[..j];
      assert multiset(r)[x] >= multiset(r[..j])[x] + multiset([r[j]])[x];
      assert multiset(r)[x] <= 1;
    }
  }

  /** Each detector has one entry in the answer. */
  lemma BreakdownNamesDistinct(cases: seq<CaseRecord>)
    ensures var out := SignalBreakdownOf(cases);
      forall i, j :: 0 <= i < j < |out| ==> out[i].name != out[j].name
  {
    var acc := Accumulate(Observations(cases));
    AccumulateWellFormed(Observations(cases));
    var fin := Finalize(acc.order, acc.tallies);
    assert forall a, b :: 0 <= a < b < |fin| ==> fin[a].name != fin[b].name by {
      forall a, b | 0 <= a < b < |fin| ensures fin[a].name != fin[b].name {
        assert fin[a].name == acc.order[a] && fin[b].name == acc.order[b];
      }
    }
    PermutationKeepsNamesDistinct(fin, SortByCountDesc(fin));
  }

  /** Reordering entries with distinct names leaves their names distinct. */
  lemma PermutationKeepsNamesDistinct(s: seq<SignalStat>, r: seq<SignalStat>)
    requires forall a, b :: 0 <= a < b < |s| ==> s[a].name != s[b].name
    requires multiset(r) == multiset(s)
    ensures forall i, j :: 0 <= i < j < |r| ==> r[i].name != r[j].name
  {
    assert Distinct(s);
    PermutationDistinct(s, r);
    forall i, j | 0 <= i < j < |r|
      ensures r[i].name != r[j].name
    {
      assert r[i] in multiset(s) && r[j] in multiset(s);
      var a :| 0 <= a < |s| && s[a] == r[i];
      var b :| 0 <= b < |s| && s[b] == r[j];
      assert a != b;
    }
  }

  /** Each triggering observation of `d` is an observation of `d` with a positive score, and every such observation is one. */
  lemma {:induction false} TriggeringExact(obs: seq<Observation>, d: string)
    ensures forall o :: o in Triggering(obs, d) ==> o in obs && o.detector == d && o.score > 0
    ensures forall k :: 0 <= k < |obs| && obs[k].detector == d && obs[k].score > 0 ==> obs[k] in Triggering(obs, d)
  {
    if obs != [] {
      var p := obs[..|obs| - 1];
      TriggeringExact(p, d);
      forall k | 0 <= k < |obs| && obs[k].detector == d && obs[k].score > 0
        ensures obs[k] in Triggering(obs, d)
      {
        if k < |p| {
          assert obs[k] == p[k];
        }
      }
    }
  }

  /** The scores of a list of observations, position by position. */
  lemma {:induction false} ScoresOfAt(os: seq<Observation>)
    ensures |ScoresOf(os)| == |os|
    ensures forall k :: 0 <= k < |os| ==> ScoresOf(os)[k] == os[k].score
  {
    if os != [] {
      ScoresOfAt(os[..|os| - 1]);
    }
  }

  /**
   * What a finished entry guarantees: at most ten sampled case ids (as many
   * as triggers up to ten); a maximum no lower than any triggering score of
   * the detector and a mean no higher than it; and all zero when the
   * detector never triggered.
   */
  lemma DescribedBounds(st: SignalStat, obs: seq<Observation>)
    requires DescribesDetector(st, obs)
    ensures |st.caseIds| == if st.triggeredCount < MaxSampleIds then st.triggeredCount else MaxSampleIds
    ensures forall k :: 0 <= k < |obs| && obs[k].detector == st.name && obs[k].score > 0 ==>
              obs[k].score <= st.maxScore
    ensures st.triggeredCount == 0 ==> st.maxScore == 0 && st.avgScore == 0.0 && st.caseIds == []
    ensures st.triggeredCount > 0 ==> 0 < st.maxScore && 0.0 < st.avgScore <= st.maxScore as real
  {
    var trig := Triggering(obs, st.name);
    TriggeringExact(obs, st.name);
    ScoresOfAt(trig);
    IdsLength(trig);
    var scores := ScoresOf(trig);
    forall k | 0 <= k < |obs| && obs[k].detector == st.name && obs[k].score > 0
      ensures obs[k].score <= st.maxScore
    {
      assert obs[k] in trig;
      var m :| 0 <= m < |trig| && trig[m] == obs[k];
      assert scores[m] == obs[k].score;
    }
    if trig != [] {
      MeanBetweenMinAndMax(scores);
      var m :| 0 <= m < |scores| && scores[m] == MinOf(scores);
      assert trig[m] in trig;
    }
  }

  /** Two analyzed cases where detector `d1` scores 5 and one where it scores 0. */
  const ExampleCases: seq<CaseRecord> := [
    CaseRecord("c1", "analyzed", None, Some(Signals(Some([("d1", DetectorDict(Some(5)))]), 0)), "t1"),
    CaseRecord("c2", "analyzed", None, Some(Signals(Some([("d1", DetectorDict(Some(5)))]), 0)), "t2"),
    CaseRecord("c3", "analyzed", None, Some(Signals(Some([("d1", DetectorDict(Some(0)))]), 0)), "t3")
  ]

  lemma ExampleObservations()
    ensures Observations(ExampleCases)
            == [Observation("d1", 5, "c1"), Observation("d1", 5, "c2"), Observation("d1", 0, "c3")]
  {
    var cases := ExampleCases;
    var o1, o2, o3 := Observation("d1", 5, "c1"), Observation("d1", 5, "c2"), Observation("d1", 0, "c3");
    assert CaseObservations(cases[0]) == [o1];
    assert CaseObservations(cases[1]) == [o2];
    assert CaseObservations(cases[2]) == [o3];
    assert cases[..1][..0] == [] && cases[..2][..1] == cases[..1] && cases[..3][..2] == cases[..2];
    assert Observations(cases[..1]) == [o1];
    assert Observations(cases[..2]) == [o1, o2];
    assert cases[..3] == cases;
  }

  lemma ExampleAccumulate()
    ensures Accumulate([Observation("d1", 5, "c1"), Observation("d1", 5, "c2"), Observation("d1", 0, "c3")])
            == Stats(["d1"], map["d1" := Tally(2, 10, 5, ["c1", "c2"])])
  {
    var o1, o2, o3 := Observation("d1", 5, "c1"), Observation("d1", 5, "c2"), Observation("d1", 0, "c3");
    var empty: seq<Observation> := [];
    AccumulateStep(empty, o1);
    AccumulateStep([o1], o2);
    AccumulateStep([o1, o2], o3);
    assert empty + [o1] == [o1] && [o1] + [o2] == [o1, o2] && [o1, o2] + [o3] == [o1, o2, o3];
    var a1 := Accumulate([o1]);
    assert a1 == Observe(Stats([], map[]), o1);
    assert Trigger(Tally(0, 0, 0, []), o1) == Tally(1, 5, 5, ["c1"]);
    assert a1.tallies == map[][o1.detector := Tally(0, 0, 0, [])][o1.detector := Tally(1, 5, 5, ["c1"])];
    assert a1.tallies == map["d1" := Tally(1, 5, 5, ["c1"])];
    var a2 := Accumulate([o1, o2]);
    assert a2 == Observe(a1, o2);
    assert Trigger(Tally(1, 5, 5, ["c1"]), o2) == Tally(2, 10, 5, ["c1", "c2"]);
    assert a2.tallies == a1.tallies[o2.detector := Tally(2, 10, 5, ["c1", "c2"])];
    assert a2.tallies == map["d1" := Tally(2, 10, 5, ["c1", "c2"])];
    assert Accumulate([o1, o2, o3]) == Observe(a2, o3) == a2;
  }

  /** `d1` triggered twice, both scores 5, sampling the two triggering cases only. */
  lemma ExampleBreakdown()
    ensures SignalBreakdownOf(ExampleCases) == [SignalStat("d1", 2, 5, 5.0, ["c1", "c2"])]
  {
    ExampleObservations();
    ExampleAccumulate();
    var a := Stats(["d1"], map["d1" := Tally(2, 10, 5, ["c1", "c2"])]);
    var fin := Finalize(a.order, a.tallies);
    assert fin == [SignalStat("d1", 2, 5, 5.0, ["c1", "c2"])];
    assert fin[1..] == [];
  }
}
