/** Percentiles of integer samples: read off a sorted copy, and what that means for the samples themselves. */
module Percentiles {
  import opened Totals
  import opened Permutations

  function Below(v: int): int -> nat { x => if x < v then 1 else 0 }

  function UpTo(v: int): int -> nat { x => if x <= v then 1 else 0 }

  function Itself(): int -> int { x => x }

  /** A sample with more than pct percent of the samples up to it and at most pct percent below it. */
  ghost predicate IsPercentile(values: seq<int>, pct: nat, v: int) {
    && v in values
    && (SumBy(UpTo(v), values) * 100 > pct * |values| || SumBy(UpTo(v), values) == |values|)
    && SumBy(Below(v), values) * 100 <= pct * |values|
  }

  /** In sorted order, at most `i` samples are below the one at `i`, and at least `i + 1` are up to it. */
  lemma {:induction false} SortedCounts(s: seq<int>, i: nat, n: nat)
    requires i < |s| && n <= |s| && SortedBy(Itself(), s)
    ensures SumBy(Below(s[i]), s[..n]) <= i
    ensures SumBy(Below(s[i]), s[..n]) <= n
    ensures SumBy(UpTo(s[i]), s[..n]) >= if n <= i then n else i + 1
    ensures SumBy(UpTo(s[i]), s[..n]) <= n
  {
    if n > 0 {
      SortedCounts(s, i, n - 1);
      assert s[..n][..n - 1] == s[..n - 1];
      assert n - 1 < i ==> Itself()(s[n - 1]) <= Itself()(s[i]);
      assert i < n - 1 ==> Itself()(s[i]) <= Itself()(s[n - 1]);
    }
  }

  lemma SortedIndexIsPercentile(values: seq<int>, sorted: seq<int>, pct: nat, idx: nat)
    requires values != [] && Permutes(values, sorted) && SortedBy(Itself(), sorted) && |sorted| == |values|
    requires idx == if pct * |values| / 100 >= |values| then |values| - 1 else pct * |values| / 100
    ensures IsPercentile(values, pct, sorted[idx])
  {
    var v := sorted[idx];
    SortedCounts(sorted, idx, |sorted|);
    assert sorted[..|sorted|] == sorted;
    SumOfPermutation(Below(v), values, sorted);
    SumOfPermutation(UpTo(v), values, sorted);
    assert v in multiset(sorted);
  }

  method Percentile(values: seq<int>, pct: nat) returns (v: int)
    ensures values == [] ==> v == 0
    ensures values != [] ==> IsPercentile(values, pct, v)
  {
    if |values| == 0 {
      return 0;
    }
    var sorted := Sort(Itself(), values);
    assert |sorted| == |multiset(sorted)| == |values|;
    var idx := pct * |sorted| / 100;
    if idx >= |sorted| {
      idx := |sorted| - 1;
    }
    SortedIndexIsPercentile(values, sorted, pct, idx);
    return sorted[idx];
  }

  method MaxVal(values: seq<int>) returns (m: int)
    ensures values == [] ==> m == 0
    ensures values != [] ==> m in values && forall x | x in values :: x <= m
  {
    if |values| == 0 {
      return 0;
    }
    m := values[0];
    for i := 1 to |values|
      invariant m in values
      invariant forall j | 0 <= j < i :: values[j] <= m
    {
      if values[i] > m {
        m := values[i];
      }
    }
  }

  lemma {:induction false} CountsAreDisjoint(values: seq<int>, low: int, high: int)
    requires low < high
    ensures SumBy(UpTo(low), values) <= SumBy(Below(high), values) <= |values|
  {
    if values != [] {
      CountsAreDisjoint(values[..|values| - 1], low, high);
    }
  }

  lemma {:induction false} BelowMemberIsNotAll(values: seq<int>, v: int)
    requires v in values
    ensures SumBy(Below(v), values) < |values|
  {
    var last := values[|values| - 1];
    var front := values[..|values| - 1];
    CountsAreDisjoint(front, v - 1, v);
    if v in front {
      BelowMemberIsNotAll(front, v);
    } else {
      assert values == front + [last];
      assert last == v;
    }
  }

  /** A higher percentile is never a smaller sample; in particular the percentile is unique. */
  lemma PercentilesGrow(values: seq<int>, pct: nat, pct': nat, v: int, v': int)
    requires IsPercentile(values, pct, v) && IsPercentile(values, pct', v') && pct <= pct'
    ensures v <= v'
  {
    assert pct * |values| <= pct' * |values|;
    if v > v' {
      CountsAreDisjoint(values, v', v);
      BelowMemberIsNotAll(values, v);
    }
  }

  /** The percentile only depends on the multiset of the samples. */
  lemma PercentileOfPermutation(a: seq<int>, b: seq<int>, pct: nat, v: int)
    requires Permutes(a, b)
    ensures IsPercentile(a, pct, v) <==> IsPercentile(b, pct, v)
  {
    SumOfPermutation(Below(v), a, b);
    SumOfPermutation(UpTo(v), a, b);
    assert |a| == |multiset(a)| == |multiset(b)| == |b|;
    assert v in a <==> v in multiset(a);
    assert v in b <==> v in multiset(b);
  }
}

/** The in-memory time series: recording, eviction, cleanup, and the windows computed from what is kept. */
module MetricsStore {
  import opened Wrappers
  import opened Totals
  import opened Permutations
  import opened Percentiles

  const MAX_POD_SERIES_KEYS: nat := 100_000
  /** 120% of the cap. */
  const INLINE_CLEANUP_KEYS: nat := 120_000

  type Time = int

  datatype DataPoint = DataPoint(timestamp: Time, cpu: int, memory: int)

  type Series = map<string, seq<DataPoint>>

  datatype Window = Window(
    start: Time, end: Time, dataPoints: nat,
    p50Cpu: int, p95Cpu: int, p99Cpu: int, maxCpu: int,
    p50Memory: int, p95Memory: int, p99Memory: int, maxMemory: int)

  // ---- Windows -------------------------------------------------------------

  /** The points after the cutoff, in their order. */
  function Recent(points: seq<DataPoint>, cutoff: Time): seq<DataPoint> {
    if points == [] then []
    else
      var p := points[|points| - 1];
      Recent(points[..|points| - 1], cutoff) + if p.timestamp > cutoff then [p] else []
  }

  function Cpus(points: seq<DataPoint>): seq<int> {
    seq(|points|, i requires 0 <= i < |points| => points[i].cpu)
  }

  function Memories(points: seq<DataPoint>): seq<int> {
    seq(|points|, i requires 0 <= i < |points| => points[i].memory)
  }

  lemma ValuesPush(points: seq<DataPoint>, p: DataPoint)
    ensures Cpus(points + [p]) == Cpus(points) + [p.cpu]
    ensures Memories(points + [p]) == Memories(points) + [p.memory]
  {
  }

  ghost predicate IsMax(values: seq<int>, m: int) {
    m in values && forall x | x in values :: x <= m
  }

  /** The window that summarises exactly these points; there is none for no points. */
  ghost predicate Summarises(w: Option<Window>, points: seq<DataPoint>) {
    if points == [] then w == None
    else
      && w.Some?
      && w.value.start == points[0].timestamp
      && w.value.end == points[|points| - 1].timestamp
      && w.value.dataPoints == |points|
      && IsPercentile(Cpus(points), 50, w.value.p50Cpu)
      && IsPercentile(Cpus(points), 95, w.value.p95Cpu)
      && IsPercentile(Cpus(points), 99, w.value.p99Cpu)
      && IsMax(Cpus(points), w.value.maxCpu)
      && IsPercentile(Memories(points), 50, w.value.p50Memory)
      && IsPercentile(Memories(points), 95, w.value.p95Memory)
      && IsPercentile(Memories(points), 99, w.value.p99Memory)
      && IsMax(Memories(points), w.value.maxMemory)
  }

  method FilterRecent(points: seq<DataPoint>, cutoff: Time) returns (filtered: seq<DataPoint>)
    ensures filtered == Recent(points, cutoff)
  {
    filtered := [];
    for i := 0 to |points|
      invariant filtered == Recent(points[..i], cutoff)
    {
      assert points[..i + 1][..i] == points[..i];
      if points[i].timestamp > cutoff {
        filtered := filtered + [points[i]];
      }
    }
    assert points[..|points|] == points;
  }

  method SplitValues(points: seq<DataPoint>) returns (cpu: seq<int>, mem: seq<int>)
    ensures cpu == Cpus(points) && mem == Memories(points)
  {
    cpu, mem := [], [];
    for i := 0 to |points|
      invariant cpu == Cpus(points[..i]) && mem == Memories(points[..i])
    {
      assert points[..i + 1] == points[..i] + [points[i]];
      ValuesPush(points[..i], points[i]);
      cpu, mem := cpu + [points[i].cpu], mem + [points[i].memory];
    }
    assert points[..|points|] == points;
  }

  method ComputeWindow(points: seq<DataPoint>, duration: Time, now: Time) returns (w: Option<Window>)
    ensures Summarises(w, Recent(points, now - duration))
  {
    if |points| == 0 {
      return None;
    }
    var filtered := FilterRecent(points, now - duration);
    if |filtered| == 0 {
      return None;
    }
    var cpu, mem := SplitValues(filtered);
    var p50Cpu := Percentile(cpu, 50);
    var p95Cpu := Percentile(cpu, 95);
    var p99Cpu := Percentile(cpu, 99);
    var maxCpu := MaxVal(cpu);
    var p50Mem := Percentile(mem, 50);
    var p95Mem := Percentile(mem, 95);
    var p99Mem := Percentile(mem, 99);
    var maxMem := MaxVal(mem);
    return Some(Window(filtered[0].timestamp, filtered[|filtered| - 1].timestamp, |filtered|,
                       p50Cpu, p95Cpu, p99Cpu, maxCpu, p50Mem, p95Mem, p99Mem, maxMem));
  }

  lemma PercentileIsUnique(values: seq<int>, pct: nat, v: int, v': int)
    requires IsPercentile(values, pct, v) && IsPercentile(values, pct, v')
    ensures v == v'
  {
    PercentilesGrow(values, pct, pct, v, v');
    PercentilesGrow(values, pct, pct, v', v);
  }

  /** Points have one summary. */
  lemma SummaryIsUnique(points: seq<DataPoint>, w: Option<Window>, w': Option<Window>)
    requires Summarises(w, points) && Summarises(w', points)
    ensures w == w'
  {
    if points != [] {
      var cpu, mem := Cpus(points), Memories(points);
      PercentileIsUnique(cpu, 50, w.value.p50Cpu, w'.value.p50Cpu);
      PercentileIsUnique(cpu, 95, w.value.p95Cpu, w'.value.p95Cpu);
      PercentileIsUnique(cpu, 99, w.value.p99Cpu, w'.value.p99Cpu);
      PercentileIsUnique(mem, 50, w.value.p50Memory, w'.value.p50Memory);
      PercentileIsUnique(mem, 95, w.value.p95Memory, w'.value.p95Memory);
      PercentileIsUnique(mem, 99, w.value.p99Memory, w'.value.p99Memory);
    }
  }

  /** In every window the percentiles grow up to the maximum. */
  lemma WindowIsOrdered(points: seq<DataPoint>, w: Window)
    requires Summarises(Some(w), points)
    ensures w.p50Cpu <= w.p95Cpu <= w.p99Cpu <= w.maxCpu
    ensures w.p50Memory <= w.p95Memory <= w.p99Memory <= w.maxMemory
  {
    PercentilesGrow(Cpus(points), 50, 95, w.p50Cpu, w.p95Cpu);
    PercentilesGrow(Cpus(points), 95, 99, w.p95Cpu, w.p99Cpu);
    PercentilesGrow(Memories(points), 50, 95, w.p50Memory, w.p95Memory);
    PercentilesGrow(Memories(points), 95, 99, w.p95Memory, w.p99Memory);
  }

  // ---- Eviction and cleanup of series --------------------------------------

  function Points(series: Series, key: string): seq<DataPoint> {
    if key in series then series[key] else []
  }

  function DropOld(points: seq<DataPoint>, cutoff: Time): seq<DataPoint> {
    if points != [] && points[0].timestamp < cutoff then DropOld(points[1..], cutoff) else points
  }

  /** A series that loses its last point loses its key. */
  function Evicted(series: Series, key: string, cutoff: Time): Series {
    var remaining := DropOld(Points(series, key), cutoff);
    if remaining == Points(series, key) then series
    else if remaining == [] then series - {key}
    else series[key := remaining]
  }

  lemma {:induction false} DropOldIs(points: seq<DataPoint>, cutoff: Time, i: nat)
    requires i <= |points|
    requires forall j | 0 <= j < i :: points[j].timestamp < cutoff
    requires i < |points| ==> points[i].timestamp >= cutoff
    ensures DropOld(points, cutoff) == points[i..]
  {
    if i > 0 {
      DropOldIs(points[1..], cutoff, i - 1);
      assert points[1..][i - 1..] == points[i..];
    }
  }

  method Evict(series: Series, key: string, cutoff: Time) returns (r: Series)
    ensures r == Evicted(series, key, cutoff)
  {
    var points := Points(series, key);
    var i := 0;
    while i < |points| && points[i].timestamp < cutoff
      invariant i <= |points|
      invariant forall j | 0 <= j < i :: points[j].timestamp < cutoff
    {
      i := i + 1;
    }
    DropOldIs(points, cutoff, i);
    r := series;
    if i > 0 {
      var remaining := points[i..];
      assert |remaining| < |points|;
      if |remaining| == 0 {
        r := r - {key};
      } else {
        r := r[key := remaining];
      }
    }
  }

  predicate Survives(points: seq<DataPoint>, cutoff: Time) {
    points != [] && points[|points| - 1].timestamp >= cutoff
  }

  /** The series whose last point is within the retention. */
  function WithoutStale(series: Series, cutoff: Time): Series {
    map k | k in series && Survives(series[k], cutoff) :: series[k]
  }

  method RemoveStale(series: Series, cutoff: Time) returns (r: Series)
    ensures r == WithoutStale(series, cutoff)
  {
    r := series;
    var todo := series.Keys;
    while todo != {}
      invariant todo <= series.Keys
      invariant r == map k | k in series && (k in todo || Survives(series[k], cutoff)) :: series[k]
      decreases todo
    {
      var k :| k in todo;
      todo := todo - {k};
      if !Survives(series[k], cutoff) {
        r := r - {k};
      }
    }
  }

  function LastSeen(points: seq<DataPoint>): Time
    requires points != []
  {
    points[|points| - 1].timestamp
  }

  /**
   What a cleanup leaves: only survivors of the retention, unchanged, exactly as many as the cap allows; and whatever
   the cap evicts was last seen no later than anything that is kept.
   */
  ghost predicate IsCleaned(after: Series, before: Series, cutoff: Time) {
    var survivors := WithoutStale(before, cutoff);
    && after.Keys <= survivors.Keys
    && (forall k | k in after :: after[k] == survivors[k])
    && |after| == (if |survivors| <= MAX_POD_SERIES_KEYS then |survivors| else MAX_POD_SERIES_KEYS)
    && (forall k, e | k in after && e in survivors && e !in after :: LastSeen(survivors[e]) <= LastSeen(survivors[k]))
  }

  datatype KeyAge = KeyAge(key: string, lastSeen: Time)

  function AgeOf(): KeyAge -> Time { (e: KeyAge) => e.lastSeen }

  /** One entry for every series, in some order. */
  ghost predicate AreEntriesOf(entries: seq<KeyAge>, series: Series) {
    && (forall k | k in series :: series[k] != [])
    && (forall i | 0 <= i < |entries| ::
          entries[i].key in series && entries[i].lastSeen == LastSeen(series[entries[i].key]))
    && (forall i, j | 0 <= i < j < |entries| :: entries[i].key != entries[j].key)
    && |entries| == |series|
  }

  method CollectEntries(series: Series) returns (entries: seq<KeyAge>)
    requires forall k | k in series :: series[k] != []
    ensures AreEntriesOf(entries, series)
  {
    entries := [];
    var todo := series.Keys;
    while todo != {}
      invariant todo <= series.Keys
      invariant forall i | 0 <= i < |entries| ::
                  entries[i].key in series.Keys - todo && entries[i].lastSeen == LastSeen(series[entries[i].key])
      invariant forall i, j | 0 <= i < j < |entries| :: entries[i].key != entries[j].key
      invariant |entries| + |todo| == |series|
      decreases todo
    {
      var k :| k in todo;
      todo := todo - {k};
      entries := entries + [KeyAge(k, LastSeen(series[k]))];
    }
  }

  lemma RepeatedElement<T>(s: seq<T>, i: nat, j: nat)
    requires i < j < |s| && s[i] == s[j]
    ensures multiset(s)[s[i]] >= 2
  {
    assert s == s[..i] + [s[i]] + s[i + 1..j] + [s[j]] + s[j + 1..];
  }

  lemma {:induction false} DistinctElements(s: seq<KeyAge>, e: KeyAge)
    requires forall i, j | 0 <= i < j < |s| :: s[i].key != s[j].key
    ensures multiset(s)[e] <= 1
  {
    if s != [] {
      var last := |s| - 1;
      DistinctElements(s[..last], e);
      assert s == s[..last] + [s[last]];
      if s[last] == e {
        assert forall i | 0 <= i < last :: s[i] != e;
        assert e !in s[..last];
      }
    }
  }

  lemma RearrangedEntries(entries: seq<KeyAge>, sorted: seq<KeyAge>, series: Series)
    requires AreEntriesOf(entries, series) && Permutes(entries, sorted)
    ensures AreEntriesOf(sorted, series)
  {
    assert |sorted| == |multiset(sorted)| == |multiset(entries)| == |entries|;
    forall i | 0 <= i < |sorted|
      ensures sorted[i].key in series && sorted[i].lastSeen == LastSeen(series[sorted[i].key])
    {
      assert sorted[i] in multiset(entries);
      assert sorted[i] in entries;
    }
    forall i, j | 0 <= i < j < |sorted|
      ensures sorted[i].key != sorted[j].key
    {
      if sorted[i].key == sorted[j].key {
        RepeatedElement(sorted, i, j);
        DistinctElements(entries, sorted[i]);
      }
    }
  }

  ghost function FirstKeys(entries: seq<KeyAge>, n: nat): set<string>
    requires n <= |entries|
  {
    set i | 0 <= i < n :: entries[i].key
  }

  lemma {:induction false} CountFirstKeys(entries: seq<KeyAge>, n: nat)
    requires n <= |entries|
    requires forall i, j | 0 <= i < j < |entries| :: entries[i].key != entries[j].key
    ensures |FirstKeys(entries, n)| == n
  {
    if n > 0 {
      CountFirstKeys(entries, n - 1);
      assert FirstKeys(entries, n) == FirstKeys(entries, n - 1) + {entries[n - 1].key};
    }
  }

  lemma EveryKeyHasAnEntry(entries: seq<KeyAge>, series: Series, k: string)
    requires AreEntriesOf(entries, series) && k in series
    ensures exists i :: 0 <= i < |entries| && entries[i].key == k
  {
    CountFirstKeys(entries, |entries|);
    var keys := FirstKeys(entries, |entries|);
    SubsetSize(keys + {k}, series.Keys);
    assert k !in keys ==> |keys + {k}| == |keys| + 1;
  }

  lemma SubsetSize<T>(a: set<T>, b: set<T>)
    requires a <= b
    ensures |a| <= |b|
  {
    assert b == a + (b - a);
  }

  lemma EvictingOldestCleans(before: Series, cutoff: Time, sorted: seq<KeyAge>, n: nat)
    requires AreEntriesOf(sorted, WithoutStale(before, cutoff)) && SortedBy(AgeOf(), sorted)
    requires n <= |sorted| && |sorted| - n == MAX_POD_SERIES_KEYS
    ensures IsCleaned(WithoutStale(before, cutoff) - FirstKeys(sorted, n), before, cutoff)
  {
    var survivors := WithoutStale(before, cutoff);
    var evicted := FirstKeys(sorted, n);
    var after := survivors - evicted;
    CountFirstKeys(sorted, n);
    assert survivors.Keys == after.Keys + evicted;
    forall k, e | k in after && e in survivors && e !in after
      ensures LastSeen(survivors[e]) <= LastSeen(survivors[k])
    {
      var i :| 0 <= i < n && sorted[i].key == e;
      EveryKeyHasAnEntry(sorted, survivors, k);
      var j :| 0 <= j < |sorted| && sorted[j].key == k;
      assert j >= n;
      assert AgeOf()(sorted[i]) <= AgeOf()(sorted[j]);
    }
  }

  /** Retention first, then the cap, oldest series first; ties fall either way. */
  method CleanupPods(series: Series, cutoff: Time) returns (r: Series)
    ensures IsCleaned(r, series, cutoff)
  {
    r := RemoveStale(series, cutoff);
    if |r| > MAX_POD_SERIES_KEYS {
      ghost var survivors := r;
      var entries := CollectEntries(r);
      var sorted := Sort(AgeOf(), entries);
      RearrangedEntries(entries, sorted, r);
      var toRemove := |r| - MAX_POD_SERIES_KEYS;
      if toRemove > |sorted| {
        toRemove := |sorted|;
      }
      for i := 0 to toRemove
        invariant r == survivors - FirstKeys(sorted, i)
      {
        assert FirstKeys(sorted, i + 1) == FirstKeys(sorted, i) + {sorted[i].key};
        r := r - {sorted[i].key};
      }
      EvictingOldestCleans(series, cutoff, sorted, toRemove);
    }
  }

  // ---- The store -----------------------------------------------------------

  datatype ContainerMetrics = ContainerMetrics(name: string, cpu: int, memory: int)

  function PodKey(namespace: string, pod: string, container: string): string {
    namespace + "/" + pod + "/" + container
  }

  function Pushed(series: Series, key: string, p: DataPoint): Series {
    series[key := Points(series, key) + [p]]
  }

  /** A point recorded for a key, after which the key's old points are evicted. */
  function AfterRecord(series: Series, key: string, p: DataPoint, cutoff: Time): Series {
    Evicted(Pushed(series, key, p), key, cutoff)
  }

  /** One point for every container of a pod; every eviction reads the clock for itself. */
  function AfterContainers(
      series: Series, namespace: string, pod: string, containers: seq<ContainerMetrics>, at: Time, cutoffs: seq<Time>): Series
    requires |cutoffs| == |containers|
  {
    if containers == [] then series
    else
      var last := |containers| - 1;
      AfterRecord(AfterContainers(series, namespace, pod, containers[..last], at, cutoffs[..last]),
                  PodKey(namespace, pod, containers[last].name),
                  DataPoint(at, containers[last].cpu, containers[last].memory), cutoffs[last])
  }

  /** What a recording leaves: everything that is there, or a cleanup of it beyond 120% of the cap. */
  ghost predicate IsRecorded(after: Series, recorded: Series, cutoff: Time) {
    if |recorded| <= INLINE_CLEANUP_KEYS then after == recorded else IsCleaned(after, recorded, cutoff)
  }

  /** What is outside the retention at each of the times. */
  function Cutoffs(nows: seq<Time>, retention: Time): seq<Time> {
    seq(|nows|, i requires 0 <= i < |nows| => nows[i] - retention)
  }

  class Store {
    var nodeSeries: Series
    var podSeries: Series
    const retention: Time

    constructor (retention: Time)
      ensures this.retention == retention && nodeSeries == map[] && podSeries == map[]
    {
      this.retention := retention;
      nodeSeries, podSeries := map[], map[];
    }

    method RecordNodeMetrics(name: string, p: DataPoint, now: Time)
      modifies this
      ensures nodeSeries == AfterRecord(old(nodeSeries), name, p, now - retention)
      ensures podSeries == old(podSeries)
    {
      nodeSeries := Pushed(nodeSeries, name, p);
      nodeSeries := Evict(nodeSeries, name, now - retention);
    }

    /**
     Never leaves more than 120% of the cap: beyond that it cleans up, which also drops stale node series. The clock is
     read for every container, and once more for the cleanup.
     */
    method RecordPodMetrics(
        namespace: string, pod: string, containers: seq<ContainerMetrics>, at: Time, nows: seq<Time>, cleanupNow: Time)
      requires |nows| == |containers|
      modifies this
      ensures |podSeries| <= 120_000
      ensures var recorded := AfterContainers(old(podSeries), namespace, pod, containers, at, Cutoffs(nows, retention));
              && IsRecorded(podSeries, recorded, cleanupNow - retention)
              && nodeSeries == if |recorded| <= INLINE_CLEANUP_KEYS then old(nodeSeries)
                               else WithoutStale(old(nodeSeries), cleanupNow - retention)
    {
      ghost var cutoffs := Cutoffs(nows, retention);
      for i := 0 to |containers|
        invariant podSeries == AfterContainers(old(podSeries), namespace, pod, containers[..i], at, cutoffs[..i])
        invariant nodeSeries == old(nodeSeries)
      {
        assert containers[..i + 1][..i] == containers[..i] && cutoffs[..i + 1][..i] == cutoffs[..i];
        var key := PodKey(namespace, pod, containers[i].name);
        podSeries := Pushed(podSeries, key, DataPoint(at, containers[i].cpu, containers[i].memory));
        podSeries := Evict(podSeries, key, nows[i] - retention);
      }
      assert containers[..|containers|] == containers && cutoffs[..|containers|] == cutoffs;
      if |podSeries| > INLINE_CLEANUP_KEYS {
        Cleanup(cleanupNow);
      }
    }

    method Cleanup(now: Time)
      modifies this
      ensures nodeSeries == WithoutStale(old(nodeSeries), now - retention)
      ensures IsCleaned(podSeries, old(podSeries), now - retention)
      ensures |podSeries| <= 100_000
    {
      nodeSeries := RemoveStale(nodeSeries, now - retention);
      podSeries := CleanupPods(podSeries, now - retention);
    }

    method GetNodeWindow(name: string, duration: Time, now: Time) returns (w: Option<Window>)
      ensures Summarises(w, Recent(Points(nodeSeries, name), now - duration))
    {
      w := ComputeWindow(Points(nodeSeries, name), duration, now);
    }

    method GetPodContainerWindow(namespace: string, pod: string, container: string, duration: Time, now: Time)
      returns (w: Option<Window>)
      ensures Summarises(w, Recent(Points(podSeries, PodKey(namespace, pod, container)), now - duration))
    {
      w := ComputeWindow(Points(podSeries, PodKey(namespace, pod, container)), duration, now);
    }
  }

  // ---- What is kept answers for everything that was recorded ---------------

  /** What happens to the node series: a point is recorded, or the stale series are removed. */
  datatype Event = Record(name: string, point: DataPoint, now: Time) | Clean(now: Time)

  function Step(series: Series, retention: Time, ev: Event): Series {
    match ev
    case Record(name, point, now) => AfterRecord(series, name, point, now - retention)
    case Clean(now) => WithoutStale(series, now - retention)
  }

  /** The node series after a run from the empty store. */
  function Run(retention: Time, events: seq<Event>): Series {
    if events == [] then map[] else Step(Run(retention, events[..|events| - 1]), retention, events[|events| - 1])
  }

  function Recorded(name: string, ev: Event): seq<DataPoint> {
    if ev.Record? && ev.name == name then [ev.point] else []
  }

  /** Every point ever recorded for the node. */
  function History(name: string, events: seq<Event>): seq<DataPoint> {
    if events == [] then [] else History(name, events[..|events| - 1]) + Recorded(name, events[|events| - 1])
  }

  predicate ClockInOrder(events: seq<Event>) {
    forall i, j | 0 <= i < j < |events| :: events[i].now <= events[j].now
  }

  predicate InOrder(points: seq<DataPoint>) {
    forall i, j | 0 <= i < j < |points| :: points[i].timestamp <= points[j].timestamp
  }

  /** The two series have the same points in every window that starts at `since` or later. */
  ghost predicate SameWindows(a: seq<DataPoint>, b: seq<DataPoint>, since: Time) {
    forall cutoff | cutoff >= since :: Recent(a, cutoff) == Recent(b, cutoff)
  }

  lemma {:induction false} RecentOfOld(points: seq<DataPoint>, cutoff: Time)
    requires forall i | 0 <= i < |points| :: points[i].timestamp <= cutoff
    ensures Recent(points, cutoff) == []
  {
    if points != [] {
      RecentOfOld(points[..|points| - 1], cutoff);
    }
  }

  lemma {:induction false} RecentConcat(a: seq<DataPoint>, b: seq<DataPoint>, cutoff: Time)
    ensures Recent(a + b, cutoff) == Recent(a, cutoff) + Recent(b, cutoff)
  {
    if b == [] {
      assert a + b == a;
    } else {
      assert (a + b)[..|a + b| - 1] == a + b[..|b| - 1];
      RecentConcat(a, b[..|b| - 1], cutoff);
    }
  }

  lemma {:induction false} OldLeavesNothing(points: seq<DataPoint>, cutoff: Time, later: Time)
    requires Recent(points, cutoff) == [] && cutoff <= later
    ensures Recent(points, later) == []
  {
    if points != [] {
      OldLeavesNothing(points[..|points| - 1], cutoff, later);
    }
  }

  /** Dropping the leading old points changes no window from the cutoff on. */
  lemma {:induction false} DropOldKeepsWindows(points: seq<DataPoint>, cutoff: Time)
    ensures SameWindows(DropOld(points, cutoff), points, cutoff)
    decreases |points|
  {
    if points != [] && points[0].timestamp < cutoff {
      DropOldKeepsWindows(points[1..], cutoff);
      forall c | c >= cutoff ensures Recent(DropOld(points, cutoff), c) == Recent(points, c) {
        assert points == [points[0]] + points[1..];
        RecentConcat([points[0]], points[1..], c);
        RecentOfOld([points[0]], c);
      }
    }
  }

  /** A point that is recorded, in order or not, is in the same windows of what is kept and of everything. */
  lemma RecordKeepsWindows(kept: seq<DataPoint>, all: seq<DataPoint>, p: DataPoint, cutoff: Time, since: Time)
    requires SameWindows(kept, all, since) && cutoff <= since
    ensures SameWindows(DropOld(kept + [p], cutoff), all + [p], since)
  {
    DropOldKeepsWindows(kept + [p], cutoff);
    forall c | c >= since ensures Recent(kept + [p], c) == Recent(all + [p], c) {
      RecentConcat(kept, [p], c);
      RecentConcat(all, [p], c);
    }
  }

  function Cleaned(points: seq<DataPoint>, cutoff: Time): seq<DataPoint> {
    if Survives(points, cutoff) then points else []
  }

  /** The series survives the cleanup, or holds nothing that a window from the cutoff on could show. */
  predicate IsHarmless(points: seq<DataPoint>, cutoff: Time) {
    Survives(points, cutoff) || Recent(points, cutoff) == []
  }

  /** A cleanup changes no window from its cutoff on if and only if it is harmless. */
  lemma CleanKeepsWindowsIff(points: seq<DataPoint>, cutoff: Time)
    ensures SameWindows(Cleaned(points, cutoff), points, cutoff) <==> IsHarmless(points, cutoff)
  {
    if IsHarmless(points, cutoff) && !Survives(points, cutoff) {
      forall c | c >= cutoff ensures Recent([], c) == Recent(points, c) {
        OldLeavesNothing(points, cutoff, c);
      }
    }
    if !IsHarmless(points, cutoff) {
      assert Recent([], cutoff) != Recent(points, cutoff);
    }
  }

  lemma PointsAfterRecord(series: Series, key: string, name: string, p: DataPoint, cutoff: Time)
    ensures Points(AfterRecord(series, key, p, cutoff), name) ==
            if name == key then DropOld(Points(series, name) + [p], cutoff) else Points(series, name)
  {
  }

  /** If the event is a cleanup, what it removes of the node's points is no loss. */
  predicate IsHarmlessFor(points: seq<DataPoint>, retention: Time, ev: Event) {
    ev.Clean? ==> IsHarmless(points, ev.now - retention)
  }

  predicate IsHarmlessAt(retention: Time, events: seq<Event>, name: string, i: nat)
    requires i < |events|
  {
    IsHarmlessFor(Points(Run(retention, events[..i]), name), retention, events[i])
  }

  ghost predicate CleansAreHarmless(retention: Time, events: seq<Event>, name: string) {
    forall i | 0 <= i < |events| :: IsHarmlessAt(retention, events, name, i)
  }

  lemma PrefixOfPrefix<T>(s: seq<T>, n: nat, i: nat)
    requires i <= n <= |s|
    ensures s[..n][..i] == s[..i]
  {
  }

  lemma HarmlessPrefix(retention: Time, events: seq<Event>, name: string, n: nat)
    requires n <= |events| && CleansAreHarmless(retention, events, name)
    ensures CleansAreHarmless(retention, events[..n], name)
  {
    forall i | 0 <= i < n ensures IsHarmlessAt(retention, events[..n], name, i) {
      assert IsHarmlessAt(retention, events, name, i);
      HarmlessAtPrefix(retention, events, name, n, i);
    }
  }

  lemma HarmlessAtPrefix(retention: Time, events: seq<Event>, name: string, n: nat, i: nat)
    requires i < n <= |events| && IsHarmlessAt(retention, events, name, i)
    ensures IsHarmlessAt(retention, events[..n], name, i)
  {
    PrefixOfPrefix(events, n, i);
  }

  lemma LaterWindows(a: seq<DataPoint>, b: seq<DataPoint>, since: Time, later: Time)
    requires SameWindows(a, b, since) && since <= later
    ensures SameWindows(a, b, later)
  {
  }

  /** What a step makes of the points that are kept for one node. */
  function KeptAfter(kept: seq<DataPoint>, retention: Time, name: string, ev: Event): seq<DataPoint> {
    match ev
    case Record(key, point, now) => if key == name then DropOld(kept + [point], now - retention) else kept
    case Clean(now) => Cleaned(kept, now - retention)
  }

  lemma PointsAfterStep(series: Series, retention: Time, name: string, ev: Event)
    ensures Points(Step(series, retention, ev), name) == KeptAfter(Points(series, name), retention, name, ev)
  {
    match ev
    case Record(key, point, now) => PointsAfterRecord(series, key, name, point, now - retention);
    case Clean(now) => PointsAfterClean(series, name, now - retention);
  }

  lemma StepKeepsWindows(kept: seq<DataPoint>, retention: Time, all: seq<DataPoint>, name: string, ev: Event)
    requires SameWindows(kept, all, ev.now - retention) && IsHarmlessFor(kept, retention, ev)
    ensures SameWindows(KeptAfter(kept, retention, name, ev), all + Recorded(name, ev), ev.now - retention)
  {
    var cutoff := ev.now - retention;
    if ev.Clean? {
      CleanKeepsWindowsIff(kept, cutoff);
      SameWindowsChain(Cleaned(kept, cutoff), kept, all, cutoff);
    } else if ev.name == name {
      RecordKeepsWindows(kept, all, ev.point, cutoff, cutoff);
    }
    if Recorded(name, ev) == [] {
      assert all + Recorded(name, ev) == all;
    }
  }

  lemma SameWindowsChain(a: seq<DataPoint>, b: seq<DataPoint>, c: seq<DataPoint>, since: Time)
    requires SameWindows(a, b, since) && SameWindows(b, c, since)
    ensures SameWindows(a, c, since)
  {
    forall cutoff | cutoff >= since ensures Recent(a, cutoff) == Recent(c, cutoff) {
      assert Recent(a, cutoff) == Recent(b, cutoff);
    }
  }

  lemma PointsAfterClean(series: Series, name: string, cutoff: Time)
    ensures Points(WithoutStale(series, cutoff), name) == Cleaned(Points(series, name), cutoff)
  {
  }

  /** On every run whose cleanups are harmless, what is kept and what was ever recorded agree on the retention. */
  lemma {:induction false} StoreKeepsWindows(retention: Time, events: seq<Event>, name: string, now: Time)
    requires ClockInOrder(events) && (events != [] ==> events[|events| - 1].now <= now)
    requires CleansAreHarmless(retention, events, name)
    ensures SameWindows(Points(Run(retention, events), name), History(name, events), now - retention)
  {
    if events != [] {
      var front, ev := events[..|events| - 1], events[|events| - 1];
      HarmlessPrefix(retention, events, name, |front|);
      StoreKeepsWindows(retention, front, name, ev.now);
      assert IsHarmlessAt(retention, events, name, |front|);
      PointsAfterStep(Run(retention, front), retention, name, ev);
      StepKeepsWindows(Points(Run(retention, front), name), retention, History(name, front), name, ev);
      LaterWindows(Points(Run(retention, events), name), History(name, events), ev.now - retention, now - retention);
    }
  }

  /** After the first `n` events all windows up to the retention are those of the history so far. */
  ghost predicate AgreesAfter(retention: Time, events: seq<Event>, name: string, n: nat)
    requires 0 < n <= |events|
  {
    SameWindows(Points(Run(retention, events[..n]), name), History(name, events[..n]), events[n - 1].now - retention)
  }

  ghost predicate AgreesThroughout(retention: Time, events: seq<Event>, name: string) {
    forall n | 0 < n <= |events| :: AgreesAfter(retention, events, name, n)
  }

  lemma AgreementNeedsHarmless(retention: Time, events: seq<Event>, name: string, i: nat)
    requires ClockInOrder(events) && AgreesThroughout(retention, events, name) && i < |events|
    ensures IsHarmlessAt(retention, events, name, i)
  {
    if events[i].Clean? {
      var kept, cutoff := Points(Run(retention, events[..i]), name), events[i].now - retention;
      PrefixOfPrefix(events, i + 1, i);
      var all := History(name, events[..i]);
      assert History(name, events[..i + 1]) == all + [] == all;
      PointsAfterClean(Run(retention, events[..i]), name, cutoff);
      assert AgreesAfter(retention, events, name, i + 1);
      if i > 0 {
        assert AgreesAfter(retention, events, name, i);
        LaterWindows(kept, all, events[i - 1].now - retention, cutoff);
      }
      CleanKeepsWindowsIff(kept, cutoff);
    }
  }

  lemma HarmlessAgrees(retention: Time, events: seq<Event>, name: string, n: nat)
    requires ClockInOrder(events) && CleansAreHarmless(retention, events, name) && 0 < n <= |events|
    ensures AgreesAfter(retention, events, name, n)
  {
    HarmlessPrefix(retention, events, name, n);
    StoreKeepsWindows(retention, events[..n], name, events[n - 1].now);
  }

  /** The store answers like the complete history throughout a run if and only if every cleanup in it is harmless. */
  lemma AgreesIffHarmless(retention: Time, events: seq<Event>, name: string)
    requires ClockInOrder(events)
    ensures AgreesThroughout(retention, events, name) <==> CleansAreHarmless(retention, events, name)
  {
    if AgreesThroughout(retention, events, name) {
      forall i | 0 <= i < |events| ensures IsHarmlessAt(retention, events, name, i) {
        AgreementNeedsHarmless(retention, events, name, i);
      }
    }
    if CleansAreHarmless(retention, events, name) {
      forall n | 0 < n <= |events| ensures AgreesAfter(retention, events, name, n) {
        HarmlessAgrees(retention, events, name, n);
      }
    }
  }

  lemma {:induction false} DropOldHolds(points: seq<DataPoint>, cutoff: Time)
    requires InOrder(points)
    ensures InOrder(DropOld(points, cutoff)) && forall p | p in DropOld(points, cutoff) :: p in points
    decreases |points|
  {
    if points != [] && points[0].timestamp < cutoff {
      DropOldHolds(points[1..], cutoff);
    }
  }

  lemma {:induction false} KeptInOrder(retention: Time, events: seq<Event>, name: string)
    requires InOrder(History(name, events))
    ensures var kept := Points(Run(retention, events), name);
            InOrder(kept) && forall p | p in kept :: p in History(name, events)
  {
    if events != [] {
      var front, ev := events[..|events| - 1], events[|events| - 1];
      var h := History(name, front);
      assert h == History(name, events)[..|h|];
      KeptInOrder(retention, front, name);
      PointsAfterStep(Run(retention, front), retention, name, ev);
      StepInOrder(Points(Run(retention, front), name), retention, h, name, ev);
    }
  }

  lemma StepInOrder(kept: seq<DataPoint>, retention: Time, h: seq<DataPoint>, name: string, ev: Event)
    requires InOrder(kept) && forall p | p in kept :: p in h
    requires InOrder(h + Recorded(name, ev))
    ensures var after := KeptAfter(kept, retention, name, ev);
            InOrder(after) && forall p | p in after :: p in h + Recorded(name, ev)
  {
    if ev.Record? && ev.name == name {
      PushInOrder(kept, h, ev.point);
      DropOldHolds(kept + [ev.point], ev.now - retention);
    }
  }

  lemma PushInOrder(kept: seq<DataPoint>, all: seq<DataPoint>, p: DataPoint)
    requires InOrder(kept) && InOrder(all + [p]) && forall q | q in kept :: q in all
    ensures InOrder(kept + [p]) && forall q | q in kept + [p] :: q in all + [p]
  {
    forall i | 0 <= i < |kept| ensures kept[i].timestamp <= p.timestamp {
      assert kept[i] in all;
      var j :| 0 <= j < |all| && all[j] == kept[i];
      assert (all + [p])[j] == kept[i] && (all + [p])[|all|] == p;
    }
  }

  /** With the timestamps of the node recorded in order every cleanup is harmless. */
  lemma OrderedCleansAreHarmless(retention: Time, events: seq<Event>, name: string)
    requires InOrder(History(name, events))
    ensures CleansAreHarmless(retention, events, name)
  {
    forall i | 0 <= i < |events| ensures IsHarmlessAt(retention, events, name, i) {
      OrderedCleanIsHarmless(retention, events, name, i);
    }
  }

  lemma OrderedCleanIsHarmless(retention: Time, events: seq<Event>, name: string, i: nat)
    requires InOrder(History(name, events)) && i < |events|
    ensures IsHarmlessAt(retention, events, name, i)
  {
    KeptSoFarInOrder(retention, events, name, i);
    OrderedIsHarmless(Points(Run(retention, events[..i]), name), events[i].now - retention);
  }

  lemma KeptSoFarInOrder(retention: Time, events: seq<Event>, name: string, i: nat)
    requires InOrder(History(name, events)) && i <= |events|
    ensures InOrder(Points(Run(retention, events[..i]), name))
  {
    HistoryOfPrefix(name, events, i);
    PrefixInOrder(History(name, events[..i]), History(name, events));
    KeptInOrder(retention, events[..i], name);
  }

  /** For points in order, a cleanup removes the series exactly when evicting the old points would empty it. */
  lemma {:induction false} StaleIffEvictedAltogether(points: seq<DataPoint>, cutoff: Time)
    requires InOrder(points)
    ensures !Survives(points, cutoff) <==> DropOld(points, cutoff) == []
    decreases |points|
  {
    if points != [] && points[0].timestamp < cutoff {
      StaleIffEvictedAltogether(points[1..], cutoff);
    }
  }

  ghost predicate HasNoEmptySeries(series: Series) {
    forall k | k in series :: series[k] != []
  }

  /** Recording and cleaning up leave no key without points behind. */
  lemma NoEmptySeries(series: Series, key: string, p: DataPoint, cutoff: Time)
    requires HasNoEmptySeries(series)
    ensures HasNoEmptySeries(AfterRecord(series, key, p, cutoff))
    ensures key in AfterRecord(series, key, p, cutoff) <==> DropOld(Points(series, key) + [p], cutoff) != []
    ensures HasNoEmptySeries(WithoutStale(series, cutoff))
  {
    assert Points(Pushed(series, key, p), key) == Points(series, key) + [p];
  }

  lemma PrefixInOrder(a: seq<DataPoint>, b: seq<DataPoint>)
    requires a <= b && InOrder(b)
    ensures InOrder(a)
  {
  }

  lemma OrderedIsHarmless(points: seq<DataPoint>, cutoff: Time)
    requires InOrder(points)
    ensures IsHarmless(points, cutoff)
  {
    if !Survives(points, cutoff) {
      RecentOfOld(points, cutoff);
    }
  }

  lemma {:induction false} HistoryOfPrefix(name: string, events: seq<Event>, n: nat)
    requires n <= |events|
    ensures History(name, events[..n]) <= History(name, events)
  {
    if n < |events| {
      HistoryOfPrefix(name, events[..|events| - 1], n);
      assert events[..|events| - 1][..n] == events[..n];
    } else {
      assert events[..n] == events;
    }
  }

  lemma SameSummaries(w: Option<Window>, a: seq<DataPoint>, b: seq<DataPoint>)
    requires a == b
    ensures Summarises(w, a) <==> Summarises(w, b)
  {
  }

  /**
   When the cleanups of the run are harmless, a window no longer than the retention summarises the complete recorded
   history, whatever was evicted or cleaned up on the way.
   */
  lemma WindowIsOfFullHistory(
      retention: Time, events: seq<Event>, name: string, duration: Time, now: Time, w: Option<Window>)
    requires ClockInOrder(events) && (events != [] ==> events[|events| - 1].now <= now)
    requires CleansAreHarmless(retention, events, name) && duration <= retention
    ensures Summarises(w, Recent(Points(Run(retention, events), name), now - duration)) <==>
            Summarises(w, Recent(History(name, events), now - duration))
  {
    var kept, all := Points(Run(retention, events), name), History(name, events);
    StoreKeepsWindows(retention, events, name, now);
    assert Recent(kept, now - duration) == Recent(all, now - duration);
    SameSummaries(w, Recent(kept, now - duration), Recent(all, now - duration));
  }

  /** A cleanup that harms: a late old point makes it drop a series that is still in the window. */
  lemma CleanupCanHarm()
    ensures var events := [Record("n", DataPoint(100, 1, 1), 100), Record("n", DataPoint(10, 1, 1), 100), Clean(100)];
            && Recent(Points(Run(50, events), "n"), 100 - 50) == []
            && Recent(History("n", events), 100 - 50) == [DataPoint(100, 1, 1)]
  {
    var first, late := DataPoint(100, 1, 1), DataPoint(10, 1, 1);
    var e1, e2, e3 := Record("n", first, 100), Record("n", late, 100), Clean(100);
    RunPush(50, [], e1, "n");
    RunPush(50, [e1], e2, "n");
    RunPush(50, [e1, e2], e3, "n");
    assert [] + [e1] == [e1] && [e1] + [e2] == [e1, e2] && [e1, e2] + [e3] == [e1, e2, e3];
    assert [] + [first] == [first] && [first] + [late] == [first, late] && [first, late] + [] == [first, late];
    assert Points(Run(50, [e1, e2]), "n") == [first, late];
    assert [first, late][..1] == [first] && [first][..0] == [];
  }

  lemma RunPush(retention: Time, events: seq<Event>, ev: Event, name: string)
    ensures Points(Run(retention, events + [ev]), name)
         == KeptAfter(Points(Run(retention, events), name), retention, name, ev)
    ensures History(name, events + [ev]) == History(name, events) + Recorded(name, ev)
  {
    assert (events + [ev])[..|events|] == events;
    PointsAfterStep(Run(retention, events), retention, name, ev);
  }
}
