/**
 The pod series over whole runs: the window of a container summarises what was recorded for that container, and nothing
 else. A cleanup may evict any of several oldest series, so a run lists the states it goes through.
 */
module PodMetrics {
  import opened Wrappers
  import opened Keys
  import opened MetricsStore

  datatype PodEvent =
    | RecordPod(namespace: string, pod: string, containers: seq<ContainerMetrics>, at: Time, nows: seq<Time>, cleanupNow: Time)
    | CleanPods(now: Time)

  /** A container by its three names. */
  datatype Container = Container(namespace: string, pod: string, name: string)

  // ---- Runs ------------------------------------------------------------------

  /** The series right before the cleanup of the event, if it has one. */
  function BeforeCleanup(series: Series, retention: Time, ev: PodEvent): Series
    requires ev.RecordPod? ==> |ev.nows| == |ev.containers|
  {
    match ev
    case RecordPod(namespace, pod, containers, at, nows, _) =>
      AfterContainers(series, namespace, pod, containers, at, Cutoffs(nows, retention))
    case CleanPods(_) => series
  }

  function CleanupTime(ev: PodEvent): Time {
    match ev
    case RecordPod(_, _, _, _, _, cleanupNow) => cleanupNow
    case CleanPods(now) => now
  }

  /** What RecordPodMetrics and Cleanup do to the pod series. */
  ghost predicate IsStep(before: Series, retention: Time, ev: PodEvent, after: Series) {
    match ev
    case RecordPod(namespace, pod, containers, at, nows, cleanupNow) =>
      && |nows| == |containers|
      && IsRecorded(after, AfterContainers(before, namespace, pod, containers, at, Cutoffs(nows, retention)),
                    cleanupNow - retention)
    case CleanPods(now) => IsCleaned(after, before, now - retention)
  }

  ghost predicate StepsAt(retention: Time, events: seq<PodEvent>, states: seq<Series>, i: nat)
    requires i < |events| && i + 1 < |states|
  {
    IsStep(states[i], retention, events[i], states[i + 1])
  }

  ghost predicate IsRun(retention: Time, events: seq<PodEvent>, states: seq<Series>) {
    && |states| == |events| + 1
    && states[0] == map[]
    && forall i | 0 <= i < |events| :: StepsAt(retention, events, states, i)
  }

  // ---- What was recorded -----------------------------------------------------

  /** The points of one container of a pod that is recorded. */
  function PointsFor(name: string, containers: seq<ContainerMetrics>, at: Time): seq<DataPoint> {
    if containers == [] then []
    else
      var c := containers[|containers| - 1];
      PointsFor(name, containers[..|containers| - 1], at) + if c.name == name then [DataPoint(at, c.cpu, c.memory)] else []
  }

  function RecordedFor(c: Container, ev: PodEvent): seq<DataPoint> {
    match ev
    case RecordPod(namespace, pod, containers, at, _, _) =>
      if namespace == c.namespace && pod == c.pod then PointsFor(c.name, containers, at) else []
    case CleanPods(_) => []
  }

  /** Everything ever recorded for the container. */
  function HistoryOf(c: Container, events: seq<PodEvent>): seq<DataPoint> {
    if events == [] then []
    else HistoryOf(c, events[..|events| - 1]) + RecordedFor(c, events[|events| - 1])
  }

  function KeyOf(c: Container): string { PodKey(c.namespace, c.pod, c.name) }

  predicate HasPlainNames(namespace: string, pod: string) {
    '/' !in namespace && '/' !in pod
  }

  lemma PodKeySplits(namespace: string, pod: string, name: string)
    ensures PodKey(namespace, pod, name) == namespace + "/" + (pod + "/" + name)
  {
  }

  /** Namespaces and pod names contain no slash, so that every container has a key of its own. */
  lemma PodKeyIsInjective(a: Container, b: Container)
    requires HasPlainNames(a.namespace, a.pod) && HasPlainNames(b.namespace, b.pod)
    requires KeyOf(a) == KeyOf(b)
    ensures a == b
  {
    PodKeySplits(a.namespace, a.pod, a.name);
    PodKeySplits(b.namespace, b.pod, b.name);
    PrefixBeforeSlash(a.namespace, b.namespace, a.pod + "/" + a.name, b.pod + "/" + b.name);
    SuffixAfterSlash(a.namespace, a.pod + "/" + a.name, b.pod + "/" + b.name);
    PrefixBeforeSlash(a.pod, b.pod, a.name, b.name);
    SuffixAfterSlash(a.pod, a.name, b.name);
  }

  // ---- Recording -------------------------------------------------------------

  /** Recording a pod adds its points for the container, when the pod is the container's, and nothing else. */
  lemma {:induction false} ContainersKeep(
      series: Series, c: Container, all: seq<DataPoint>, namespace: string, pod: string,
      containers: seq<ContainerMetrics>, at: Time, cutoffs: seq<Time>, since: Time)
    requires HasPlainNames(c.namespace, c.pod) && HasPlainNames(namespace, pod)
    requires |cutoffs| == |containers| && forall i | 0 <= i < |cutoffs| :: cutoffs[i] <= since
    requires SameWindows(Points(series, KeyOf(c)), all, since)
    ensures var own := if namespace == c.namespace && pod == c.pod then PointsFor(c.name, containers, at) else [];
            SameWindows(Points(AfterContainers(series, namespace, pod, containers, at, cutoffs), KeyOf(c)),
                        all + own, since)
  {
    if containers == [] {
      assert all + [] == all;
    } else {
      var last := |containers| - 1;
      ContainersKeep(series, c, all, namespace, pod, containers[..last], at, cutoffs[..last], since);
      OneContainerKeeps(AfterContainers(series, namespace, pod, containers[..last], at, cutoffs[..last]), c,
                        all, namespace, pod, containers, at, cutoffs[last], since);
    }
  }

  lemma OneContainerKeeps(
      series: Series, c: Container, all: seq<DataPoint>, namespace: string, pod: string,
      containers: seq<ContainerMetrics>, at: Time, cutoff: Time, since: Time)
    requires HasPlainNames(c.namespace, c.pod) && HasPlainNames(namespace, pod)
    requires containers != [] && cutoff <= since
    requires var own := if namespace == c.namespace && pod == c.pod
                        then PointsFor(c.name, containers[..|containers| - 1], at) else [];
             SameWindows(Points(series, KeyOf(c)), all + own, since)
    ensures var own := if namespace == c.namespace && pod == c.pod then PointsFor(c.name, containers, at) else [];
            var m := containers[|containers| - 1];
            SameWindows(Points(AfterRecord(series, PodKey(namespace, pod, m.name), DataPoint(at, m.cpu, m.memory), cutoff),
                               KeyOf(c)), all + own, since)
  {
    var m := containers[|containers| - 1];
    var p := DataPoint(at, m.cpu, m.memory);
    var front := PointsFor(c.name, containers[..|containers| - 1], at);
    PointsAfterRecord(series, PodKey(namespace, pod, m.name), KeyOf(c), p, cutoff);
    if Container(namespace, pod, m.name) == c {
      RecordKeepsWindows(Points(series, KeyOf(c)), all + front, p, cutoff, since);
      assert all + front + [p] == all + (front + [p]);
    } else {
      assert KeyOf(Container(namespace, pod, m.name)) != KeyOf(c) by {
        if KeyOf(Container(namespace, pod, m.name)) == KeyOf(c) {
          PodKeyIsInjective(Container(namespace, pod, m.name), c);
        }
      }
      assert front + [] == front;
    }
  }

  // ---- Cleanups --------------------------------------------------------------

  /** The cleanup keeps the series, or it holds nothing that a window from the cutoff on could show. */
  predicate SparesWindows(after: Series, before: Series, key: string, cutoff: Time) {
    key in after || Recent(Points(before, key), cutoff) == []
  }

  /** A series that is still there is as it was. */
  predicate KeepsOrDrops(after: Series, before: Series, key: string) {
    key in after ==> Points(after, key) == Points(before, key)
  }

  /** A cleanup, by age or by the cap, changes no window of a series from its cutoff on if and only if it spares them. */
  lemma CleanupKeepsWindowsIff(after: Series, before: Series, key: string, cutoff: Time)
    requires IsCleaned(after, before, cutoff)
    ensures SameWindows(Points(after, key), Points(before, key), cutoff) <==> SparesWindows(after, before, key, cutoff)
  {
    if key !in after {
      if Recent(Points(before, key), cutoff) == [] {
        forall c | c >= cutoff ensures Recent([], c) == Recent(Points(before, key), c) {
          OldLeavesNothing(Points(before, key), cutoff, c);
        }
      } else {
        assert Recent([], cutoff) != Recent(Points(before, key), cutoff);
      }
    }
  }

  lemma SameSizeSameSet<T>(a: set<T>, b: set<T>)
    requires a <= b && |a| == |b|
    ensures a == b
  {
    assert b == a + (b - a);
    assert |b| == |a| + |b - a|;
  }

  /** Below the cap it spares them exactly when what is too old at its end holds nothing recent. */
  lemma UncappedSparesIff(after: Series, before: Series, key: string, cutoff: Time)
    requires IsCleaned(after, before, cutoff) && |WithoutStale(before, cutoff)| <= MAX_POD_SERIES_KEYS
    ensures SparesWindows(after, before, key, cutoff) <==> IsHarmless(Points(before, key), cutoff)
  {
    SameSizeSameSet(after.Keys, WithoutStale(before, cutoff).Keys);
    assert key in after <==> Survives(Points(before, key), cutoff);
  }

  /** A step that takes nothing recent from the container. */
  ghost predicate IsSparingStep(before: Series, retention: Time, ev: PodEvent, after: Series, c: Container) {
    && (ev.RecordPod? ==> |ev.nows| == |ev.containers|)
    && IsStep(before, retention, ev, after)
    && var recorded := BeforeCleanup(before, retention, ev);
       after == recorded || SparesWindows(after, recorded, KeyOf(c), CleanupTime(ev) - retention)
  }

  ghost predicate SparesAt(retention: Time, events: seq<PodEvent>, states: seq<Series>, c: Container, i: nat)
    requires i < |events| && i + 1 < |states|
  {
    IsSparingStep(states[i], retention, events[i], states[i + 1], c)
  }

  // ---- The store answers like the history ------------------------------------

  /** No reading of the clock in the event is later than `now`. */
  predicate IsBy(ev: PodEvent, now: Time) {
    CleanupTime(ev) <= now && (ev.RecordPod? ==> forall i | 0 <= i < |ev.nows| :: ev.nows[i] <= now)
  }

  predicate IsPlain(ev: PodEvent) {
    ev.RecordPod? ==> HasPlainNames(ev.namespace, ev.pod)
  }

  lemma RecordingKeeps(before: Series, retention: Time, ev: PodEvent, c: Container, all: seq<DataPoint>, now: Time)
    requires (ev.RecordPod? ==> |ev.nows| == |ev.containers|) && IsBy(ev, now)
    requires HasPlainNames(c.namespace, c.pod) && IsPlain(ev)
    requires SameWindows(Points(before, KeyOf(c)), all, now - retention)
    ensures SameWindows(Points(BeforeCleanup(before, retention, ev), KeyOf(c)), all + RecordedFor(c, ev), now - retention)
  {
    if ev.RecordPod? {
      ContainersKeep(before, c, all, ev.namespace, ev.pod, ev.containers, ev.at, Cutoffs(ev.nows, retention),
                     now - retention);
    } else {
      assert all + [] == all;
    }
  }

  lemma SparedKeeps(after: Series, recorded: Series, key: string, cutoff: Time, all: seq<DataPoint>, since: Time)
    requires KeepsOrDrops(after, recorded, key) && SparesWindows(after, recorded, key, cutoff) && cutoff <= since
    requires SameWindows(Points(recorded, key), all, since)
    ensures SameWindows(Points(after, key), all, since)
  {
    if key !in after {
      forall c | c >= since ensures Recent([], c) == Recent(all, c) {
        OldLeavesNothing(Points(recorded, key), cutoff, c);
        assert Recent(Points(recorded, key), c) == Recent(all, c);
      }
    }
  }

  /** Whatever agrees with the one up to `since` agrees with the other once `own` is added. */
  ghost predicate Carries(kept: seq<DataPoint>, own: seq<DataPoint>, after: seq<DataPoint>, since: Time) {
    forall all :: SameWindows(kept, all, since) ==> SameWindows(after, all + own, since)
  }

  lemma StepKeepsOrDrops(before: Series, retention: Time, ev: PodEvent, after: Series, key: string)
    requires (ev.RecordPod? ==> |ev.nows| == |ev.containers|) && IsStep(before, retention, ev, after)
    ensures KeepsOrDrops(after, BeforeCleanup(before, retention, ev), key)
  {
  }

  /** What a step makes of a container's points: those of the recording, and after it those that are spared. */
  lemma SparingStepKeeps(after: Series, recorded: Series, key: string, cutoff: Time, all: seq<DataPoint>, since: Time)
    requires KeepsOrDrops(after, recorded, key) && cutoff <= since
    requires after == recorded || SparesWindows(after, recorded, key, cutoff)
    requires SameWindows(Points(recorded, key), all, since)
    ensures SameWindows(Points(after, key), all, since)
  {
    if after != recorded {
      SparedKeeps(after, recorded, key, cutoff, all, since);
    }
  }

  lemma StepKeepsFor(
      before: Series, retention: Time, ev: PodEvent, after: Series, c: Container, all: seq<DataPoint>, now: Time)
    requires IsSparingStep(before, retention, ev, after, c)
    requires KeepsOrDrops(after, BeforeCleanup(before, retention, ev), KeyOf(c))
    requires IsBy(ev, now) && IsPlain(ev) && HasPlainNames(c.namespace, c.pod)
    requires SameWindows(Points(before, KeyOf(c)), all, now - retention)
    ensures SameWindows(Points(after, KeyOf(c)), all + RecordedFor(c, ev), now - retention)
  {
    RecordingKeeps(before, retention, ev, c, all, now);
    SparingStepKeeps(after, BeforeCleanup(before, retention, ev), KeyOf(c), CleanupTime(ev) - retention,
                     all + RecordedFor(c, ev), now - retention);
  }

  lemma StepCarries(before: Series, retention: Time, ev: PodEvent, after: Series, c: Container, now: Time)
    requires IsSparingStep(before, retention, ev, after, c)
    requires IsBy(ev, now) && IsPlain(ev) && HasPlainNames(c.namespace, c.pod)
    ensures Carries(Points(before, KeyOf(c)), RecordedFor(c, ev), Points(after, KeyOf(c)), now - retention)
  {
    var since := now - retention;
    StepKeepsOrDrops(before, retention, ev, after, KeyOf(c));
    forall all | SameWindows(Points(before, KeyOf(c)), all, since)
      ensures SameWindows(Points(after, KeyOf(c)), all + RecordedFor(c, ev), since)
    {
      StepKeepsFor(before, retention, ev, after, c, all, now);
    }
  }

  ghost predicate CarriesAt(events: seq<PodEvent>, states: seq<Series>, c: Container, since: Time, i: nat)
    requires i < |events| && i + 1 < |states|
  {
    Carries(Points(states[i], KeyOf(c)), RecordedFor(c, events[i]), Points(states[i + 1], KeyOf(c)), since)
  }

  lemma {:induction false} CarriedAlong(events: seq<PodEvent>, states: seq<Series>, c: Container, since: Time, n: nat)
    requires |states| == |events| + 1 && states[0] == map[] && n <= |events|
    requires forall i | 0 <= i < |events| :: CarriesAt(events, states, c, since, i)
    ensures SameWindows(Points(states[n], KeyOf(c)), HistoryOf(c, events[..n]), since)
  {
    if n > 0 {
      CarriedAlong(events, states, c, since, n - 1);
      assert events[..n][..n - 1] == events[..n - 1];
      assert CarriesAt(events, states, c, since, n - 1);
    }
  }

  /** A run that a theorem about the container at time `now` speaks of: plain names, no later readings, spared windows. */
  ghost predicate IsSparingRun(retention: Time, events: seq<PodEvent>, states: seq<Series>, c: Container, now: Time) {
    && IsRun(retention, events, states)
    && (forall i | 0 <= i < |events| :: IsBy(events[i], now))
    && (forall i | 0 <= i < |events| :: IsPlain(events[i]))
    && (forall i | 0 <= i < |events| :: SparesAt(retention, events, states, c, i))
  }

  lemma RunCarriesAt(retention: Time, events: seq<PodEvent>, states: seq<Series>, c: Container, now: Time, i: nat)
    requires i < |events| && i + 1 < |states| && SparesAt(retention, events, states, c, i)
    requires IsBy(events[i], now) && IsPlain(events[i]) && HasPlainNames(c.namespace, c.pod)
    ensures CarriesAt(events, states, c, now - retention, i)
  {
    StepCarries(states[i], retention, events[i], states[i + 1], c, now);
  }

  /**
   Over every run of recordings and cleanups in which each cleanup spares the container's windows: what is kept under
   its key and what was recorded for it agree on the retention.
   */
  lemma PodStoreKeepsWindows(retention: Time, events: seq<PodEvent>, states: seq<Series>, c: Container, now: Time)
    requires IsSparingRun(retention, events, states, c, now) && HasPlainNames(c.namespace, c.pod)
    ensures SameWindows(Points(states[|events|], KeyOf(c)), HistoryOf(c, events), now - retention)
  {
    var since := now - retention;
    forall i | 0 <= i < |events| ensures CarriesAt(events, states, c, since, i) {
      RunCarriesAt(retention, events, states, c, now, i);
    }
    CarriedAlong(events, states, c, since, |events|);
    assert events[..|events|] == events;
  }

  /**
   A window of a container, no longer than the retention, then summarises exactly the CPU and memory recorded for that
   namespace, pod and container.
   */
  lemma PodWindowIsOfFullHistory(
      retention: Time, events: seq<PodEvent>, states: seq<Series>, namespace: string, pod: string, container: string,
      duration: Time, now: Time, w: Option<Window>)
    requires IsSparingRun(retention, events, states, Container(namespace, pod, container), now)
    requires HasPlainNames(namespace, pod) && duration <= retention
    ensures Summarises(w, Recent(Points(states[|events|], PodKey(namespace, pod, container)), now - duration)) <==>
            Summarises(w, Recent(HistoryOf(Container(namespace, pod, container), events), now - duration))
  {
    var c := Container(namespace, pod, container);
    PodStoreKeepsWindows(retention, events, states, c, now);
    var kept, all := Points(states[|events|], KeyOf(c)), HistoryOf(c, events);
    assert Recent(kept, now - duration) == Recent(all, now - duration);
    SameSummaries(w, Recent(kept, now - duration), Recent(all, now - duration));
  }
}
