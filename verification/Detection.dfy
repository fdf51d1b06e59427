/** Forgetting old anomalies before correlating: what the correlation can still see. */
module Pruning {
  import opened Wrappers
  import opened Correlation

  function NewerThan(s: seq<Obs>, cutoff: real): seq<Obs> {
    if s == [] then []
    else
      var rest, last := NewerThan(s[..|s| - 1], cutoff), s[|s| - 1];
      if last.at > cutoff then rest + [last] else rest
  }

  lemma NewerAppend(s: seq<Obs>, x: Obs, cutoff: real)
    ensures NewerThan(s + [x], cutoff) == NewerThan(s, cutoff) + if x.at > cutoff then [x] else []
  {
    assert (s + [x])[..|s|] == s;
  }

  lemma {:induction false} NewerMembers(s: seq<Obs>, cutoff: real, o: Obs)
    ensures o in NewerThan(s, cutoff) <==> o in s && o.at > cutoff
  {
    if s != [] {
      assert s == s[..|s| - 1] + [s[|s| - 1]];
      NewerMembers(s[..|s| - 1], cutoff, o);
    }
  }

  lemma {:induction false} NewerTwice(s: seq<Obs>, earlier: real, later: real)
    requires earlier <= later
    ensures NewerThan(NewerThan(s, earlier), later) == NewerThan(s, later)
  {
    if s != [] {
      var front, last := s[..|s| - 1], s[|s| - 1];
      NewerTwice(front, earlier, later);
      NewerAppend(NewerThan(front, earlier), last, later);
    }
  }

  lemma {:induction false} NewerOfEquipment(s: seq<Obs>, q: string, cutoff: real)
    ensures OfEquipment(NewerThan(s, cutoff), q) == NewerThan(OfEquipment(s, q), cutoff)
  {
    if s != [] {
      var front, last := s[..|s| - 1], s[|s| - 1];
      NewerOfEquipment(front, q, cutoff);
      NewerAppend(OfEquipment(front, q), last, cutoff);
      GroupExtend(NewerThan(front, cutoff), last, q);
    }
  }

  lemma NewerLastAtMost(s: seq<Obs>, cutoff: real, limit: real)
    requires Sorted(s) && (s == [] || s[|s| - 1].at <= limit)
    ensures
      var newer := NewerThan(s, cutoff);
      newer == [] || newer[|newer| - 1].at <= limit
  {
    var newer := NewerThan(s, cutoff);
    if newer != [] {
      NewerMembers(s, cutoff, newer[|newer| - 1]);
      assert newer[|newer| - 1] in newer;
    }
  }

  lemma InsertBefore(front: seq<Obs>, last: Obs, x: Obs)
    requires last.at > x.at
    ensures Insert(front + [last], x) == Insert(front, x) + [last]
  {
    assert (front + [last])[..|front|] == front;
  }

  /** Cutting what a new observation was inserted into is inserting it, unless it is cut, into what is left. */
  ghost predicate Commutes(s: seq<Obs>, x: Obs, cutoff: real) {
    NewerThan(Insert(s, x), cutoff)
      == if x.at > cutoff then Insert(NewerThan(s, cutoff), x) else NewerThan(s, cutoff)
  }

  lemma NewerInsertAfter(s: seq<Obs>, x: Obs, cutoff: real)
    requires Sorted(s) && (s == [] || s[|s| - 1].at <= x.at)
    ensures Commutes(s, x, cutoff)
  {
    NewerAppend(s, x, cutoff);
    NewerLastAtMost(s, cutoff, x.at);
  }

  lemma NewerInsertBefore(front: seq<Obs>, last: Obs, x: Obs, cutoff: real)
    requires last.at > x.at && Commutes(front, x, cutoff)
    ensures Commutes(front + [last], x, cutoff)
  {
    InsertBefore(front, last, x);
    NewerAppend(Insert(front, x), last, cutoff);
    NewerAppend(front, last, cutoff);
    if x.at > cutoff { InsertBefore(NewerThan(front, cutoff), last, x); }
  }

  lemma FrontSorted(s: seq<Obs>, front: seq<Obs>, last: Obs)
    requires Sorted(s) && s == front + [last]
    ensures Sorted(front)
  {
    assert forall i :: 0 <= i < |front| ==> front[i] == s[i];
  }

  lemma {:induction false} NewerInsert(s: seq<Obs>, x: Obs, cutoff: real)
    requires Sorted(s)
    ensures Commutes(s, x, cutoff)
    decreases 2 * |s|
  {
    if s == [] || s[|s| - 1].at <= x.at {
      NewerInsertAfter(s, x, cutoff);
    } else {
      var front, last := s[..|s| - 1], s[|s| - 1];
      assert s == front + [last];
      NewerInsertIn(s, front, last, x, cutoff);
    }
  }

  lemma NewerInsertIn(s: seq<Obs>, front: seq<Obs>, last: Obs, x: Obs, cutoff: real)
    requires Sorted(s) && s == front + [last] && last.at > x.at
    ensures Commutes(s, x, cutoff)
    decreases 2 * |front| + 1
  {
    FrontSorted(s, front, last);
    NewerInsert(front, x, cutoff);
    NewerInsertBefore(front, last, x, cutoff);
  }

  lemma {:induction false} NewerSort(s: seq<Obs>, cutoff: real)
    ensures SortByTime(NewerThan(s, cutoff)) == NewerThan(SortByTime(s), cutoff)
  {
    if s != [] {
      var front, last := s[..|s| - 1], s[|s| - 1];
      NewerSort(front, cutoff);
      SortSorts(front);
      NewerInsert(SortByTime(front), last, cutoff);
      if last.at > cutoff {
        assert (NewerThan(front, cutoff) + [last])[..|NewerThan(front, cutoff)|] == NewerThan(front, cutoff);
      }
    }
  }

  /** Up to `k` the observations are old, and from there on they are newer. */
  ghost predicate Cut(s: seq<Obs>, cutoff: real, k: nat) {
    && k <= |s|
    && (forall i :: 0 <= i < k ==> s[i].at <= cutoff)
    && (forall i :: k <= i < |s| ==> s[i].at > cutoff)
  }

  lemma CutMore(front: seq<Obs>, last: Obs, cutoff: real, k: nat)
    requires Cut(front, cutoff, k) && last.at > cutoff
    ensures Cut(front + [last], cutoff, k) && (front + [last])[k..] == front[k..] + [last]
  {
  }

  /** In a time-ordered list the newer observations are a suffix. */
  lemma {:induction false} NewerIsSuffix(s: seq<Obs>, cutoff: real) returns (k: nat)
    requires Sorted(s)
    ensures Cut(s, cutoff, k) && NewerThan(s, cutoff) == s[k..]
  {
    k := |s|;
    if s != [] && s[|s| - 1].at > cutoff {
      var front, last := s[..|s| - 1], s[|s| - 1];
      assert s == front + [last];
      k := NewerIsSuffix(front, cutoff);
      CutMore(front, last, cutoff, k);
    } else {
      AllOld(s, cutoff);
    }
  }

  lemma {:induction false} AllOld(s: seq<Obs>, cutoff: real)
    requires forall i :: 0 <= i < |s| ==> s[i].at <= cutoff
    ensures NewerThan(s, cutoff) == []
  {
    if s != [] { AllOld(s[..|s| - 1], cutoff); }
  }

  lemma {:induction false} AllNew(s: seq<Obs>, cutoff: real)
    requires forall i :: 0 <= i < |s| ==> s[i].at > cutoff
    ensures NewerThan(s, cutoff) == s
  {
    if s != [] {
      AllNew(s[..|s| - 1], cutoff);
      assert s == s[..|s| - 1] + [s[|s| - 1]];
    }
  }

  /** The last cluster starts after the last gap that is too wide. */
  ghost predicate Starts(s: seq<Obs>, window: real, a: nat) {
    && a < |s|
    && (forall k :: a < k < |s| ==> s[k].at - s[k - 1].at <= window)
    && (a > 0 ==> s[a].at - s[a - 1].at > window)
  }

  lemma {:induction false} StartIs(s: seq<Obs>, window: real, a: nat)
    requires Starts(s, window, a)
    ensures Start(s, window) == a
  {
    var n := |s| - 1;
    if a < n {
      assert forall k :: 0 <= k < n ==> s[..n][k] == s[k];
      StartIs(s[..n], window, a);
    }
  }

  lemma StartOfSuffix(s: seq<Obs>, window: real, k: nat)
    requires k < |s|
    ensures Start(s[k..], window) == (if Start(s, window) > k then Start(s, window) else k) - k
  {
    StartSplits(s, window);
    var a := if Start(s, window) > k then Start(s, window) else k;
    assert forall i :: 0 <= i < |s| - k ==> s[k..][i] == s[k + i];
    StartIs(s[k..], window, a - k);
  }

  lemma FreshestOfSuffix(s: seq<Obs>, window: real, k: nat)
    requires k < |s|
    ensures Freshest(s[k..], window) == if Start(s, window) > k then Freshest(s, window) else s[k..]
  {
    StartOfSuffix(s, window, k);
  }

  lemma NewerFreshest(s: seq<Obs>, window: real, cutoff: real)
    requires Sorted(s) && NewerThan(s, cutoff) != []
    ensures Freshest(NewerThan(s, cutoff), window) == NewerThan(Freshest(s, window), cutoff)
  {
    var k := NewerIsSuffix(s, cutoff);
    var a := Start(s, window);
    FreshestOfSuffix(s, window, k);
    if a > k {
      AllNew(s[a..], cutoff);
    } else {
      var j := NewerIsSuffix(s[a..], cutoff);
      SuffixesAgree(s, a, k, j, cutoff);
    }
  }

  lemma SuffixesAgree(s: seq<Obs>, a: nat, k: nat, j: nat, cutoff: real)
    requires a <= k < |s| && j <= |s| - a
    requires (forall i :: 0 <= i < k ==> s[i].at <= cutoff) && (forall i :: k <= i < |s| ==> s[i].at > cutoff)
    requires forall i :: 0 <= i < j ==> s[a..][i].at <= cutoff
    requires forall i :: j <= i < |s| - a ==> s[a..][i].at > cutoff
    ensures s[k..] == s[a..][j..]
  {
    assert j < |s| - a ==> s[a..][j] == s[a + j];
    assert s[a..][k - a] == s[k];
  }

  lemma ClusterNewer(log: seq<Obs>, q: string, window: real, cutoff: real)
    ensures Cluster(NewerThan(log, cutoff), q, window) == NewerThan(Cluster(log, q, window), cutoff)
  {
    var group := OfEquipment(log, q);
    NewerOfEquipment(log, q, cutoff);
    NewerSort(group, cutoff);
    SortSorts(group);
    var s := SortByTime(group);
    if NewerThan(group, cutoff) != [] {
      NewerFreshest(s, window, cutoff);
    } else if group != [] {
      assert NewerThan(s, cutoff) == [];
      NothingNewer(s, Start(s, window), cutoff);
    }
  }

  lemma NothingNewer(s: seq<Obs>, a: nat, cutoff: real)
    requires a <= |s| && NewerThan(s, cutoff) == []
    ensures NewerThan(s[a..], cutoff) == []
  {
    forall i | 0 <= i < |s[a..]| ensures s[a..][i].at <= cutoff {
      NewerMembers(s, cutoff, s[a..][i]);
      assert s[a..][i] == s[a + i];
    }
    AllOld(s[a..], cutoff);
  }

  lemma ReportedNewer(log: seq<Obs>, q: string, window: real, maxGap: real, now: real, cutoff: real)
    requires cutoff < now - maxGap
    ensures Reported(NewerThan(log, cutoff), q, window, maxGap, now) <==> Reported(log, q, window, maxGap, now)
  {
    ReportedIffFresh(log, q, window, maxGap, now);
    ReportedIffFresh(NewerThan(log, cutoff), q, window, maxGap, now);
    if Fresh(log, q, maxGap, now) {
      var o :| o in log && o.equipment == q && now - o.at <= maxGap;
      NewerMembers(log, cutoff, o);
    }
    if Fresh(NewerThan(log, cutoff), q, maxGap, now) {
      var o :| o in NewerThan(log, cutoff) && o.equipment == q && now - o.at <= maxGap;
      NewerMembers(log, cutoff, o);
    }
  }

  ghost predicate SameReport(log: seq<Obs>, q: string, window: real, maxGap: real, now: real) {
    Reported(NewerThan(log, now - maxGap * 3.0), q, window, maxGap, now) == Reported(log, q, window, maxGap, now)
  }

  ghost predicate PruningLosesNothing(window: real, maxGap: real, now: real) {
    forall log, q :: SameReport(log, q, window, maxGap, now)
  }

  lemma SameWhenPositive(log: seq<Obs>, q: string, window: real, maxGap: real, now: real)
    requires maxGap > 0.0
    ensures SameReport(log, q, window, maxGap, now)
  {
    ReportedNewer(log, q, window, maxGap, now, now - maxGap * 3.0);
  }

  lemma JustFresh(log: seq<Obs>, o: Obs, window: real, maxGap: real, now: real)
    requires maxGap <= 0.0 && o.at == now - maxGap && log == [o]
    ensures !SameReport(log, o.equipment, window, maxGap, now)
  {
    var newer := NewerThan(log, now - maxGap * 3.0);
    AllOld(log, now - maxGap * 3.0);
    assert o in log;
    assert Fresh(log, o.equipment, maxGap, now);
    assert !Fresh(newer, o.equipment, maxGap, now);
    ReportedIffFresh(log, o.equipment, window, maxGap, now);
    ReportedIffFresh(newer, o.equipment, window, maxGap, now);
  }

  /** Keeping three gaps' worth of anomalies loses no report, for any log at all, if and only if the gap is
      positive. */
  lemma PruningIsSafe(window: real, maxGap: real, now: real)
    ensures PruningLosesNothing(window, maxGap, now) <==> maxGap > 0.0
  {
    if maxGap > 0.0 {
      forall log, q ensures SameReport(log, q, window, maxGap, now) {
        SameWhenPositive(log, q, window, maxGap, now);
      }
    } else {
      var o := Obs("", "", now - maxGap, None, None);
      JustFresh([o], o, window, maxGap, now);
    }
  }
}

/** The detection agent: rolling windows, the correlation buffer, and what it persists. */
module Detection {
  import opened Wrappers
  import opened Correlation
  import opened Pruning
  import Scoring

  // ---------------------------------------------------------------- one entry per sensor

  function SensorsOf(observations: seq<Obs>): seq<string> {
    seq(|observations|, i requires 0 <= i < |observations| => observations[i].sensor)
  }

  /** Among the first `n` observations, the k-th is the latest of its sensor, and the first of those that tie. */
  ghost predicate LatestOf(observations: seq<Obs>, n: nat, k: nat) {
    && k < n <= |observations|
    && forall j | 0 <= j < n && observations[j].sensor == observations[k].sensor ::
         observations[j].at <= observations[k].at && (j < k ==> observations[j].at < observations[k].at)
  }

  lemma SensorsExtend(observations: seq<Obs>, i: nat)
    requires i < |observations|
    ensures
      var names, sensor := FirstSeen(SensorsOf(observations[..i])), observations[i].sensor;
      FirstSeen(SensorsOf(observations[..i + 1])) == if sensor in names then names else names + [sensor]
  {
    assert SensorsOf(observations[..i + 1])[..i] == SensorsOf(observations[..i]);
  }

  lemma Unseen(observations: seq<Obs>, i: nat, sensor: string)
    requires i <= |observations| && sensor !in FirstSeen(SensorsOf(observations[..i]))
    ensures forall j :: 0 <= j < i ==> observations[j].sensor != sensor
  {
    FirstSeenOnce(SensorsOf(observations[..i]));
    forall j | 0 <= j < i ensures observations[j].sensor != sensor {
      assert SensorsOf(observations[..i])[j] == observations[j].sensor;
    }
  }

  ghost predicate Tracks(observations: seq<Obs>, n: nat, freshest: map<string, Obs>, at: map<string, nat>) {
    && freshest.Keys == at.Keys
    && forall s | s in at ::
         LatestOf(observations, n, at[s]) && observations[at[s]].sensor == s && freshest[s] == observations[at[s]]
  }

  lemma TrackLater(observations: seq<Obs>, n: nat, freshest: map<string, Obs>, at: map<string, nat>)
    requires n < |observations| && Tracks(observations, n, freshest, at)
    requires forall j :: 0 <= j < n && observations[j].sensor == observations[n].sensor ==> observations[j].at < observations[n].at
    ensures
      var o := observations[n];
      Tracks(observations, n + 1, freshest[o.sensor := o], at[o.sensor := n])
  {
  }

  lemma TrackSame(observations: seq<Obs>, n: nat, freshest: map<string, Obs>, at: map<string, nat>)
    requires n < |observations| && Tracks(observations, n, freshest, at)
    requires observations[n].sensor in freshest && observations[n].at <= freshest[observations[n].sensor].at
    ensures Tracks(observations, n + 1, freshest, at)
  {
  }

  lemma TrackedBefore(observations: seq<Obs>, n: nat, freshest: map<string, Obs>, at: map<string, nat>, o: Obs)
    requires n <= |observations| && Tracks(observations, n, freshest, at)
    requires o.sensor in freshest && freshest[o.sensor].at < o.at
    ensures forall j :: 0 <= j < n && observations[j].sensor == o.sensor ==> observations[j].at < o.at
  {
  }

  ghost predicate IsLatest(observations: seq<Obs>, e: Obs) {
    exists k: nat :: LatestOf(observations, |observations|, k) && observations[k] == e
  }

  lemma TrackedAtEnd(observations: seq<Obs>, freshest: map<string, Obs>, at: map<string, nat>, s: string)
    requires Tracks(observations, |observations|, freshest, at) && s in freshest
    ensures freshest[s].sensor == s && IsLatest(observations, freshest[s])
  {
    assert LatestOf(observations, |observations|, at[s]);
  }

  method Values(names: seq<string>, freshest: map<string, Obs>) returns (entries: seq<Obs>)
    requires forall s :: s in names ==> s in freshest
    ensures |entries| == |names| && forall i :: 0 <= i < |names| ==> entries[i] == freshest[names[i]]
  {
    entries := seq(|names|, i requires 0 <= i < |names| && names[i] in freshest => freshest[names[i]]);
  }

  /** One entry for each distinct sensor, in order of first appearance: that sensor's latest observation. */
  method FreshestPerSensor(observations: seq<Obs>) returns (entries: seq<Obs>)
    ensures SensorsOf(entries) == FirstSeen(SensorsOf(observations))
    ensures forall i :: 0 <= i < |entries| ==> IsLatest(observations, entries[i])
  {
    var names: seq<string> := [];
    var freshest: map<string, Obs> := map[];
    ghost var at: map<string, nat> := map[];
    for n := 0 to |observations|
      invariant names == FirstSeen(SensorsOf(observations[..n]))
      invariant forall s :: s in names <==> s in freshest
      invariant Tracks(observations, n, freshest, at)
    {
      var o := observations[n];
      SensorsExtend(observations, n);
      if o.sensor !in freshest {
        Unseen(observations, n, o.sensor);
        TrackLater(observations, n, freshest, at);
        names := names + [o.sensor];
        freshest, at := freshest[o.sensor := o], at[o.sensor := n];
      } else if o.at > freshest[o.sensor].at {
        TrackedBefore(observations, n, freshest, at, o);
        TrackLater(observations, n, freshest, at);
        freshest, at := freshest[o.sensor := o], at[o.sensor := n];
      } else {
        TrackSame(observations, n, freshest, at);
      }
    }
    assert observations[..|observations|] == observations;
    entries := Values(names, freshest);
    forall i | 0 <= i < |names| ensures entries[i].sensor == names[i] && IsLatest(observations, entries[i]) {
      TrackedAtEnd(observations, freshest, at, names[i]);
    }
    assert SensorsOf(entries) == names;
  }

  function Margins(entries: seq<Obs>): seq<Option<real>> {
    seq(|entries|, i requires 0 <= i < |entries| => entries[i].staticMargin)
  }

  function Drifts(entries: seq<Obs>): seq<Option<real>> {
    seq(|entries|, i requires 0 <= i < |entries| => entries[i].driftZ)
  }

  /** The observation is at least so far outside its band, or off its mean. */
  predicate Exceeding(o: Obs, margin: real, drift: real) {
    (o.staticMargin.Some? && o.staticMargin.value >= margin) || (o.driftZ.Some? && o.driftZ.value >= drift)
  }

  lemma ReachesIff(entries: seq<Obs>, margin: real, drift: real)
    ensures Scoring.Reaches(Margins(entries), margin) || Scoring.Reaches(Drifts(entries), drift)
      <==> exists e :: e in entries && Exceeding(e, margin, drift)
  {
    if e :| e in entries && Exceeding(e, margin, drift) {
      var i :| 0 <= i < |entries| && entries[i] == e;
      assert Margins(entries)[i] == e.staticMargin && Drifts(entries)[i] == e.driftZ;
    }
    if Scoring.Reaches(Margins(entries), margin) {
      var i :| 0 <= i < |entries| && Margins(entries)[i].Some? && Margins(entries)[i].value >= margin;
      assert entries[i] in entries && Exceeding(entries[i], margin, drift);
    }
    if Scoring.Reaches(Drifts(entries), drift) {
      var i :| 0 <= i < |entries| && Drifts(entries)[i].Some? && Drifts(entries)[i].value >= drift;
      assert entries[i] in entries && Exceeding(entries[i], margin, drift);
    }
  }

  /** The summary folded into the incident, and its severity: both from the latest entry of each sensor only. */
  method Summarise(observations: seq<Obs>) returns (entries: seq<Obs>, severity: Scoring.Label)
    ensures SensorsOf(entries) == FirstSeen(SensorsOf(observations))
    ensures forall i :: 0 <= i < |entries| ==> IsLatest(observations, entries[i])
    ensures severity == Scoring.Labelled(Scoring.Ratios(Margins(entries), Drifts(entries)))
    ensures severity == Scoring.HighLabel <==> exists e :: e in entries && Exceeding(e, 0.5, 10.0)
    ensures severity == Scoring.LowLabel <==> !exists e :: e in entries && Exceeding(e, 0.15, 3.0)
  {
    entries := FreshestPerSensor(observations);
    ReachesIff(entries, 0.5, 10.0);
    ReachesIff(entries, 0.15, 3.0);
    severity := Scoring.SeverityFromScore(Margins(entries), Drifts(entries));
  }

  // ---------------------------------------------------------------- the agent

  /** Pushing on a cut list and cutting again is pushing on the full list and cutting once. */
  lemma TrimAgain(value: real, list: seq<real>, windowSize: nat)
    ensures Scoring.Pushed(Scoring.Trim(list, windowSize - 1), value, windowSize)
      == Scoring.Pushed(list, value, windowSize)
  {
  }

  function Persisted(observations: seq<Obs>, q: string, window: real, maxGap: real, now: real): seq<Correlated> {
    if Reported(observations, q, window, maxGap, now) then [Correlated(q, Cluster(observations, q, window))] else []
  }

  function Matching(correlated: seq<Correlated>, q: string): seq<Correlated> {
    if correlated == [] then []
    else
      var rest, last := Matching(correlated[..|correlated| - 1], q), correlated[|correlated| - 1];
      if last.equipment == q then rest + [last] else rest
  }

  lemma {:induction false} NoMatch(correlated: seq<Correlated>, q: string)
    requires forall c :: c in correlated ==> c.equipment != q
    ensures Matching(correlated, q) == []
  {
    if correlated != [] {
      assert correlated[|correlated| - 1] in correlated;
      NoMatch(correlated[..|correlated| - 1], q);
    }
  }

  lemma {:induction false} OneMatch(correlated: seq<Correlated>, c: Correlated)
    requires c in correlated
    requires forall i, j :: 0 <= i < j < |correlated| ==> correlated[i].equipment != correlated[j].equipment
    ensures Matching(correlated, c.equipment) == [c]
  {
    var front, last := correlated[..|correlated| - 1], correlated[|correlated| - 1];
    assert correlated == front + [last];
    if last == c { NoMatch(front, c.equipment); } else { OneMatch(front, c); }
  }

  /** At most one correlated anomaly matches, and it is the one of that equipment. */
  lemma MatchingReports(observations: seq<Obs>, q: string, window: real, maxGap: real, now: real)
    ensures Matching(ActiveClusters(observations, window, maxGap, now), q)
      == Persisted(observations, q, window, maxGap, now)
  {
    var r := ActiveClusters(observations, window, maxGap, now);
    CorrelationReports(observations, window, maxGap, now);
    ReportedIffFresh(observations, q, window, maxGap, now);
    if Fresh(observations, q, maxGap, now) {
      var c :| c in r && c.equipment == q;
      OneMatch(r, c);
    } else {
      NoMatch(r, q);
    }
  }

  method PersistFor(correlated: seq<Correlated>, q: string) returns (persisted: seq<Correlated>)
    ensures persisted == Matching(correlated, q)
  {
    persisted := [];
    for i := 0 to |correlated|
      invariant persisted == Matching(correlated[..i], q)
    {
      assert correlated[..i + 1][..i] == correlated[..i];
      if correlated[i].equipment == q { persisted := persisted + [correlated[i]]; }
    }
    assert correlated[..|correlated|] == correlated;
  }

  /** What the pruned log persists, in terms of the whole log. */
  lemma PersistedNewer(log: seq<Obs>, q: string, window: real, maxGap: real, now: real, cutoff: real)
    requires cutoff < now - maxGap
    ensures Persisted(NewerThan(log, cutoff), q, window, maxGap, now)
      == if Fresh(log, q, maxGap, now) then [Correlated(q, NewerThan(Cluster(log, q, window), cutoff))] else []
  {
    ReportedNewer(log, q, window, maxGap, now, cutoff);
    ReportedIffFresh(log, q, window, maxGap, now);
    ClusterNewer(log, q, window, cutoff);
  }

  lemma PruneOnce(log: seq<Obs>, obs: Obs, earlier: real, later: real)
    requires earlier <= later
    ensures NewerThan(NewerThan(log, earlier) + [obs], later) == NewerThan(log + [obs], later)
  {
    NewerAppend(log, obs, later);
    NewerAppend(NewerThan(log, earlier), obs, later);
    NewerTwice(log, earlier, later);
  }

  class DetectionAgent {
    const correlationWindow: real
    const maxGap: real
    const windowSize: nat
    var buffer: seq<Obs>
    var windows: map<string, seq<real>>
    /** Every anomaly registered so far, and every reading of each sensor, newest first. */
    ghost var log: seq<Obs>
    ghost var readings: map<string, seq<real>>
    ghost var clock: real

    function Cutoff(now: real): real { now - maxGap * 3.0 }

    ghost predicate Valid()
      reads this
    {
      && buffer == NewerThan(log, Cutoff(clock))
      && windows.Keys == readings.Keys
      && forall s | s in readings :: windows[s] == Scoring.Trim(readings[s], windowSize - 1)
    }

    constructor (correlationWindow: real, maxGap: real, windowSize: nat, ghost startedAt: real)
      ensures Valid() && buffer == [] && log == [] && readings == map[] && clock == startedAt
      ensures this.correlationWindow == correlationWindow && this.maxGap == maxGap && this.windowSize == windowSize
    {
      this.correlationWindow, this.maxGap, this.windowSize := correlationWindow, maxGap, windowSize;
      buffer, windows := [], map[];
      log, readings, clock := [], map[], startedAt;
    }

    ghost function Readings(sensor: string): seq<real>
      reads this
    {
      if sensor in readings then readings[sensor] else []
    }

    /** The stored list is always the newest `windowSize` readings, so the baseline is that of a true window. */
    method UpdateBaseline(sensor: string, value: real, deviation: real) returns (baseline: Scoring.BaselineStats)
      requires Valid()
      modifies this`windows, this`readings
      ensures Valid() && readings == old(readings)[sensor := [value] + old(Readings(sensor))]
      ensures baseline == Scoring.ComputeBaseline(Scoring.Trim(Readings(sensor), windowSize - 1), deviation)
    {
      var list := if sensor in windows then windows[sensor] else [];
      TrimAgain(value, Readings(sensor), windowSize);
      var window := Scoring.Pushed(list, value, windowSize);
      readings := readings[sensor := [value] + Readings(sensor)];
      windows := windows[sensor := window];
      baseline := Scoring.ComputeBaseline(window, deviation);
    }

    method PruneBuffer(now: real)
      modifies this`buffer
      ensures buffer == NewerThan(old(buffer), Cutoff(now))
    {
      var all, cutoff := buffer, Cutoff(now);
      var kept: seq<Obs> := [];
      for i := 0 to |all|
        invariant kept == NewerThan(all[..i], cutoff)
      {
        assert all[..i + 1][..i] == all[..i];
        if all[i].at > cutoff { kept := kept + [all[i]]; }
      }
      assert all[..|all|] == all;
      buffer := kept;
    }

    /** After every registration the buffer is the whole log cut at the latest cutoff. */
    method Remember(obs: Obs, now: real)
      requires Valid() && clock <= now
      modifies this`buffer, this`log, this`clock
      ensures Valid() && log == old(log) + [obs] && clock == now
      ensures buffer == NewerThan(log, Cutoff(now))
      ensures forall o :: o in buffer <==> o in log && o.at > now - 3.0 * maxGap
    {
      PruneOnce(log, obs, Cutoff(clock), Cutoff(now));
      buffer := buffer + [obs];
      PruneBuffer(now);
      log := log + [obs];
      clock := now;
      forall o ensures o in buffer <==> o in log && o.at > now - 3.0 * maxGap { NewerMembers(log, Cutoff(now), o); }
    }

    /** The pruned buffer answers for the whole log: with a positive gap, the anomaly's equipment is persisted
        exactly when the log has a fresh anomaly for it, with the part of its cluster that is not yet pruned. */
    method RegisterAnomaly(obs: Obs, pruneTime: real, correlateTime: real) returns (persisted: seq<Correlated>)
      requires Valid() && clock <= pruneTime <= correlateTime
      modifies this`buffer, this`log, this`clock
      ensures Valid() && log == old(log) + [obs] && clock == pruneTime
      ensures persisted == Persisted(buffer, obs.equipment, correlationWindow, maxGap, correlateTime)
      ensures maxGap > 0.0 ==> Faithful(persisted, obs, correlateTime)
      ensures maxGap > 0.0 && persisted != [] ==>
        forall o :: o in persisted[0].sensors
          <==> o in Cluster(log, obs.equipment, correlationWindow) && o.at > pruneTime - 3.0 * maxGap
    {
      Remember(obs, pruneTime);
      var correlated := CorrelateAnomalies(buffer, correlationWindow, maxGap, correlateTime);
      persisted := PersistFor(correlated, obs.equipment);
      MatchingReports(buffer, obs.equipment, correlationWindow, maxGap, correlateTime);
      if maxGap > 0.0 {
        PersistedNewer(log, obs.equipment, correlationWindow, maxGap, correlateTime, Cutoff(pruneTime));
        var cluster := Cluster(log, obs.equipment, correlationWindow);
        forall o ensures o in NewerThan(cluster, Cutoff(pruneTime)) <==> o in cluster && o.at > pruneTime - 3.0 * maxGap {
          NewerMembers(cluster, Cutoff(pruneTime), o);
        }
      }
    }

    ghost predicate Faithful(persisted: seq<Correlated>, obs: Obs, now: real)
      reads this
    {
      persisted == if Fresh(log, obs.equipment, maxGap, now)
        then [Correlated(obs.equipment, NewerThan(Cluster(log, obs.equipment, correlationWindow), Cutoff(clock)))]
        else []
    }
  }
}
