/** Anomalous observations grouped into one correlated anomaly for each piece of equipment. */
module Correlation {
  import opened Wrappers

  datatype Obs = Obs(
    equipment: string, sensor: string, at: real, staticMargin: Option<real>, driftZ: Option<real>)

  datatype Correlated = Correlated(equipment: string, sensors: seq<Obs>)

  // ---------------------------------------------------------------- grouping

  function OfEquipment(observations: seq<Obs>, q: string): seq<Obs> {
    if observations == [] then []
    else
      var rest, last := OfEquipment(observations[..|observations| - 1], q), observations[|observations| - 1];
      if last.equipment == q then rest + [last] else rest
  }

  lemma {:induction false} GroupMembers(observations: seq<Obs>, q: string, o: Obs)
    ensures o in OfEquipment(observations, q) <==> o in observations && o.equipment == q
  {
    if observations != [] {
      var front, last := observations[..|observations| - 1], observations[|observations| - 1];
      assert observations == front + [last];
      GroupMembers(front, q, o);
    }
  }

  /** The keys of a dictionary filled from `names`, in its insertion order. */
  function FirstSeen(names: seq<string>): seq<string> {
    if names == [] then []
    else
      var rest, last := FirstSeen(names[..|names| - 1]), names[|names| - 1];
      if last in rest then rest else rest + [last]
  }

  lemma {:induction false} FirstSeenOnce(names: seq<string>)
    ensures forall n :: n in FirstSeen(names) <==> n in names
    ensures forall i, j :: 0 <= i < j < |FirstSeen(names)| ==> FirstSeen(names)[i] != FirstSeen(names)[j]
  {
    if names != [] {
      FirstSeenOnce(names[..|names| - 1]);
      assert names == names[..|names| - 1] + [names[|names| - 1]];
    }
  }

  /** Some occurrence of the one name comes before every occurrence of the other. */
  ghost predicate SeenBefore(names: seq<string>, a: string, b: string) {
    exists i :: 0 <= i < |names| && names[i] == a && forall j :: 0 <= j <= i ==> names[j] != b
  }

  lemma SeenLater(names: seq<string>, last: string, a: string, b: string)
    requires SeenBefore(names, a, b)
    ensures SeenBefore(names + [last], a, b)
  {
    var i :| 0 <= i < |names| && names[i] == a && forall j :: 0 <= j <= i ==> names[j] != b;
    assert (names + [last])[i] == a;
  }

  /** The keys stand in the order of their first appearance. */
  lemma {:induction false} FirstSeenInOrder(names: seq<string>)
    ensures forall i, j :: 0 <= i < j < |FirstSeen(names)| ==> SeenBefore(names, FirstSeen(names)[i], FirstSeen(names)[j])
  {
    if names != [] {
      var front, last := names[..|names| - 1], names[|names| - 1];
      FirstSeenInOrder(front);
      FirstSeenOnce(front);
      assert names == front + [last];
      var keys, before := FirstSeen(names), FirstSeen(front);
      forall i, j | 0 <= i < j < |keys| ensures SeenBefore(names, keys[i], keys[j]) {
        if j < |before| {
          SeenLater(front, last, keys[i], keys[j]);
        } else {
          assert keys[i] in front && last !in front;
          var k :| 0 <= k < |front| && front[k] == keys[i];
          assert names[k] == keys[i];
        }
      }
    }
  }

  function EquipmentsOf(observations: seq<Obs>): (names: seq<string>)
    ensures |names| == |observations| && forall i :: 0 <= i < |names| ==> names[i] == observations[i].equipment
  {
    seq(|observations|, i requires 0 <= i < |observations| => observations[i].equipment)
  }

  // ---------------------------------------------------------------- sorting by time

  ghost predicate Sorted(s: seq<Obs>) {
    forall i, j :: 0 <= i < j < |s| ==> s[i].at <= s[j].at
  }

  function Insert(s: seq<Obs>, x: Obs): (r: seq<Obs>)
    ensures multiset(r) == multiset(s) + multiset{x} && |r| == |s| + 1
  {
    if s == [] || s[|s| - 1].at <= x.at then s + [x]
    else
      var front, last := s[..|s| - 1], s[|s| - 1];
      assert s == front + [last];
      Insert(front, x) + [last]
  }

  /** The stable sort by observation time. */
  function SortByTime(s: seq<Obs>): (r: seq<Obs>)
    ensures multiset(r) == multiset(s) && |r| == |s|
  {
    if s == [] then []
    else
      var front, last := s[..|s| - 1], s[|s| - 1];
      assert s == front + [last];
      Insert(SortByTime(front), last)
  }

  lemma SameMembers(a: seq<Obs>, b: seq<Obs>)
    requires multiset(a) == multiset(b)
    ensures forall o :: o in a <==> o in b
  {
    forall o ensures o in a <==> o in b {
      assert o in a <==> multiset(a)[o] > 0;
      assert o in b <==> multiset(b)[o] > 0;
    }
  }

  lemma InsertMembers(s: seq<Obs>, x: Obs)
    ensures forall o :: o in Insert(s, x) <==> o in s || o == x
  {
    assert multiset(Insert(s, x)) == multiset(s + [x]);
    SameMembers(Insert(s, x), s + [x]);
  }

  lemma {:induction false} InsertSorted(s: seq<Obs>, x: Obs)
    requires Sorted(s)
    ensures Sorted(Insert(s, x))
  {
    if s != [] && s[|s| - 1].at > x.at {
      InsertSorted(s[..|s| - 1], x);
      InsertMembers(s[..|s| - 1], x);
      var r := Insert(s[..|s| - 1], x);
      forall i | 0 <= i < |r| ensures r[i].at <= s[|s| - 1].at { assert r[i] in r; }
    }
  }

  lemma {:induction false} SortSorts(s: seq<Obs>)
    ensures Sorted(SortByTime(s))
  {
    if s != [] {
      SortSorts(s[..|s| - 1]);
      InsertSorted(SortByTime(s[..|s| - 1]), s[|s| - 1]);
    }
  }

  /** The observations of one time, in order. */
  function AtTime(s: seq<Obs>, time: real): seq<Obs> {
    if s == [] then []
    else
      var rest, last := AtTime(s[..|s| - 1], time), s[|s| - 1];
      if last.at == time then rest + [last] else rest
  }

  lemma AtTimeMore(s: seq<Obs>, x: Obs, time: real)
    ensures AtTime(s + [x], time) == AtTime(s, time) + if x.at == time then [x] else []
  {
    assert (s + [x])[..|s|] == s;
  }

  lemma {:induction false} InsertStable(s: seq<Obs>, x: Obs, time: real)
    requires Sorted(s)
    ensures AtTime(Insert(s, x), time) == AtTime(s, time) + if x.at == time then [x] else []
  {
    if s == [] || s[|s| - 1].at <= x.at {
      AtTimeMore(s, x, time);
    } else {
      var front, last := s[..|s| - 1], s[|s| - 1];
      InsertStable(front, x, time);
      AtTimeMore(Insert(front, x), last, time);
      if last.at == time { NoneAtTime(front, x, time); }
    }
  }

  /** Nothing to be reordered: what is inserted before the last time is not of that time. */
  lemma NoneAtTime(front: seq<Obs>, x: Obs, time: real)
    requires x.at < time
    ensures AtTime(front, time) + (if x.at == time then [x] else []) == AtTime(front, time)
  {
  }

  /** Sorting keeps the order of the observations of each time. */
  lemma {:induction false} SortStable(s: seq<Obs>, time: real)
    ensures AtTime(SortByTime(s), time) == AtTime(s, time)
  {
    if s != [] {
      SortStable(s[..|s| - 1], time);
      SortSorts(s[..|s| - 1]);
      InsertStable(SortByTime(s[..|s| - 1]), s[|s| - 1], time);
    }
  }

  // ---------------------------------------------------------------- the freshest cluster

  /** Where the last cluster of a time-ordered list starts. */
  function Start(s: seq<Obs>, window: real): (a: nat)
    requires s != []
    ensures a < |s|
  {
    var n := |s| - 1;
    if n > 0 && s[n].at - s[n - 1].at <= window then Start(s[..n], window) else n
  }

  function Freshest(s: seq<Obs>, window: real): (cluster: seq<Obs>)
    requires s != []
    ensures cluster != [] && cluster[|cluster| - 1] == s[|s| - 1]
  {
    s[Start(s, window)..]
  }

  /** The cluster of one piece of equipment that may still be active. */
  function Cluster(observations: seq<Obs>, q: string, window: real): seq<Obs> {
    var group := OfEquipment(observations, q);
    if group == [] then [] else Freshest(SortByTime(group), window)
  }

  lemma EquipmentKnown(observations: seq<Obs>, q: string)
    ensures q in EquipmentsOf(observations) <==> OfEquipment(observations, q) != []
  {
    var names, group := EquipmentsOf(observations), OfEquipment(observations, q);
    if q in names {
      var i :| 0 <= i < |names| && names[i] == q;
      GroupMembers(observations, q, observations[i]);
    }
    if group != [] {
      GroupMembers(observations, q, group[0]);
      assert group[0] in observations;
      var i :| 0 <= i < |observations| && observations[i] == group[0];
      assert names[i] == q;
    }
  }

  predicate Reported(observations: seq<Obs>, q: string, window: real, maxGap: real, now: real) {
    var cluster := Cluster(observations, q, window);
    cluster != [] && now - cluster[|cluster| - 1].at <= maxGap
  }

  function Reports(observations: seq<Obs>, keys: seq<string>, window: real, maxGap: real, now: real): seq<Correlated> {
    if keys == [] then []
    else
      var rest, q := Reports(observations, keys[..|keys| - 1], window, maxGap, now), keys[|keys| - 1];
      if Reported(observations, q, window, maxGap, now) then rest + [Correlated(q, Cluster(observations, q, window))]
      else rest
  }

  function ActiveClusters(observations: seq<Obs>, window: real, maxGap: real, now: real): seq<Correlated> {
    Reports(observations, FirstSeen(EquipmentsOf(observations)), window, maxGap, now)
  }

  lemma GroupExtend(observations: seq<Obs>, obs: Obs, q: string)
    ensures OfEquipment(observations + [obs], q)
      == OfEquipment(observations, q) + if obs.equipment == q then [obs] else []
  {
    assert (observations + [obs])[..|observations|] == observations;
  }

  lemma KeysExtend(observations: seq<Obs>, obs: Obs)
    ensures
      var keys := FirstSeen(EquipmentsOf(observations));
      FirstSeen(EquipmentsOf(observations + [obs])) == if obs.equipment in keys then keys else keys + [obs.equipment]
  {
    assert EquipmentsOf(observations + [obs])[..|observations|] == EquipmentsOf(observations);
  }

  lemma UnseenGroup(observations: seq<Obs>, q: string)
    requires q !in FirstSeen(EquipmentsOf(observations))
    ensures OfEquipment(observations, q) == []
  {
    FirstSeenOnce(EquipmentsOf(observations));
    EquipmentKnown(observations, q);
  }

  ghost predicate Grouped(observations: seq<Obs>, keys: seq<string>, groups: map<string, seq<Obs>>) {
    && keys == FirstSeen(EquipmentsOf(observations))
    && (forall q :: q in groups <==> q in keys)
    && (forall q :: q in groups ==> groups[q] == OfEquipment(observations, q))
  }

  /** One more observation under its equipment's key, which is new or keeps its place. */
  lemma GroupStep(observations: seq<Obs>, obs: Obs, keys: seq<string>, groups: map<string, seq<Obs>>)
    requires Grouped(observations, keys, groups)
    ensures
      var q := obs.equipment;
      if q in groups then Grouped(observations + [obs], keys, groups[q := groups[q] + [obs]])
      else Grouped(observations + [obs], keys + [q], groups[q := [obs]])
  {
    KeysExtend(observations, obs);
    if obs.equipment !in groups { UnseenGroup(observations, obs.equipment); }
    forall q ensures OfEquipment(observations + [obs], q)
      == OfEquipment(observations, q) + if obs.equipment == q then [obs] else [] {
      GroupExtend(observations, obs, q);
    }
  }

  method Group(observations: seq<Obs>) returns (keys: seq<string>, groups: map<string, seq<Obs>>)
    ensures Grouped(observations, keys, groups)
  {
    keys, groups := [], map[];
    for i := 0 to |observations|
      invariant Grouped(observations[..i], keys, groups)
    {
      var obs := observations[i];
      GroupStep(observations[..i], obs, keys, groups);
      assert observations[..i + 1] == observations[..i] + [obs];
      if obs.equipment !in groups {
        keys := keys + [obs.equipment];
        groups := groups[obs.equipment := [obs]];
      } else {
        groups := groups[obs.equipment := groups[obs.equipment] + [obs]];
      }
    }
    assert observations[..|observations|] == observations;
  }

  lemma FreshestNext(s: seq<Obs>, i: nat, window: real)
    requires 0 < i < |s|
    ensures Freshest(s[..i + 1], window)
      == if s[i].at - s[i - 1].at <= window then Freshest(s[..i], window) + [s[i]] else [s[i]]
  {
    assert s[..i + 1][..i] == s[..i];
  }

  method FreshestCluster(sorted: seq<Obs>, window: real) returns (freshest: seq<Obs>)
    requires sorted != []
    ensures freshest == Freshest(sorted, window)
  {
    var clusters: seq<seq<Obs>> := [];
    for i := 0 to |sorted|
      invariant clusters == [] <==> i == 0
      invariant i > 0 ==> clusters[|clusters| - 1] == Freshest(sorted[..i], window)
    {
      var obs := sorted[i];
      if i > 0 { FreshestNext(sorted, i, window); }
      var n := |clusters| - 1;
      if clusters != [] && obs.at - clusters[n][|clusters[n]| - 1].at <= window {
        clusters := clusters[n := clusters[n] + [obs]];
      } else {
        clusters := clusters + [[obs]];
      }
    }
    assert sorted[..|sorted|] == sorted;
    freshest := clusters[|clusters| - 1];
  }

  lemma ReportsExtend(observations: seq<Obs>, keys: seq<string>, q: string, window: real, maxGap: real, now: real)
    ensures Reports(observations, keys + [q], window, maxGap, now) == Reports(observations, keys, window, maxGap, now)
      + if Reported(observations, q, window, maxGap, now) then [Correlated(q, Cluster(observations, q, window))] else []
  {
    assert (keys + [q])[..|keys|] == keys;
  }

  lemma GroupOfKey(observations: seq<Obs>, q: string)
    requires q in FirstSeen(EquipmentsOf(observations))
    ensures OfEquipment(observations, q) != []
  {
    FirstSeenOnce(EquipmentsOf(observations));
    EquipmentKnown(observations, q);
  }

  /** One round of the loop over the equipment. */
  lemma NextReport(observations: seq<Obs>, keys: seq<string>, i: nat, cluster: seq<Obs>,
                   window: real, maxGap: real, now: real)
    requires i < |keys| && cluster == Cluster(observations, keys[i], window) && cluster != []
    ensures Reports(observations, keys[..i + 1], window, maxGap, now)
      == Reports(observations, keys[..i], window, maxGap, now)
      + if now - cluster[|cluster| - 1].at <= maxGap then [Correlated(keys[i], cluster)] else []
  {
    assert keys[..i + 1] == keys[..i] + [keys[i]];
    ReportsExtend(observations, keys[..i], keys[i], window, maxGap, now);
  }

  method CorrelateAnomalies(observations: seq<Obs>, window: real, maxGap: real, now: real)
      returns (incidents: seq<Correlated>)
    ensures incidents == ActiveClusters(observations, window, maxGap, now)
  {
    var keys, groups := Group(observations);
    incidents := [];
    for i := 0 to |keys|
      invariant incidents == Reports(observations, keys[..i], window, maxGap, now)
    {
      GroupOfKey(observations, keys[i]);
      var obsList := SortByTime(groups[keys[i]]);
      var freshest := FreshestCluster(obsList, window);
      NextReport(observations, keys, i, freshest, window, maxGap, now);
      var age := now - freshest[|freshest| - 1].at;
      if age <= maxGap {
        incidents := incidents + [Correlated(keys[i], freshest)];
      }
    }
    assert keys[..|keys|] == keys;
  }

  // ---------------------------------------------------------------- what is reported

  /** Each piece of equipment is reported at most once, exactly when its newest anomaly is fresh. */
  lemma {:induction false} ReportsMembers(
      observations: seq<Obs>, keys: seq<string>, window: real, maxGap: real, now: real)
    requires forall i, j :: 0 <= i < j < |keys| ==> keys[i] != keys[j]
    ensures
      var r := Reports(observations, keys, window, maxGap, now);
      && (forall c :: c in r <==> c.equipment in keys && Reported(observations, c.equipment, window, maxGap, now)
                                  && c.sensors == Cluster(observations, c.equipment, window))
      && (forall i, j :: 0 <= i < j < |r| ==> r[i].equipment != r[j].equipment)
  {
    if keys != [] {
      var front, q := keys[..|keys| - 1], keys[|keys| - 1];
      ReportsMembers(observations, front, window, maxGap, now);
      assert keys == front + [q];
      ReportsExtend(observations, front, q, window, maxGap, now);
      var before := Reports(observations, front, window, maxGap, now);
      forall i | 0 <= i < |before| ensures before[i].equipment != q { assert before[i] in before; }
    }
  }

  /** The reports are of these keys, in their order. */
  ghost predicate InKeyOrder(r: seq<Correlated>, keys: seq<string>, at: seq<nat>) {
    && |at| == |r| && (forall i, j :: 0 <= i < j < |at| ==> at[i] < at[j])
    && forall i :: 0 <= i < |at| ==> at[i] < |keys| && r[i].equipment == keys[at[i]]
  }

  lemma KeyOrderMore(r: seq<Correlated>, keys: seq<string>, at: seq<nat>, q: string, sensors: seq<Obs>)
    requires InKeyOrder(r, keys, at)
    ensures InKeyOrder(r, keys + [q], at)
    ensures InKeyOrder(r + [Correlated(q, sensors)], keys + [q], at + [|keys|])
  {
  }

  lemma {:induction false} ReportsInOrder(
      observations: seq<Obs>, keys: seq<string>, window: real, maxGap: real, now: real) returns (at: seq<nat>)
    ensures InKeyOrder(Reports(observations, keys, window, maxGap, now), keys, at)
  {
    at := [];
    if keys != [] {
      var front, q := keys[..|keys| - 1], keys[|keys| - 1];
      at := ReportsInOrder(observations, front, window, maxGap, now);
      KeyOrderMore(Reports(observations, front, window, maxGap, now), front, at, q, Cluster(observations, q, window));
      assert keys == front + [q];
      ReportsExtend(observations, front, q, window, maxGap, now);
      var before := Reports(observations, front, window, maxGap, now);
      if Reported(observations, q, window, maxGap, now) { at := at + [|front|]; } else { assert before + [] == before; }
    }
  }

  /** Some observation of `q` is at most `maxGap` old. */
  ghost predicate Fresh(observations: seq<Obs>, q: string, maxGap: real, now: real) {
    exists o :: o in observations && o.equipment == q && now - o.at <= maxGap
  }

  lemma SortedGroup(observations: seq<Obs>, q: string)
    ensures
      var s := SortByTime(OfEquipment(observations, q));
      && Sorted(s) && |s| == |OfEquipment(observations, q)|
      && forall o :: o in s <==> o in observations && o.equipment == q
  {
    SortSorts(OfEquipment(observations, q));
    SameMembers(SortByTime(OfEquipment(observations, q)), OfEquipment(observations, q));
    forall o ensures o in OfEquipment(observations, q) <==> o in observations && o.equipment == q {
      GroupMembers(observations, q, o);
    }
  }

  lemma NewestDecides(s: seq<Obs>, maxGap: real, now: real)
    requires Sorted(s) && s != []
    ensures now - s[|s| - 1].at <= maxGap <==> exists o :: o in s && now - o.at <= maxGap
  {
    assert s[|s| - 1] in s;
  }

  lemma ClusterEnd(observations: seq<Obs>, q: string, window: real)
    ensures
      var s, cluster := SortByTime(OfEquipment(observations, q)), Cluster(observations, q, window);
      (cluster == [] <==> s == []) && (s != [] ==> cluster[|cluster| - 1] == s[|s| - 1])
  {
  }

  lemma ReportedIffFresh(observations: seq<Obs>, q: string, window: real, maxGap: real, now: real)
    ensures Reported(observations, q, window, maxGap, now) <==> Fresh(observations, q, maxGap, now)
  {
    SortedGroup(observations, q);
    ClusterEnd(observations, q, window);
    var s := SortByTime(OfEquipment(observations, q));
    if s != [] { NewestDecides(s, maxGap, now); }
  }

  // ---------------------------------------------------------------- graph components

  /** `chain` leads from a newest observation of the group to `o`, in steps of at most `window`. */
  ghost predicate IsChain(group: seq<Obs>, window: real, chain: seq<Obs>, o: Obs) {
    && chain != [] && chain[|chain| - 1] == o
    && (forall c :: c in chain ==> c in group)
    && (forall g :: g in group ==> g.at <= chain[0].at)
    && (forall k :: 0 < k < |chain| ==> Near(chain[k - 1], chain[k], window))
  }

  predicate Near(a: Obs, b: Obs, window: real) {
    -window <= a.at - b.at <= window
  }

  ghost predicate Linked(group: seq<Obs>, window: real, o: Obs) {
    exists chain :: IsChain(group, window, chain, o)
  }

  /** The multiset of observations linked to the newest one: the component of the newest observation. */
  ghost predicate IsComponent(group: seq<Obs>, window: real, cluster: multiset<Obs>) {
    forall o :: cluster[o] == if Linked(group, window, o) then multiset(group)[o] else 0
  }

  /** Every gap inside the last cluster is within the window, and the gap before it is not. */
  lemma {:induction false} StartSplits(s: seq<Obs>, window: real)
    requires s != []
    ensures forall k :: Start(s, window) < k < |s| ==> s[k].at - s[k - 1].at <= window
    ensures Start(s, window) > 0 ==> s[Start(s, window)].at - s[Start(s, window) - 1].at > window
  {
    var n := |s| - 1;
    if n > 0 && s[n].at - s[n - 1].at <= window {
      StartSplits(s[..n], window);
      assert forall k :: 0 <= k < n ==> s[..n][k] == s[k];
    }
  }

  lemma {:induction false} LinkDown(s: seq<Obs>, window: real, k: nat)
    requires Sorted(s) && s != [] && Start(s, window) <= k < |s|
    ensures Linked(s, window, s[k])
    decreases |s| - k
  {
    if k == |s| - 1 {
      assert IsChain(s, window, [s[k]], s[k]);
    } else {
      LinkDown(s, window, k + 1);
      StartSplits(s, window);
      var chain :| IsChain(s, window, chain, s[k + 1]);
      ExtendChain(s, window, chain, s[k + 1], s[k]);
    }
  }

  lemma ExtendChain(group: seq<Obs>, window: real, chain: seq<Obs>, o: Obs, next: Obs)
    requires IsChain(group, window, chain, o) && next in group && Near(o, next, window)
    ensures Linked(group, window, next)
  {
    assert IsChain(group, window, chain + [next], next);
  }

  /** A step of at most the window from within the last cluster's times stays within them. */
  lemma StepStaysAbove(s: seq<Obs>, window: real, previous: Obs, o: Obs)
    requires Sorted(s) && s != [] && o in s && Near(previous, o, window) && previous.at >= s[Start(s, window)].at
    ensures o.at >= s[Start(s, window)].at
  {
    var a := Start(s, window);
    var k :| 0 <= k < |s| && s[k] == o;
    StartSplits(s, window);
    assert forall i :: 0 <= i < a ==> s[i].at <= s[a - 1].at;
  }

  /** No chain crosses the gap before the last cluster. */
  lemma {:induction false} ChainStaysAbove(s: seq<Obs>, window: real, chain: seq<Obs>, o: Obs)
    requires Sorted(s) && s != [] && IsChain(s, window, chain, o)
    ensures o.at >= s[Start(s, window)].at
    decreases |chain|
  {
    if |chain| == 1 {
      assert s[Start(s, window)] in s;
    } else {
      var front := chain[..|chain| - 1];
      var previous := front[|front| - 1];
      assert IsChain(s, window, front, previous);
      ChainStaysAbove(s, window, front, previous);
      assert Near(previous, o, window);
      assert o in chain;
      StepStaysAbove(s, window, previous, o);
    }
  }

  /** Splitting a time-ordered list where time strictly grows splits its multiset by time. */
  lemma SplitByTime(s: seq<Obs>, a: nat, o: Obs)
    requires Sorted(s) && a < |s| && (a > 0 ==> s[a - 1].at < s[a].at)
    ensures multiset(s[a..])[o] == if o.at >= s[a].at then multiset(s)[o] else 0
  {
    SplitCount(s[..a], s[a..], o, s[a].at);
    assert s == s[..a] + s[a..];
  }

  lemma SplitCount(before: seq<Obs>, after: seq<Obs>, o: Obs, time: real)
    requires (forall x :: x in before ==> x.at < time) && (forall x :: x in after ==> x.at >= time)
    ensures multiset(after)[o] == if o.at >= time then multiset(before + after)[o] else 0
  {
  }

  lemma LinkedInSuffix(s: seq<Obs>, window: real, o: Obs)
    requires Sorted(s) && s != [] && window >= 0.0
    ensures multiset(Freshest(s, window))[o] == if Linked(s, window, o) then multiset(s)[o] else 0
  {
    var a := Start(s, window);
    StartSplits(s, window);
    SplitByTime(s, a, o);
    if Linked(s, window, o) {
      var chain :| IsChain(s, window, chain, o);
      ChainStaysAbove(s, window, chain, o);
    } else if o in s[a..] {
      var k :| a <= k < |s| && s[k] == o;
      LinkDown(s, window, k);
    }
  }

  /** One observation is later than all the others. */
  ghost predicate OneNewest(group: multiset<Obs>) {
    exists o :: group[o] == 1 && forall p :: p in group && p != o ==> p.at < o.at
  }

  lemma LinkedNegative(s: seq<Obs>, window: real, o: Obs)
    requires Sorted(s) && s != [] && window < 0.0
    ensures Linked(s, window, o) <==> o in s && o.at == s[|s| - 1].at
  {
    assert s[|s| - 1] in s;
    if Linked(s, window, o) {
      var chain :| IsChain(s, window, chain, o);
      assert |chain| > 1 ==> Near(chain[0], chain[1], window);
      assert chain[0] in chain;
    }
    if o in s && o.at == s[|s| - 1].at { assert IsChain(s, window, [o], o); }
  }

  lemma StartNegative(s: seq<Obs>, window: real)
    requires Sorted(s) && s != [] && window < 0.0
    ensures Freshest(s, window) == [s[|s| - 1]]
  {
  }

  lemma NegativeWindow(s: seq<Obs>, window: real)
    requires Sorted(s) && s != [] && window < 0.0
    ensures IsComponent(s, window, multiset{s[|s| - 1]}) <==> OneNewest(multiset(s))
  {
    var last := s[|s| - 1];
    forall o ensures Linked(s, window, o) <==> o in s && o.at == last.at { LinkedNegative(s, window, o); }
    if IsComponent(s, window, multiset{last}) {
      assert last in s;
      forall p | p in multiset(s) && p != last ensures p.at < last.at {
        assert multiset{last}[p] == 0;
        assert p in s;
      }
    }
    if OneNewest(multiset(s)) {
      var o :| multiset(s)[o] == 1 && forall p :: p in multiset(s) && p != o ==> p.at < o.at;
      assert last in multiset(s) && o in s;
      assert o == last;
    }
  }

  lemma SortedCluster(s: seq<Obs>, window: real)
    requires Sorted(s) && s != []
    ensures IsComponent(s, window, multiset(Freshest(s, window))) <==> window >= 0.0 || OneNewest(multiset(s))
  {
    if window >= 0.0 {
      forall o ensures multiset(Freshest(s, window))[o] == if Linked(s, window, o) then multiset(s)[o] else 0 {
        LinkedInSuffix(s, window, o);
      }
    } else {
      StartNegative(s, window);
      NegativeWindow(s, window);
    }
  }

  lemma LinkedTransfers(a: seq<Obs>, b: seq<Obs>, window: real, o: Obs)
    requires multiset(a) == multiset(b) && Linked(a, window, o)
    ensures Linked(b, window, o)
  {
    SameMembers(a, b);
    var chain :| IsChain(a, window, chain, o);
    assert IsChain(b, window, chain, o);
  }

  lemma ComponentTransfers(a: seq<Obs>, b: seq<Obs>, window: real, cluster: multiset<Obs>)
    requires multiset(a) == multiset(b) && IsComponent(a, window, cluster)
    ensures IsComponent(b, window, cluster)
  {
    forall o ensures cluster[o] == if Linked(b, window, o) then multiset(b)[o] else 0 {
      if Linked(a, window, o) { LinkedTransfers(a, b, window, o); }
      if Linked(b, window, o) { LinkedTransfers(b, a, window, o); }
    }
  }

  /** Greedy linking of the sorted observations finds the component of the newest one: for every window that
      is not negative, and for a negative one exactly when no two observations tie for newest. */
  lemma ClusterIsComponent(observations: seq<Obs>, q: string, window: real)
    requires OfEquipment(observations, q) != []
    ensures
      var group, cluster := OfEquipment(observations, q), multiset(Cluster(observations, q, window));
      IsComponent(group, window, cluster) <==> window >= 0.0 || OneNewest(multiset(group))
  {
    var group := OfEquipment(observations, q);
    var s := SortByTime(group);
    SortSorts(group);
    SortedCluster(s, window);
    var cluster := multiset(Cluster(observations, q, window));
    if IsComponent(s, window, cluster) { ComponentTransfers(s, group, window, cluster); }
    if IsComponent(group, window, cluster) { ComponentTransfers(group, s, window, cluster); }
  }

  lemma {:induction false} GroupCount(observations: seq<Obs>, q: string, o: Obs)
    ensures multiset(OfEquipment(observations, q))[o] == if o.equipment == q then multiset(observations)[o] else 0
  {
    if observations != [] {
      var front, last := observations[..|observations| - 1], observations[|observations| - 1];
      assert observations == front + [last];
      GroupCount(front, q, o);
    }
  }

  lemma GroupOfPermutation(a: seq<Obs>, b: seq<Obs>, q: string)
    requires multiset(a) == multiset(b)
    ensures multiset(OfEquipment(a, q)) == multiset(OfEquipment(b, q))
  {
    forall o ensures multiset(OfEquipment(a, q))[o] == multiset(OfEquipment(b, q))[o] {
      GroupCount(a, q, o);
      GroupCount(b, q, o);
    }
  }

  lemma ComponentUnique(group: seq<Obs>, window: real, a: multiset<Obs>, b: multiset<Obs>)
    requires IsComponent(group, window, a) && IsComponent(group, window, b)
    ensures a == b
  {
    forall o ensures a[o] == b[o] { }
  }

  lemma SameClusters(a: seq<Obs>, b: seq<Obs>, q: string, window: real)
    requires multiset(a) == multiset(b) && window >= 0.0
    ensures multiset(Cluster(a, q, window)) == multiset(Cluster(b, q, window))
  {
    GroupOfPermutation(a, b, q);
    var ga, gb := OfEquipment(a, q), OfEquipment(b, q);
    assert |multiset(ga)| == |ga| && |multiset(gb)| == |gb|;
    if ga != [] {
      ClusterIsComponent(a, q, window);
      ClusterIsComponent(b, q, window);
      ComponentTransfers(ga, gb, window, multiset(Cluster(a, q, window)));
      ComponentUnique(gb, window, multiset(Cluster(a, q, window)), multiset(Cluster(b, q, window)));
    }
  }

  /** The order in which anomalies arrive matters neither for what is reported nor for what is in it. */
  lemma ArrivalOrderIrrelevant(a: seq<Obs>, b: seq<Obs>, q: string, window: real, maxGap: real, now: real)
    requires multiset(a) == multiset(b) && window >= 0.0
    ensures Reported(a, q, window, maxGap, now) <==> Reported(b, q, window, maxGap, now)
    ensures multiset(Cluster(a, q, window)) == multiset(Cluster(b, q, window))
  {
    ReportedIffFresh(a, q, window, maxGap, now);
    ReportedIffFresh(b, q, window, maxGap, now);
    SameMembers(a, b);
    SameClusters(a, b, q, window);
  }

  lemma ReportsSeen(observations: seq<Obs>, window: real, maxGap: real, now: real)
    ensures
      var r := ActiveClusters(observations, window, maxGap, now);
      forall i, j :: 0 <= i < j < |r| ==> SeenBefore(EquipmentsOf(observations), r[i].equipment, r[j].equipment)
  {
    var at := ReportsInOrder(observations, FirstSeen(EquipmentsOf(observations)), window, maxGap, now);
    FirstSeenInOrder(EquipmentsOf(observations));
  }

  /** The result of the whole operation: what it reports, and what it puts in each report. */
  lemma CorrelationReports(observations: seq<Obs>, window: real, maxGap: real, now: real)
    ensures
      var r := ActiveClusters(observations, window, maxGap, now);
      && (forall i, j :: 0 <= i < j < |r| ==> r[i].equipment != r[j].equipment)
      && (forall q :: Fresh(observations, q, maxGap, now) <==> exists c :: c in r && c.equipment == q)
      && (forall c :: c in r ==> c.sensors == Cluster(observations, c.equipment, window) != [])
      && forall i, j :: 0 <= i < j < |r| ==> SeenBefore(EquipmentsOf(observations), r[i].equipment, r[j].equipment)
  {
    var keys := FirstSeen(EquipmentsOf(observations));
    FirstSeenOnce(EquipmentsOf(observations));
    ReportsMembers(observations, keys, window, maxGap, now);
    var r := ActiveClusters(observations, window, maxGap, now);
    ReportsSeen(observations, window, maxGap, now);
    forall q ensures Fresh(observations, q, maxGap, now) <==> exists c :: c in r && c.equipment == q {
      ReportedIffFresh(observations, q, window, maxGap, now);
      if Reported(observations, q, window, maxGap, now) {
        EquipmentKnown(observations, q);
        assert Correlated(q, Cluster(observations, q, window)) in r;
      }
    }
  }
}
