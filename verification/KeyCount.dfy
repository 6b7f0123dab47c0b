/** The request inspection: gauges that count the keys of an etcd cluster per prefix and resource, kept up to
    date from a watch, and counters of the watched requests. */
module KeyCount {
  import opened Options
  import opened Text

  // ----- Keys and their labels -----

  datatype Labels = Labels(prefix: string, resource: string)

  /** The second and third segment of a key, empty when missing. */
  function LabelsOf(key: string): Labels {
    var segments := Split(key, "/");
    if |segments| < 2 then Labels("", "")
    else Labels(segments[1], if |segments| > 2 then segments[2] else "")
  }

  lemma SlashBorderFree()
    ensures BorderFree("/")
  {
  }

  lemma SplitFirst(segment: string, rest: string)
    requires '/' !in segment
    ensures Split(segment, "/") == [segment]
    ensures Split(segment + "/" + rest, "/") == [segment] + Split(rest, "/")
  {
    SlashBorderFree();
    ContainsChar(segment, '/');
    SplitAbsent(segment, "/");
    SplitAt(segment, "/", rest);
  }

  /** What the labels are: for segments `a`, `p` and `r` of a key, the prefix is `p` and the resource is `r`, each
      empty when the key ends before it, and nothing behind the third segment matters. */
  lemma {:induction false} LabelsAreSegments(a: string, p: string, r: string, rest: string)
    requires '/' !in a && '/' !in p && '/' !in r
    ensures LabelsOf(a) == Labels("", "")
    ensures LabelsOf(a + "/" + p) == Labels(p, "")
    ensures LabelsOf(a + "/" + (p + "/" + r)) == Labels(p, r)
    ensures LabelsOf(a + "/" + (p + "/" + (r + "/" + rest))) == Labels(p, r)
  {
    hide Split;
    SplitFirst(a, p);
    SplitFirst(p, r);
    SplitFirst(r, rest);
    SplitFirst(a, p + "/" + r);
    SplitFirst(p, r + "/" + rest);
    SplitFirst(a, p + "/" + (r + "/" + rest));
  }

  // ----- The watched store -----

  /** Watch events carry the revision at which the key was created and the revision of the event. */
  datatype Event =
    | Put(key: string, createRevision: nat, modRevision: nat)
    | Delete(key: string, modRevision: nat)

  /** `IsCreate` of the etcd client. */
  predicate IsCreate(e: Event) {
    e.Put? && e.createRevision == e.modRevision
  }

  /** The live keys after an event, each with its creation revision. */
  function Apply(live: map<string, nat>, e: Event): map<string, nat> {
    match e
    case Put(key, create, _) => live[key := create]
    case Delete(key, _) => live - {key}
  }

  function ApplyAll(live: map<string, nat>, events: seq<Event>): map<string, nat> {
    if events == [] then live else Apply(ApplyAll(live, events[..|events| - 1]), events[|events| - 1])
  }

  /** An event etcd can send next: a put of a live key keeps its creation revision, a put of another key
      creates it, and only live keys are deleted. */
  predicate Follows(live: map<string, nat>, e: Event) {
    match e
    case Put(key, create, mod) => if key in live then create == live[key] < mod else create == mod
    case Delete(key, _) => key in live
  }

  /** A stream without gaps after the snapshot `live`. */
  predicate GapFree(live: map<string, nat>, events: seq<Event>) {
    forall i :: 0 <= i < |events| ==> Follows(ApplyAll(live, events[..i]), events[i])
  }

  // ----- Counting -----

  /** A gauge or counter vector: absent entries are zero. */
  function Read<K>(vector: map<K, int>, k: K): int {
    if k in vector then vector[k] else 0
  }

  function Bump<K>(vector: map<K, int>, k: K, delta: int): map<K, int> {
    vector[k := Read(vector, k) + delta]
  }

  /** The live keys that carry the given labels. */
  function KeysWith(live: map<string, nat>, l: Labels): set<string> {
    set k | k in live && LabelsOf(k) == l
  }

  /** The gauges after one event. */
  function GaugeStep(gauges: map<Labels, int>, e: Event): map<Labels, int> {
    if e.Delete? then Bump(gauges, LabelsOf(e.key), -1)
    else if IsCreate(e) then Bump(gauges, LabelsOf(e.key), 1)
    else gauges
  }

  function GaugeAll(gauges: map<Labels, int>, events: seq<Event>): map<Labels, int> {
    if events == [] then gauges else GaugeStep(GaugeAll(gauges, events[..|events| - 1]), events[|events| - 1])
  }

  /** The gauges after counting the keys of a snapshot. */
  function SnapshotAll(gauges: map<Labels, int>, keys: seq<string>): map<Labels, int> {
    if keys == [] then gauges
    else Bump(SnapshotAll(gauges, keys[..|keys| - 1]), LabelsOf(keys[|keys| - 1]), 1)
  }

  function Method(e: Event): string {
    if e.Put? then "PUT" else "Delete"
  }

  function RequestAll(requests: map<(Labels, string), int>, events: seq<Event>): map<(Labels, string), int> {
    if events == [] then requests
    else
      var last := events[|events| - 1];
      Bump(RequestAll(requests, events[..|events| - 1]), (LabelsOf(last.key), Method(last)), 1)
  }

  // ----- The collector -----

  const CLUSTER := "clusterName"
  const PREFIX := "etcdPrefix"
  const RESOURCE := "resourceName"
  const METHOD := "grpcMethod"

  /** A label map that is handed around and changed in place. */
  class LabelMap {
    const cluster: string
    var entries: map<string, string>

    constructor (cluster: string)
      ensures this.cluster == cluster && entries == map[CLUSTER := cluster]
    {
      this.cluster, entries := cluster, map[CLUSTER := cluster];
    }

    /** Exactly the names the key gauge is declared with. */
    predicate ForGauge()
      reads this
    {
      entries.Keys == {CLUSTER, PREFIX, RESOURCE} && entries[CLUSTER] == cluster
    }

    /** Exactly the names the request counter is declared with. */
    predicate ForRequests()
      reads this
    {
      entries.Keys == {CLUSTER, PREFIX, RESOURCE, METHOD} && entries[CLUSTER] == cluster
    }

    /** The cluster name, and whatever the last key and request left behind. */
    predicate Reusable()
      reads this
    {
      CLUSTER in entries && entries[CLUSTER] == cluster && entries.Keys <= {CLUSTER, PREFIX, RESOURCE, METHOD}
    }

    /** `setEtcdPrefixAndResourceName`. */
    method SetPrefixAndResource(key: string)
      modifies this
      ensures entries == old(entries)[PREFIX := LabelsOf(key).prefix][RESOURCE := LabelsOf(key).resource]
    {
      entries := entries[PREFIX := ""];
      entries := entries[RESOURCE := ""];
      var segments := Split(key, "/");
      if |segments| < 2 { return; }
      entries := entries[PREFIX := segments[1]];
      if |segments| > 2 {
        entries := entries[RESOURCE := segments[2]];
      }
    }
  }

  /** The two metric vectors of one cluster and whether it is watched. A vector takes a label map only when its
      names are exactly those the vector was declared with; the client library panics otherwise, so those are
      requirements here. */
  class Collector {
    const cluster: string
    var watching: bool
    var gauges: map<Labels, int>
    var requests: map<(Labels, string), int>

    constructor (cluster: string)
      ensures this.cluster == cluster && !watching && gauges == map[] && requests == map[]
    {
      this.cluster, watching := cluster, false;
      gauges, requests := map[], map[];
    }

    /** `EtcdKeyTotal.With(labels)` plus or minus one. */
    method AddToGauge(labels: LabelMap, delta: int)
      requires labels.ForGauge()
      modifies this`gauges
      ensures gauges == Bump(old(gauges), Labels(labels.entries[PREFIX], labels.entries[RESOURCE]), delta)
    {
      gauges := Bump(gauges, Labels(labels.entries[PREFIX], labels.entries[RESOURCE]), delta);
    }

    /** `EtcdRequestTotal.With(labels).Inc()`. */
    method CountRequest(labels: LabelMap)
      requires labels.ForRequests()
      modifies this`requests
      ensures requests ==
              Bump(old(requests), (Labels(labels.entries[PREFIX], labels.entries[RESOURCE]), labels.entries[METHOD]), 1)
    {
      requests := Bump(requests, (Labels(labels.entries[PREFIX], labels.entries[RESOURCE]), labels.entries[METHOD]), 1);
    }

    /** `populateClusterTotalKeyMetrics`. */
    method CountSnapshot(keys: seq<string>)
      modifies this`gauges
      ensures gauges == SnapshotAll(old(gauges), keys)
    {
      var labels := new LabelMap(cluster);
      for i := 0 to |keys|
        invariant labels.Reusable() && METHOD !in labels.entries
        invariant gauges == SnapshotAll(old(gauges), keys[..i])
      {
        labels.SetPrefixAndResource(keys[i]);
        AddToGauge(labels, 1);
        assert keys[..i + 1][..i] == keys[..i];
      }
      assert keys[..|keys|] == keys;
    }

    /** `CollectEtcdClusterRequest`; `listed` is None when a call before the snapshot fails. */
    method Collect(listed: Option<seq<string>>) returns (ok: bool)
      modifies this
      ensures ok == (old(watching) || listed.Some?)
      ensures (watching, gauges) == Collected((old(watching), old(gauges)), listed)
      ensures requests == old(requests)
    {
      if watching { return true; }
      if listed == None { return false; }
      CountSnapshot(listed.value);
      watching := true;
      return true;
    }

    /** One round of `processWatchEvent`. The label names are right at each of the three metric calls, which
        the requirements of those calls check. */
    method ProcessEvent(labels: LabelMap, e: Event)
      requires labels.Reusable()
      modifies labels, this`gauges, this`requests
      ensures labels.ForRequests() && labels.Reusable()
      ensures gauges == GaugeStep(old(gauges), e)
      ensures requests == Bump(old(requests), (LabelsOf(e.key), Method(e)), 1)
    {
      labels.entries := labels.entries - {METHOD};
      match e {
        case Put(key, create, mod) =>
          labels.SetPrefixAndResource(key);
          if IsCreate(e) {
            AddToGauge(labels, 1);
          }
          labels.entries := labels.entries[METHOD := "PUT"];
          CountRequest(labels);
        case Delete(key, mod) =>
          labels.SetPrefixAndResource(key);
          AddToGauge(labels, -1);
          labels.entries := labels.entries[METHOD := "Delete"];
          CountRequest(labels);
      }
    }

    /** `processWatchEvent` on the events received so far, with one label map for all of them. */
    method ProcessEvents(events: seq<Event>)
      modifies this`gauges, this`requests
      ensures gauges == GaugeAll(old(gauges), events)
      ensures requests == RequestAll(old(requests), events)
    {
      var labels := new LabelMap(cluster);
      for i := 0 to |events|
        invariant labels.Reusable()
        invariant gauges == GaugeAll(old(gauges), events[..i])
        invariant requests == RequestAll(old(requests), events[..i])
      {
        ProcessEvent(labels, events[i]);
        assert events[..i + 1][..i] == events[..i];
      }
      assert events[..|events|] == events;
    }
  }

  /** The watching flag and the gauges after one more collect call. */
  function Collected(s: (bool, map<Labels, int>), listed: Option<seq<string>>): (bool, map<Labels, int>) {
    if s.0 || listed == None then s else (true, SnapshotAll(s.1, listed.value))
  }

  function CollectedAll(s: (bool, map<Labels, int>), calls: seq<Option<seq<string>>>): (bool, map<Labels, int>)
    decreases |calls|
  {
    if calls == [] then s else CollectedAll(Collected(s, calls[0]), calls[1..])
  }

  /** However often the collect call is repeated, only the snapshot of the first successful call is counted. */
  lemma {:induction false} SnapshotCountedOnce(calls: seq<Option<seq<string>>>, first: nat)
    requires first < |calls| && calls[first].Some? && forall i :: 0 <= i < first ==> calls[i] == None
    ensures CollectedAll((false, map[]), calls) == (true, SnapshotAll(map[], calls[first].value))
    decreases |calls|
  {
    if first == 0 {
      WatchedStays(SnapshotAll(map[], calls[0].value), calls[1..]);
    } else {
      SnapshotCountedOnce(calls[1..], first - 1);
    }
  }

  lemma {:induction false} WatchedStays(gauges: map<Labels, int>, calls: seq<Option<seq<string>>>)
    ensures CollectedAll((true, gauges), calls) == (true, gauges)
    decreases |calls|
  {
    if calls != [] { WatchedStays(gauges, calls[1..]); }
  }

  // ----- The gauges count the live keys -----

  /** Every gauge is the number of live keys with its labels. */
  ghost predicate Counts(gauges: map<Labels, int>, live: map<string, nat>) {
    forall l :: Read(gauges, l) == |KeysWith(live, l)|
  }

  lemma AddKey(live: map<string, nat>, key: string, create: nat, l: Labels)
    requires key !in live
    ensures |KeysWith(live[key := create], l)| == |KeysWith(live, l)| + if LabelsOf(key) == l then 1 else 0
  {
    hide LabelsOf;
    var before, now := KeysWith(live, l), KeysWith(live[key := create], l);
    if LabelsOf(key) == l {
      assert now == before + {key} && key !in before;
    } else {
      assert now == before;
    }
  }

  lemma KeepKeys(live: map<string, nat>, key: string, create: nat, l: Labels)
    requires key in live
    ensures KeysWith(live[key := create], l) == KeysWith(live, l)
  {
    hide LabelsOf;
  }

  lemma RemoveKey(live: map<string, nat>, key: string, l: Labels)
    requires key in live
    ensures |KeysWith(live - {key}, l)| == |KeysWith(live, l)| - if LabelsOf(key) == l then 1 else 0
  {
    hide LabelsOf;
    var before, now := KeysWith(live, l), KeysWith(live - {key}, l);
    if LabelsOf(key) == l {
      assert before == now + {key} && key !in now;
    } else {
      assert now == before;
    }
  }

  /** How far a gauge is moved by one event. */
  function GaugeChange(e: Event, l: Labels): int {
    if LabelsOf(e.key) != l then 0 else if e.Delete? then -1 else if IsCreate(e) then 1 else 0
  }

  lemma StepChanges(gauges: map<Labels, int>, e: Event, l: Labels)
    ensures Read(GaugeStep(gauges, e), l) == Read(gauges, l) + GaugeChange(e, l)
  {
    hide LabelsOf;
  }

  lemma LiveChanges(live: map<string, nat>, e: Event, l: Labels)
    requires Follows(live, e)
    ensures |KeysWith(Apply(live, e), l)| == |KeysWith(live, l)| + GaugeChange(e, l)
  {
    hide LabelsOf, KeysWith;
    match e
    case Put(key, create, mod) =>
      if key in live { KeepKeys(live, key, create, l); } else { AddKey(live, key, create, l); }
    case Delete(key, mod) => RemoveKey(live, key, l);
  }

  /** A gauge minus its live keys never changes along a stream without gaps, so gauges that start right stay right. */
  lemma {:induction false} GaugesFollow(gauges: map<Labels, int>, live: map<string, nat>, events: seq<Event>)
    requires Counts(gauges, live) && GapFree(live, events)
    ensures Counts(GaugeAll(gauges, events), ApplyAll(live, events))
  {
    hide KeysWith, GaugeStep, Apply, Read;
    if events != [] {
      var n := |events| - 1;
      var fewer := events[..n];
      forall i | 0 <= i < n ensures Follows(ApplyAll(live, fewer[..i]), fewer[i]) {
        assert fewer[..i] == events[..i];
      }
      GaugesFollow(gauges, live, fewer);
      forall l ensures Read(GaugeAll(gauges, events), l) == |KeysWith(ApplyAll(live, events), l)| {
        StepChanges(GaugeAll(gauges, fewer), events[n], l);
        LiveChanges(ApplyAll(live, fewer), events[n], l);
      }
    }
  }

  /** A listing of the live keys, each once. */
  ghost predicate Lists(keys: seq<string>, live: map<string, nat>) {
    (forall i, j :: 0 <= i < j < |keys| ==> keys[i] != keys[j]) && live.Keys == set k | k in keys
  }

  lemma {:induction false} SnapshotCounts(keys: seq<string>, live: map<string, nat>)
    requires Lists(keys, live)
    ensures Counts(SnapshotAll(map[], keys), live)
  {
    hide LabelsOf;
    if keys == [] {
      assert live == map[];
      forall l ensures Read<Labels>(map[], l) == |KeysWith(live, l)| {
        assert KeysWith(live, l) == {};
      }
    } else {
      var n := |keys| - 1;
      var fewer, last := keys[..n], keys[n];
      var before := live - {last};
      assert before.Keys == set k | k in fewer by {
        assert forall k :: k in keys <==> k in fewer || k == last;
        assert last !in fewer;
      }
      SnapshotCounts(fewer, before);
      assert live == before[last := live[last]];
      forall l ensures Read(SnapshotAll(map[], keys), l) == |KeysWith(live, l)| {
        AddKey(before, last, live[last], l);
      }
    }
  }

  /** After any snapshot and any prefix of a stream that follows it without gaps, each gauge is the number of
      live keys with its labels, and so never negative. */
  lemma GaugesAreLiveCounts(keys: seq<string>, live: map<string, nat>, events: seq<Event>, processed: nat)
    requires Lists(keys, live)
    requires GapFree(live, events) && processed <= |events|
    ensures forall l :: Read(GaugeAll(SnapshotAll(map[], keys), events[..processed]), l) ==
                        |KeysWith(ApplyAll(live, events[..processed]), l)|
  {
    hide KeysWith, Read, Follows;
    SnapshotCounts(keys, live);
    var seen := events[..processed];
    forall i | 0 <= i < |seen| ensures Follows(ApplyAll(live, seen[..i]), seen[i]) {
      assert seen[..i] == events[..i];
    }
    GaugesFollow(SnapshotAll(map[], keys), live, seen);
  }

  // ----- Sums -----

  /** The sum of a vector over a finite set of its keys. */
  ghost function Sum<K>(vector: map<K, int>, ks: set<K>): int
  {
    if ks == {} then 0
    else
      var k :| k in ks;
      Read(vector, k) + Sum(vector, ks - {k})
  }

  lemma {:induction false} SumPick<K>(vector: map<K, int>, ks: set<K>, k: K)
    requires k in ks
    ensures Sum(vector, ks) == Read(vector, k) + Sum(vector, ks - {k})
    decreases |ks|
  {
    hide Read;
    var first :| first in ks && Sum(vector, ks) == Read(vector, first) + Sum(vector, ks - {first});
    if first != k {
      SumPick(vector, ks - {first}, k);
      SumPick(vector, ks - {k}, first);
      assert ks - {first} - {k} == ks - {k} - {first};
    }
  }

  lemma {:induction false} SumBump<K>(vector: map<K, int>, ks: set<K>, k: K, delta: int)
    ensures Sum(Bump(vector, k, delta), ks) == Sum(vector, ks) + if k in ks then delta else 0
    decreases |ks|
  {
    if ks != {} {
      var first: K;
      if k in ks { first := k; } else { first :| first in ks; }
      SumPick(vector, ks, first);
      SumPick(Bump(vector, k, delta), ks, first);
      SumBump(vector, ks - {first}, k, delta);
    }
  }

  lemma {:induction false} SumNothing<K>(ks: set<K>)
    ensures Sum(map[], ks) == 0
    decreases |ks|
  {
    if ks != {} {
      var k :| k in ks;
      SumPick(map[], ks, k);
      SumNothing(ks - {k});
    }
  }

  /** The request counters add up to the number of processed events, over any set of label pairs that holds
      those of the events. */
  lemma {:induction false} RequestsSum(events: seq<Event>, ks: set<(Labels, string)>)
    requires forall e :: e in events ==> (LabelsOf(e.key), Method(e)) in ks
    ensures Sum(RequestAll(map[], events), ks) == |events|
  {
    hide LabelsOf, Method;
    if events == [] {
      SumNothing(ks);
    } else {
      var n := |events| - 1;
      RequestsSum(events[..n], ks);
      assert events[n] in events;
      SumBump(RequestAll(map[], events[..n]), ks, (LabelsOf(events[n].key), Method(events[n])), 1);
    }
  }

  /** The places of the events of one kind whose keys carry the given labels. */
  function Places(events: seq<Event>, l: Labels, puts: bool): set<nat> {
    set i | 0 <= i < |events| && LabelsOf(events[i].key) == l && events[i].Put? == puts
  }

  lemma PlacesStep(events: seq<Event>, l: Labels, puts: bool)
    requires events != []
    ensures var n := |events| - 1;
      |Places(events, l, puts)| == |Places(events[..n], l, puts)|
                                   + if LabelsOf(events[n].key) == l && events[n].Put? == puts then 1 else 0
  {
    hide LabelsOf;
    var n := |events| - 1;
    var before := Places(events[..n], l, puts);
    assert n !in before;
    if LabelsOf(events[n].key) == l && events[n].Put? == puts {
      assert Places(events, l, puts) == before + {n};
    } else {
      assert Places(events, l, puts) == before;
    }
  }

  /** Each request counter is the number of processed events of its kind and its labels. */
  lemma {:induction false} RequestsCounted(events: seq<Event>, l: Labels)
    ensures Read(RequestAll(map[], events), (l, "PUT")) == |Places(events, l, true)|
    ensures Read(RequestAll(map[], events), (l, "Delete")) == |Places(events, l, false)|
  {
    hide LabelsOf, Places;
    if events == [] {
      NoPlaces(l);
    } else {
      RequestsCounted(events[..|events| - 1], l);
      PlacesStep(events, l, true);
      PlacesStep(events, l, false);
      assert "PUT"[0] != "Delete"[0];
    }
  }

  lemma NoPlaces(l: Labels)
    ensures Places([], l, true) == {} && Places([], l, false) == {}
  {
  }

  /** The gauges add up to the number of live keys, over any set of labels that holds those of the live keys. */
  lemma {:induction false} GaugesSum(gauges: map<Labels, int>, live: map<string, nat>, ls: set<Labels>)
    requires Counts(gauges, live)
    requires forall k :: k in live ==> LabelsOf(k) in ls
    ensures Sum(gauges, ls) == |live|
    decreases |live|
  {
    hide LabelsOf;
    if live == map[] {
      ZeroSum(gauges, live, ls);
    } else {
      var k :| k in live;
      var fewer := live - {k};
      var less := Bump(gauges, LabelsOf(k), -1);
      forall l ensures Read(less, l) == |KeysWith(fewer, l)| {
        RemoveKey(live, k, l);
      }
      assert |fewer| == |live| - 1 by { assert live.Keys == fewer.Keys + {k}; }
      GaugesSum(less, fewer, ls);
      SumBump(gauges, ls, LabelsOf(k), -1);
    }
  }

  lemma {:induction false} ZeroSum(gauges: map<Labels, int>, live: map<string, nat>, ls: set<Labels>)
    requires Counts(gauges, live) && live == map[]
    ensures Sum(gauges, ls) == 0
    decreases |ls|
  {
    if ls != {} {
      var l :| l in ls;
      SumPick(gauges, ls, l);
      assert KeysWith(live, l) == {};
      ZeroSum(gauges, live, ls - {l});
    }
  }

  // ----- The channel between the watch and the counters -----

  const EVENT_BUFFER := 40960

  /** What the watch has delivered, what is still buffered, and what has been counted. */
  datatype Feed = Feed(
    delivered: seq<Event>,
    buffer: seq<Event>,
    processed: seq<Event>,
    gauges: map<Labels, int>,
    requests: map<(Labels, string), int>)

  /** The watch sends one event, which waits while the buffer is full; or the counters take one. */
  datatype Turn = Send(event: Event) | Receive

  function Turned(f: Feed, t: Turn): Feed {
    match t
    case Send(e) =>
      if |f.buffer| < EVENT_BUFFER then f.(delivered := f.delivered + [e], buffer := f.buffer + [e]) else f
    case Receive =>
      if f.buffer == [] then f
      else
        var e := f.buffer[0];
        f.(buffer := f.buffer[1..], processed := f.processed + [e], gauges := GaugeStep(f.gauges, e),
           requests := Bump(f.requests, (LabelsOf(e.key), Method(e)), 1))
  }

  function TurnedAll(f: Feed, turns: seq<Turn>): Feed {
    if turns == [] then f else Turned(TurnedAll(f, turns[..|turns| - 1]), turns[|turns| - 1])
  }

  function Started(keys: seq<string>): Feed {
    Feed([], [], [], SnapshotAll(map[], keys), map[])
  }

  /** The processed events are a prefix of the delivered ones, and the vectors are those of the processed ones. */
  predicate InOrder(f: Feed, gauges: map<Labels, int>) {
    && f.delivered == f.processed + f.buffer && |f.buffer| <= EVENT_BUFFER
    && f.gauges == GaugeAll(gauges, f.processed)
    && f.requests == RequestAll(map[], f.processed)
  }

  lemma TurnKeepsOrder(f: Feed, gauges: map<Labels, int>, t: Turn)
    requires InOrder(f, gauges)
    ensures InOrder(Turned(f, t), gauges)
  {
    hide LabelsOf, GaugeStep, Bump, Method;
    match t {
      case Send(e) =>
        assert f.delivered + [e] == f.processed + (f.buffer + [e]);
      case Receive =>
        if f.buffer != [] {
          var e := f.buffer[0];
          var more := f.processed + [e];
          assert f.processed + f.buffer == more + f.buffer[1..];
          assert more[..|more| - 1] == f.processed;
        }
    }
  }

  /** However sender and receiver take turns, the processed events are a prefix of the delivered ones, in order,
      and the vectors are those of exactly the processed events. */
  lemma {:induction false} FeedInOrder(keys: seq<string>, turns: seq<Turn>)
    ensures InOrder(TurnedAll(Started(keys), turns), SnapshotAll(map[], keys))
  {
    hide Turned, SnapshotAll;
    if turns != [] {
      var n := |turns| - 1;
      FeedInOrder(keys, turns[..n]);
      TurnKeepsOrder(TurnedAll(Started(keys), turns[..n]), SnapshotAll(map[], keys), turns[n]);
    }
  }

  /** From the snapshot on, at every moment: if the delivered events follow the snapshot without gaps, each gauge
      is the number of live keys with its labels as of the last processed event. */
  lemma GaugesAtEveryMoment(keys: seq<string>, live: map<string, nat>, turns: seq<Turn>)
    requires Lists(keys, live) && GapFree(live, TurnedAll(Started(keys), turns).delivered)
    ensures var f := TurnedAll(Started(keys), turns);
      Counts(f.gauges, ApplyAll(live, f.processed))
  {
    hide KeysWith, Read, Follows, LabelsOf;
    var f := TurnedAll(Started(keys), turns);
    FeedInOrder(keys, turns);
    assert f.delivered[..|f.processed|] == f.processed;
    GaugesAreLiveCounts(keys, live, f.delivered, |f.processed|);
  }

  // ----- Gaps in the watch -----

  /** What happens to the keys from the snapshot on, and whether the watch delivers it. The watch starts, and
      starts again after a failure, without a revision, so there may be gaps anywhere. */
  datatype Watched = Watched(event: Event, seen: bool)

  function Happened(stream: seq<Watched>): seq<Event> {
    if stream == [] then [] else Happened(stream[..|stream| - 1]) + [stream[|stream| - 1].event]
  }

  function Seen(stream: seq<Watched>): seq<Event> {
    if stream == [] then []
    else Seen(stream[..|stream| - 1]) + if stream[|stream| - 1].seen then [stream[|stream| - 1].event] else []
  }

  /** The creations minus the deletions of keys with the given labels that the watch has missed. */
  function Missed(stream: seq<Watched>, l: Labels): int {
    if stream == [] then 0
    else
      var last := stream[|stream| - 1];
      Missed(stream[..|stream| - 1], l) + if last.seen then 0 else GaugeChange(last.event, l)
  }

  /** For every pair of labels as many creations as deletions were missed. */
  ghost predicate Balanced(stream: seq<Watched>) {
    forall l :: Missed(stream, l) == 0
  }

  /** After any stream with any gaps, each gauge is off by what was missed of its labels. */
  lemma {:induction false} GaugesMissGaps(keys: seq<string>, live: map<string, nat>, stream: seq<Watched>, l: Labels)
    requires Lists(keys, live) && GapFree(live, Happened(stream))
    ensures Read(GaugeAll(SnapshotAll(map[], keys), Seen(stream)), l)
         == |KeysWith(ApplyAll(live, Happened(stream)), l)| - Missed(stream, l)
  {
    hide LabelsOf, KeysWith, Read, Follows, GaugeChange, GaugeStep;
    SnapshotCounts(keys, live);
    if stream != [] {
      var n := |stream| - 1;
      var before, last := stream[..n], stream[n];
      var happened := Happened(before) + [last.event];
      assert happened[..|happened| - 1] == Happened(before);
      GapFreePrefix(live, happened, |happened| - 1);
      GaugesMissGaps(keys, live, before, l);
      LiveChanges(ApplyAll(live, Happened(before)), last.event, l);
      assert Happened(stream) == happened;
      if last.seen {
        var seen := Seen(before) + [last.event];
        assert Seen(stream) == seen && seen[..|seen| - 1] == Seen(before);
        StepChanges(GaugeAll(SnapshotAll(map[], keys), Seen(before)), last.event, l);
      } else {
        assert Seen(stream) == Seen(before) + [] == Seen(before);
      }
    }
  }

  lemma GapFreePrefix(live: map<string, nat>, events: seq<Event>, n: nat)
    requires GapFree(live, events) && n <= |events|
    ensures GapFree(live, events[..n])
    ensures n < |events| ==> Follows(ApplyAll(live, events[..n]), events[n])
  {
    hide Follows, ApplyAll;
    forall i | 0 <= i < n
      ensures Follows(ApplyAll(live, events[..n][..i]), events[..n][i])
    {
      assert events[..n][..i] == events[..i];
    }
  }

  /** The gauges count the live keys exactly when, label by label, as many creations as deletions were missed. */
  lemma {:induction false} GapsExactly(keys: seq<string>, live: map<string, nat>, stream: seq<Watched>)
    requires Lists(keys, live) && GapFree(live, Happened(stream))
    ensures Counts(GaugeAll(SnapshotAll(map[], keys), Seen(stream)), ApplyAll(live, Happened(stream)))
            <==> Balanced(stream)
  {
    hide KeysWith, Read, GaugeAll, ApplyAll, Missed, GapFree, Happened, Seen, SnapshotAll, Lists;
    var gauges, now := GaugeAll(SnapshotAll(map[], keys), Seen(stream)), ApplyAll(live, Happened(stream));
    forall l
      ensures Read(gauges, l) == |KeysWith(now, l)| <==> Missed(stream, l) == 0
    {
      GaugesMissGaps(keys, live, stream, l);
    }
    if Balanced(stream) {
      forall l
        ensures Read(gauges, l) == |KeysWith(now, l)|
      {
        assert Missed(stream, l) == 0;
      }
    }
    if Counts(gauges, now) {
      forall l
        ensures Missed(stream, l) == 0
      {
        assert Read(gauges, l) == |KeysWith(now, l)|;
      }
    }
  }

  /** The same for the running system: at every moment of the channel, if what was counted is what was seen. */
  lemma GaugesWithGaps(keys: seq<string>, live: map<string, nat>, turns: seq<Turn>, stream: seq<Watched>)
    requires Lists(keys, live) && GapFree(live, Happened(stream))
    requires TurnedAll(Started(keys), turns).processed == Seen(stream)
    ensures Counts(TurnedAll(Started(keys), turns).gauges, ApplyAll(live, Happened(stream)))
            <==> Balanced(stream)
  {
    hide KeysWith, Read, ApplyAll, Missed, GapFree, Happened, Seen, Counts, TurnedAll;
    FeedInOrder(keys, turns);
    GapsExactly(keys, live, stream);
  }

  /** A stretch of events of which all, or none, are seen. */
  function Stretch(events: seq<Event>, seen: bool): (stream: seq<Watched>)
    ensures |stream| == |events|
  {
    if events == [] then [] else Stretch(events[..|events| - 1], seen) + [Watched(events[|events| - 1], seen)]
  }

  lemma StreamStep(stream: seq<Watched>, next: Watched, l: Labels)
    ensures Happened(stream + [next]) == Happened(stream) + [next.event]
    ensures Seen(stream + [next]) == Seen(stream) + if next.seen then [next.event] else []
    ensures Missed(stream + [next], l) == Missed(stream, l) + if next.seen then 0 else GaugeChange(next.event, l)
  {
    hide GaugeChange;
    assert (stream + [next])[..|stream|] == stream;
  }

  lemma {:induction false} StretchAfter(stream: seq<Watched>, events: seq<Event>, seen: bool, l: Labels)
    ensures Happened(stream + Stretch(events, seen)) == Happened(stream) + events
    ensures Seen(stream + Stretch(events, seen)) == Seen(stream) + if seen then events else []
    ensures seen ==> Missed(stream + Stretch(events, seen), l) == Missed(stream, l)
  {
    hide Happened, Seen, Missed;
    if events == [] {
      assert stream + [] == stream;
      assert Happened(stream) + [] == Happened(stream) && Seen(stream) + [] == Seen(stream);
    } else {
      var n := |events| - 1;
      var front, next := stream + Stretch(events[..n], seen), Watched(events[n], seen);
      assert stream + Stretch(events, seen) == front + [next];
      assert events == events[..n] + [events[n]];
      StretchAfter(stream, events[..n], seen, l);
      StreamStep(front, next, l);
      if !seen {
        assert Seen(front) + [] == Seen(front);
      }
    }
  }

  /** What was missed in a stretch is the growth of the live keys over it. */
  lemma {:induction false} MissedIsGrowth(live: map<string, nat>, missed: seq<Event>, l: Labels)
    requires GapFree(live, missed)
    ensures Missed(Stretch(missed, false), l) == |KeysWith(ApplyAll(live, missed), l)| - |KeysWith(live, l)|
  {
    hide LabelsOf, KeysWith, Follows, GaugeChange;
    if missed != [] {
      var n := |missed| - 1;
      GapFreePrefix(live, missed, n);
      MissedIsGrowth(live, missed[..n], l);
      LiveChanges(ApplyAll(live, missed[..n]), missed[n], l);
      assert Stretch(missed, false)[..n] == Stretch(missed[..n], false);
      assert missed[..n] + [missed[n]] == missed;
    }
  }

  /** All labels have the same number of keys in both. */
  ghost predicate SameCounts(a: map<string, nat>, b: map<string, nat>) {
    forall l :: |KeysWith(a, l)| == |KeysWith(b, l)|
  }

  /** One gap, between the snapshot and the watch: the gauges are right, then and ever after, exactly when the gap
      left the number of keys of all labels as it was. */
  lemma SnapshotGap(keys: seq<string>, live: map<string, nat>, missed: seq<Event>, seen: seq<Event>)
    requires Lists(keys, live) && GapFree(live, missed + seen)
    ensures GapFree(live, missed)
    ensures Counts(GaugeAll(SnapshotAll(map[], keys), seen), ApplyAll(live, missed + seen))
            <==> SameCounts(ApplyAll(live, missed), live)
  {
    hide KeysWith, ApplyAll, Missed, Counts, Follows, GapFree, Happened, Seen, Lists, GaugeAll;
    var stream := Stretch(missed, false) + Stretch(seen, true);
    GapFreePrefix(live, missed + seen, |missed|);
    assert (missed + seen)[..|missed|] == missed;
    forall l
      ensures Happened(stream) == missed + seen && Seen(stream) == seen
      ensures Missed(stream, l) == |KeysWith(ApplyAll(live, missed), l)| - |KeysWith(live, l)|
    {
      GapStream(live, missed, seen, l);
    }
    GapStream(live, missed, seen, Labels("", ""));
    GapsExactly(keys, live, stream);
    if SameCounts(ApplyAll(live, missed), live) {
      forall l
        ensures Missed(stream, l) == 0
      {
        assert |KeysWith(ApplyAll(live, missed), l)| == |KeysWith(live, l)|;
      }
    }
    if Balanced(stream) {
      forall l
        ensures |KeysWith(ApplyAll(live, missed), l)| == |KeysWith(live, l)|
      {
        assert Missed(stream, l) == 0;
      }
    }
  }

  lemma GapStream(live: map<string, nat>, missed: seq<Event>, seen: seq<Event>, l: Labels)
    requires GapFree(live, missed)
    ensures var stream := Stretch(missed, false) + Stretch(seen, true);
      && Happened(stream) == missed + seen && Seen(stream) == seen
      && Missed(stream, l) == |KeysWith(ApplyAll(live, missed), l)| - |KeysWith(live, l)|
  {
    hide KeysWith, ApplyAll, Missed, GapFree, Stretch;
    StretchAfter([], missed, false, l);
    assert [] + Stretch(missed, false) == Stretch(missed, false);
    assert [] + missed == missed && [] + seen == seen;
    StretchAfter(Stretch(missed, false), seen, true, l);
    MissedIsGrowth(live, missed, l);
  }

  /** In particular one missed creation leaves the gauge of its labels one too low for good, whatever happens to
      the key and to others later. */
  lemma MissedCreateSticks(keys: seq<string>, live: map<string, nat>, key: string, revision: nat, seen: seq<Event>)
    requires Lists(keys, live) && key !in live && GapFree(live, [Put(key, revision, revision)] + seen)
    ensures Read(GaugeAll(SnapshotAll(map[], keys), seen), LabelsOf(key)) ==
            |KeysWith(ApplyAll(live, [Put(key, revision, revision)] + seen), LabelsOf(key))| - 1
  {
    hide LabelsOf, KeysWith, Read, GaugeAll, ApplyAll, Follows, GapFree, SnapshotAll, Happened, Seen, Missed;
    var create := Put(key, revision, revision);
    var l := LabelsOf(key);
    var first := [Watched(create, false)];
    StretchAfter(first, seen, true, l);
    MissedOne(create, l);
    assert [] + seen == seen;
    GaugesMissGaps(keys, live, first + Stretch(seen, true), l);
  }

  lemma MissedOne(e: Event, l: Labels)
    ensures Happened([Watched(e, false)]) == [e] && Seen([Watched(e, false)]) == []
    ensures Missed([Watched(e, false)], l) == GaugeChange(e, l)
  {
    assert [Watched(e, false)][..0] == [];
  }
}
