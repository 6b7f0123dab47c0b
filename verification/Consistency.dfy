/** The consistency inspection: one goroutine per member appends its samples under a mutex, and for every kind of
    sample the spread between the members is reported. */
module Consistency {
  import opened Options

  const UINT64 := 0x1_0000_0000_0000_0000

  /** An unsigned 64-bit sample. */
  type Sample = n: nat | n < UINT64

  /** What one member reports, or the error of its goroutine. */
  type Report = Option<map<string, Sample>>

  // ----- Samples -----

  function SampleOf(report: Report, kind: string): seq<Sample> {
    if report.Some? && kind in report.value then [report.value[kind]] else []
  }

  predicate InRange(order: seq<nat>, n: nat) {
    forall k :: 0 <= k < |order| ==> order[k] < n
  }

  /** The samples of a kind in the order in which the members appended them. */
  function Samples(reports: seq<Report>, order: seq<nat>, kind: string): seq<Sample>
    requires InRange(order, |reports|)
  {
    if order == [] then []
    else
      var last := |order| - 1;
      Samples(reports, order[..last], kind) + SampleOf(reports[order[last]], kind)
  }

  function MemberOrder(n: nat): (order: seq<nat>)
    ensures |order| == n && forall i :: 0 <= i < n ==> order[i] == i
  {
    seq(n, i => i)
  }

  /** Every member appends once, in any order. */
  ghost predicate IsOrder(order: seq<nat>, n: nat) {
    multiset(order) == multiset(MemberOrder(n))
  }

  lemma OrderRange(order: seq<nat>, n: nat)
    requires IsOrder(order, n)
    ensures InRange(order, n)
    ensures forall i: nat :: i < n ==> i in order
  {
    forall k | 0 <= k < |order|
      ensures order[k] < n
    {
      assert order[k] in multiset(order);
      assert order[k] in MemberOrder(n);
    }
    forall i: nat | i < n
      ensures i in order
    {
      assert MemberOrder(n)[i] in multiset(MemberOrder(n));
      assert i in multiset(order);
    }
  }

  lemma {:induction false} SamplesAppend(reports: seq<Report>, a: seq<nat>, b: seq<nat>, kind: string)
    requires InRange(a, |reports|) && InRange(b, |reports|)
    ensures InRange(a + b, |reports|)
    ensures Samples(reports, a + b, kind) == Samples(reports, a, kind) + Samples(reports, b, kind)
  {
    if b == [] {
      assert a + b == a;
    } else {
      var last := |b| - 1;
      assert (a + b)[..|a + b| - 1] == a + b[..last];
      SamplesAppend(reports, a, b[..last], kind);
    }
  }

  lemma SamplesOne(reports: seq<Report>, i: nat, kind: string)
    requires i < |reports|
    ensures Samples(reports, [i], kind) == SampleOf(reports[i], kind)
  {
    assert [i][..0] == [];
  }

  lemma NoSamples(reports: seq<Report>)
    ensures forall kind :: Samples(reports, [], kind) == []
  {
  }

  lemma FailedHasNone()
    ensures forall kind :: SampleOf(None, kind) == []
  {
  }

  lemma SamplesStep(reports: seq<Report>, order: seq<nat>, k: nat, kind: string)
    requires InRange(order, |reports|) && k < |order|
    ensures InRange(order[..k], |reports|) && InRange(order[..k + 1], |reports|)
    ensures Samples(reports, order[..k + 1], kind)
         == Samples(reports, order[..k], kind) + SampleOf(reports[order[k]], kind)
  {
    assert order[..k + 1][..k] == order[..k];
  }

  /** The last element of one list, taken out of another that is a permutation of it. */
  lemma TakeOut(a: seq<nat>, b: seq<nat>) returns (j: nat)
    requires multiset(a) == multiset(b) && a != []
    ensures j < |b| && b[j] == a[|a| - 1] && b == b[..j] + ([b[j]] + b[j + 1..])
    ensures multiset(a[..|a| - 1]) == multiset(b[..j] + b[j + 1..])
  {
    var n := |a| - 1;
    assert a[n] in multiset(a) && a[n] in multiset(b);
    j :| 0 <= j < |b| && b[j] == a[n];
    Without(a, n);
    Without(b, j);
    assert a[..n] + a[n + 1..] == a[..n];
  }

  lemma Without(s: seq<nat>, j: nat)
    requires j < |s|
    ensures s == s[..j] + ([s[j]] + s[j + 1..])
    ensures multiset(s[..j] + s[j + 1..]) == multiset(s) - multiset{s[j]}
  {
    var front, back := s[..j], s[j + 1..];
    assert s == front + ([s[j]] + back);
    assert multiset(s) == multiset(front) + (multiset{s[j]} + multiset(back));
  }

  lemma SamplesMiddle(reports: seq<Report>, front: seq<nat>, x: nat, back: seq<nat>, kind: string)
    requires InRange(front, |reports|) && x < |reports| && InRange(back, |reports|)
    ensures InRange(front + ([x] + back), |reports|) && InRange(front + back, |reports|)
    ensures multiset(Samples(reports, front + ([x] + back), kind))
         == multiset(Samples(reports, front + back, kind)) + multiset(SampleOf(reports[x], kind))
  {
    hide Samples, SampleOf;
    SamplesOne(reports, x, kind);
    SamplesAppend(reports, front, back, kind);
    SamplesAppend(reports, [x], back, kind);
    SamplesAppend(reports, front, [x] + back, kind);
  }

  /** The samples of a kind are the same multiset for every order. */
  lemma {:induction false} OrderIrrelevant(reports: seq<Report>, a: seq<nat>, b: seq<nat>, kind: string)
    requires multiset(a) == multiset(b) && InRange(a, |reports|) && InRange(b, |reports|)
    ensures multiset(Samples(reports, a, kind)) == multiset(Samples(reports, b, kind))
    decreases |a|
  {
    hide SampleOf;
    if a == [] {
      assert |multiset(b)| == 0;
      assert b == [];
    } else {
      var j := TakeOut(a, b);
      SamplesMiddle(reports, b[..j], b[j], b[j + 1..], kind);
      OrderIrrelevant(reports, a[..|a| - 1], b[..j] + b[j + 1..], kind);
    }
  }

  // ----- Spread -----

  function Highest(s: seq<Sample>): (h: Sample)
    requires s != []
    ensures h in s && forall x :: x in s ==> x <= h
  {
    if |s| == 1 then s[0]
    else
      var h := Highest(s[1..]);
      assert s == [s[0]] + s[1..];
      if s[0] > h then s[0] else h
  }

  function Lowest(s: seq<Sample>): (l: Sample)
    requires s != []
    ensures l in s && forall x :: x in s ==> l <= x
  {
    if |s| == 1 then s[0]
    else
      var l := Lowest(s[1..]);
      assert s == [s[0]] + s[1..];
      if s[0] < l then s[0] else l
  }

  function Spread(s: seq<Sample>): (d: Sample)
    requires s != []
    ensures d == 0 <==> forall x, y :: x in s && y in s ==> x == y
    ensures forall x, y :: x in s && y in s ==> x - y <= d
    ensures exists x, y :: x in s && y in s && x - y == d
  {
    assert Highest(s) in s && Lowest(s) in s;
    Highest(s) - Lowest(s)
  }

  lemma SameElements(s: seq<Sample>, t: seq<Sample>)
    requires multiset(s) == multiset(t)
    ensures forall x :: x in s <==> x in t
  {
    assert forall x :: x in s <==> x in multiset(s);
    assert forall x :: x in t <==> x in multiset(t);
  }

  lemma SpreadOfMultiset(s: seq<Sample>, t: seq<Sample>)
    requires s != [] && multiset(s) == multiset(t)
    ensures t != [] && Spread(s) == Spread(t)
  {
    assert |multiset(t)| == |s|;
    SameElements(s, t);
    assert Highest(s) in t && Highest(t) in s;
    assert Lowest(s) in t && Lowest(t) in s;
  }

  // ----- Sorting -----

  function Insert(s: seq<Sample>, x: Sample): (r: seq<Sample>)
    ensures multiset(r) == multiset(s) + multiset{x}
  {
    if s == [] then [x]
    else if x <= s[0] then [x] + s
    else
      assert s == [s[0]] + s[1..];
      [s[0]] + Insert(s[1..], x)
  }

  /** Go's `sort.Slice` by `<`. */
  function Sort(s: seq<Sample>): (r: seq<Sample>)
    ensures multiset(r) == multiset(s)
    ensures |r| == |s|
  {
    if s == [] then []
    else
      assert s == [s[0]] + s[1..];
      var r := Insert(Sort(s[1..]), s[0]);
      assert |multiset(r)| == |s|;
      r
  }

  predicate Sorted(s: seq<Sample>) {
    forall i, j :: 0 <= i < j < |s| ==> s[i] <= s[j]
  }

  lemma {:induction false} InsertSorted(s: seq<Sample>, x: Sample)
    requires Sorted(s)
    ensures Sorted(Insert(s, x))
  {
    if s != [] && x > s[0] {
      InsertSorted(s[1..], x);
      InsertBound(s[1..], x, s[0]);
    }
  }

  lemma {:induction false} InsertBound(s: seq<Sample>, x: Sample, low: Sample)
    requires low <= x && forall i :: 0 <= i < |s| ==> low <= s[i]
    ensures forall i :: 0 <= i < |Insert(s, x)| ==> low <= Insert(s, x)[i]
  {
    if s != [] && x > s[0] {
      InsertBound(s[1..], x, low);
    }
  }

  lemma {:induction false} SortSorts(s: seq<Sample>)
    ensures Sorted(Sort(s))
  {
    if s != [] {
      SortSorts(s[1..]);
      InsertSorted(Sort(s[1..]), s[0]);
    }
  }

  /** Go's unsigned subtraction. */
  function Minus(a: Sample, b: Sample): Sample {
    (a - b + UINT64) % UINT64
  }

  lemma EndsOfSorted(r: seq<Sample>)
    requires r != [] && Sorted(r)
    ensures Spread(r) == r[|r| - 1] - r[0]
  {
    hide Highest, Lowest;
    var h, l := Highest(r), Lowest(r);
    var i :| 0 <= i < |r| && r[i] == h;
    var j :| 0 <= j < |r| && r[j] == l;
    assert r[i] <= r[|r| - 1] && r[0] <= r[j];
    assert r[0] in r && r[|r| - 1] in r;
  }

  /** The last sorted sample minus the first one is the spread: it does not wrap around. */
  lemma {:induction false} LastMinusFirst(s: seq<Sample>)
    requires s != []
    ensures Minus(Sort(s)[|s| - 1], Sort(s)[0]) == Spread(s)
  {
    hide Sort, Sorted, Spread;
    var r := Sort(s);
    SortSorts(s);
    SpreadOfMultiset(s, r);
    EndsOfSorted(r);
  }

  // ----- The inspection as it is written -----

  class Metadata {
    var values: map<string, seq<Sample>>

    constructor ()
      ensures values == map[]
    {
      values := map[];
    }

    ghost function Of(kind: string): seq<Sample>
      reads this
    {
      if kind in values then values[kind] else []
    }

    /** No kind is listed without samples. */
    ghost predicate Valid()
      reads this
    {
      forall kind :: kind in values ==> values[kind] != []
    }

    /** What a goroutine does while it holds the mutex: append its samples, kind by kind in any order. */
    method Append(metadata: map<string, Sample>)
      requires Valid()
      modifies this
      ensures Valid()
      ensures forall kind :: Of(kind) == old(Of(kind)) + SampleOf(Some(metadata), kind)
    {
      var kinds := metadata.Keys;
      while kinds != {}
        invariant kinds <= metadata.Keys
        invariant Valid()
        invariant forall kind ::
            Of(kind) == old(Of(kind)) + if kind in kinds then [] else SampleOf(Some(metadata), kind)
        decreases |kinds|
      {
        var t :| t in kinds;
        kinds := kinds - {t};
        values := values[t := (if t in values then values[t] else []) + [metadata[t]]];
      }
    }

    /** `getEtcdConsistentMetadata`: the goroutines get the mutex in some order; one error fails them all. */
    method Collect(reports: seq<Report>, order: seq<nat>) returns (ok: bool)
      requires Valid() && values == map[]
      requires IsOrder(order, |reports|)
      modifies this
      ensures ok <==> forall i :: 0 <= i < |reports| ==> reports[i].Some?
      ensures Valid()
      ensures InRange(order, |reports|)
      ensures forall kind :: Of(kind) == Samples(reports, order, kind)
    {
      hide Samples, SampleOf;
      OrderRange(order, |reports|);
      NoSamples(reports);
      ok := true;
      var k := 0;
      while k < |order|
        invariant 0 <= k <= |order|
        invariant ok <==> forall j :: 0 <= j < k ==> reports[order[j]].Some?
        invariant Valid()
        invariant forall kind :: Of(kind) == Samples(reports, order[..k], kind)
      {
        var report := reports[order[k]];
        if report.Some? {
          Append(report.value);
        } else {
          FailedHasNone();
          ok := false;
        }
        forall kind {
          SamplesStep(reports, order, k, kind);
        }
        k := k + 1;
      }
      assert order[..k] == order;
      if ok {
        forall i | 0 <= i < |reports|
          ensures reports[i].Some?
        {
          assert i in order;
        }
      }
    }

    /** The loop of `CollectClusterConsistentData`: every list is sorted in place, and its last element minus its
        first one is the difference. */
    method Diffs() returns (diffs: map<string, Sample>)
      requires Valid()
      modifies this
      ensures diffs.Keys == old(values).Keys == values.Keys
      ensures forall kind :: kind in diffs ==>
                old(values)[kind] != [] && diffs[kind] == Spread(old(values)[kind]) && values[kind] == Sort(old(values)[kind])
    {
      hide Sort, Spread, Minus, DiffsSoFar;
      ghost var was := values;
      diffs := map[];
      var kinds := values.Keys;
      NoDiffs(was);
      while kinds != {}
        invariant DiffsSoFar(was, values, diffs, kinds)
        decreases |kinds|
      {
        var t :| t in kinds;
        DiffsStep(was, values, diffs, kinds, t);
        kinds := kinds - {t};
        var sorted := Sort(values[t]);
        values := values[t := sorted];
        diffs := diffs[t := Minus(sorted[|sorted| - 1], sorted[0])];
      }
      AllDiffs(was, values, diffs);
    }
  }

  /** All kinds but the remaining ones are sorted and reported. */
  ghost predicate DiffsSoFar(was: map<string, seq<Sample>>, values: map<string, seq<Sample>>,
                             diffs: map<string, Sample>, kinds: set<string>) {
    && values.Keys == was.Keys && kinds <= was.Keys && diffs.Keys == was.Keys - kinds
    && (forall kind :: kind in was ==> was[kind] != [])
    && (forall kind :: kind in kinds ==> values[kind] == was[kind])
    && (forall kind :: kind in diffs ==> diffs[kind] == Spread(was[kind]) && values[kind] == Sort(was[kind]))
  }

  lemma NoDiffs(values: map<string, seq<Sample>>)
    requires forall kind :: kind in values ==> values[kind] != []
    ensures DiffsSoFar(values, values, map[], values.Keys)
  {
    hide Sort, Spread;
  }

  lemma AllDiffs(was: map<string, seq<Sample>>, values: map<string, seq<Sample>>, diffs: map<string, Sample>)
    requires DiffsSoFar(was, values, diffs, {})
    ensures diffs.Keys == was.Keys == values.Keys
    ensures forall kind :: kind in diffs ==>
              was[kind] != [] && diffs[kind] == Spread(was[kind]) && values[kind] == Sort(was[kind])
  {
    hide Sort, Spread;
  }

  lemma DiffsStep(was: map<string, seq<Sample>>, values: map<string, seq<Sample>>,
                  diffs: map<string, Sample>, kinds: set<string>, t: string)
    requires DiffsSoFar(was, values, diffs, kinds) && t in kinds
    ensures t in values && values[t] != [] && |Sort(values[t])| > 0
    ensures var sorted := Sort(values[t]);
            DiffsSoFar(was, values[t := sorted], diffs[t := Minus(sorted[|sorted| - 1], sorted[0])], kinds - {t})
  {
    hide Sort, Spread, Minus;
    LastMinusFirst(values[t]);
  }

  /** The samples of a kind, member by member. */
  function AllSamples(reports: seq<Report>, kind: string): seq<Sample> {
    Samples(reports, MemberOrder(|reports|), kind)
  }

  /** `CollectClusterConsistentData`: whatever the order of the goroutines, each difference is the spread of that
      kind over the members that report it; without all members nothing is reported. */
  method CollectDiffs(reports: seq<Report>, order: seq<nat>) returns (diffs: map<string, Sample>)
    requires IsOrder(order, |reports|)
    ensures (exists i :: 0 <= i < |reports| && reports[i].None?) ==> diffs == map[]
    ensures (forall i :: 0 <= i < |reports| ==> reports[i].Some?) ==>
              && (forall kind :: kind in diffs <==> AllSamples(reports, kind) != [])
              && forall kind :: kind in diffs ==> diffs[kind] == Spread(AllSamples(reports, kind))
  {
    hide Samples, Spread, Sort;
    var metadata := new Metadata();
    var ok := metadata.Collect(reports, order);
    if !ok {
      return map[];
    }
    forall kind
      ensures multiset(metadata.Of(kind)) == multiset(AllSamples(reports, kind))
      ensures metadata.Of(kind) != [] <==> AllSamples(reports, kind) != []
    {
      OrderIrrelevant(reports, order, MemberOrder(|reports|), kind);
      assert |multiset(metadata.Of(kind))| == |metadata.Of(kind)|;
    }
    ghost var was := metadata.values;
    diffs := metadata.Diffs();
    forall kind | kind in diffs
      ensures AllSamples(reports, kind) != [] && diffs[kind] == Spread(AllSamples(reports, kind))
    {
      SpreadOfMultiset(was[kind], AllSamples(reports, kind));
    }
  }
}
