/** Feature handling: the inspection tasks of a cluster are brought in line with its feature gates, feature by
    feature, in whatever order the provider table is walked. */
module FeatureSync {
  import opened Options
  import opened FeatureGates
  import opened Text

  const ENABLED: string := "enabled"
  const DISABLED: string := "disabled"

  /** The inspection tasks of a namespace by name, and the feature statuses of one cluster. */
  datatype State = State(tasks: set<string>, statuses: map<string, string>)

  /** What goes wrong while a feature is handled. A call that fails may still have taken effect. */
  datatype Weather = Weather(noProvider: bool, readFails: bool, syncFails: bool, lands: bool, error: string)

  const FAIR := Weather(false, false, false, true, "")

  function WeatherOf(weather: map<string, Weather>, feature: string): Weather {
    if feature in weather then weather[feature] else FAIR
  }

  predicate Fair(weather: map<string, Weather>) {
    forall f :: f in weather ==> !weather[f].noProvider && !weather[f].readFails && !weather[f].syncFails
  }

  function TaskName(cluster: string, feature: string): string {
    cluster + "-" + feature
  }

  function FailureText(feature: string, error: string): string {
    "failed to sync " + feature + " feature, err is " + error
  }

  // ----- One feature -----

  /** What a cluster knows of one feature: is its task there, and what does the status say? */
  datatype Local = Local(present: bool, status: Option<string>)

  function LocalOf(s: State, cluster: string, feature: string): Local {
    Local(TaskName(cluster, feature) in s.tasks,
          if feature in s.statuses then Some(s.statuses[feature]) else None)
  }

  /** `Equal`: a disabled feature whose status says so is trusted without a look at the inspection task. */
  predicate Settled(l: Local, on: bool, readFails: bool) {
    if on then !readFails && l.present
    else l.status == Some(DISABLED) || (!readFails && !l.present)
  }

  /** A visit of one feature. */
  function Visited(l: Local, on: bool, feature: string, weather: Weather): Local {
    if weather.noProvider || Settled(l, on, weather.readFails) then l
    else if weather.syncFails
    then Local(if weather.lands then on else l.present, Some(FailureText(feature, weather.error)))
    else Local(on, Some(if on then ENABLED else DISABLED))
  }

  /** A visit whose call succeeds brings the inspection task in line with the gate, whether it could be read or
      not, except that a task is overlooked while its gate is off and the status says disabled. */
  lemma {:induction false} VisitAligns(l: Local, on: bool, feature: string, weather: Weather)
    requires !weather.noProvider && !weather.syncFails
    ensures Visited(l, on, feature, weather).present == on <==> on || !l.present || l.status != Some(DISABLED)
  {
  }

  // ----- The handler as it is written -----

  datatype ReadAnswer = Present | NotFound | ReadError

  class Reconciler {
    const cluster: string
    const annotations: map<string, string>
    var tasks: set<string>
    var statuses: map<string, string>

    constructor (cluster: string, annotations: map<string, string>, tasks: set<string>, statuses: map<string, string>)
      ensures this.cluster == cluster && this.annotations == annotations
      ensures this.tasks == tasks && this.statuses == statuses
    {
      this.cluster, this.annotations, this.tasks, this.statuses := cluster, annotations, tasks, statuses;
    }

    ghost function Value(): State
      reads this
    {
      State(tasks, statuses)
    }

    /** `GetEtcdInspection`. */
    method Read(feature: string, fails: bool) returns (answer: ReadAnswer)
      ensures answer == if fails then ReadError
                        else if TaskName(cluster, feature) in tasks then Present else NotFound
    {
      answer := if fails then ReadError else if TaskName(cluster, feature) in tasks then Present else NotFound;
    }

    /** `Equal`. */
    method Equal(feature: string, readFails: bool) returns (equal: bool)
      ensures equal <==> Settled(LocalOf(Value(), cluster, feature), GateOn(annotations, feature), readFails)
    {
      var on := IsFeatureGateEnabled(annotations, feature);
      if !on {
        if feature !in statuses || statuses[feature] != DISABLED {
          var answer := Read(feature, readFails);
          return answer == NotFound;
        }
        return true;
      }
      var answer := Read(feature, readFails);
      return answer == Present;
    }

    /** `Sync`: a task that already exists, or is already gone, is no error. */
    method Sync(feature: string, fails: bool, lands: bool) returns (ok: bool)
      modifies this`tasks
      ensures ok == !fails
      ensures tasks == if fails && !lands then old(tasks)
                       else if GateOn(annotations, feature) then old(tasks) + {TaskName(cluster, feature)}
                       else old(tasks) - {TaskName(cluster, feature)}
    {
      var on := IsFeatureGateEnabled(annotations, feature);
      if !fails || lands {
        if on {
          tasks := tasks + {TaskName(cluster, feature)};
        } else {
          tasks := tasks - {TaskName(cluster, feature)};
        }
      }
      ok := !fails;
    }

    /** The body of the loop over the provider table. */
    method HandleFeature(feature: string, weather: Weather)
      modifies this
      ensures LocalOf(Value(), cluster, feature)
           == Visited(LocalOf(old(Value()), cluster, feature), GateOn(annotations, feature), feature, weather)
      ensures OnlyChanges(old(Value()), Value(), cluster, feature)
    {
      if weather.noProvider {
        return;
      }
      var equal := Equal(feature, weather.readFails);
      if equal {
        return;
      }
      var ok := Sync(feature, weather.syncFails, weather.lands);
      if !ok {
        statuses := statuses[feature := FailureText(feature, weather.error)];
        return;
      }
      var on := IsFeatureGateEnabled(annotations, feature);
      if on {
        statuses := statuses[feature := ENABLED];
      } else {
        statuses := statuses[feature := DISABLED];
      }
    }

    /** `handleClusterFeature` up to its write: nothing is done for a cluster that is not running or has no
        members, and otherwise every feature ends as if it had been visited alone, whatever the order. */
    method HandleClusterFeature(running: bool, members: nat, order: seq<string>, weather: map<string, Weather>)
      requires Distinct(order)
      modifies this
      ensures !running || members == 0 ==> Value() == old(Value())
      ensures running && members > 0 ==> PassRelation(old(Value()), Value(), cluster, annotations, order, weather)
    {
      if !running || members == 0 {
        return;
      }
      ghost var before := Value();
      var i := 0;
      while i < |order|
        invariant 0 <= i <= |order|
        invariant PassRelation(before, Value(), cluster, annotations, order[..i], weather)
      {
        label Before:
        HandleFeature(order[i], WeatherOf(weather, order[i]));
        assert order[..i + 1] == order[..i] + [order[i]];
        PassStep(before, old@Before(Value()), Value(), cluster, annotations, order[..i], order[i], weather);
        i := i + 1;
      }
      assert order[..i] == order;
    }
  }

  // ----- A whole pass -----

  /** Nothing but the inspection task and the status of one feature differs. */
  ghost predicate OnlyChanges(s: State, t: State, cluster: string, feature: string) {
    && (forall name :: name != TaskName(cluster, feature) ==> (name in s.tasks <==> name in t.tasks))
    && SameStatuses(s, t, {feature})
  }

  ghost predicate SameStatuses(s: State, t: State, features: set<string>) {
    forall f :: f !in features ==> (f in s.statuses <==> f in t.statuses)
                                   && (f in s.statuses ==> s.statuses[f] == t.statuses[f])
  }

  /** Is this the inspection task of one of the listed features? */
  predicate Named(name: string, cluster: string, order: seq<string>) {
    exists i :: 0 <= i < |order| && name == TaskName(cluster, order[i])
  }

  /** The outcome of a pass: every listed feature as if visited alone, everything else as before. */
  ghost predicate PassRelation(s: State, t: State, cluster: string, annotations: map<string, string>,
                               order: seq<string>, weather: map<string, Weather>) {
    && (forall f :: f in order ==>
          LocalOf(t, cluster, f)
          == Visited(LocalOf(s, cluster, f), GateOn(annotations, f), f, WeatherOf(weather, f)))
    && (forall name :: !Named(name, cluster, order) ==> (name in s.tasks <==> name in t.tasks))
    && SameStatuses(s, t, set f | f in order)
  }

  lemma TaskNameInjective(cluster: string, f: string, g: string)
    requires TaskName(cluster, f) == TaskName(cluster, g)
    ensures f == g
  {
    assert TaskName(cluster, f)[|cluster| + 1..] == f;
    assert TaskName(cluster, g)[|cluster| + 1..] == g;
  }

  lemma OthersKeepLocal(s: State, t: State, cluster: string, feature: string, other: string)
    requires OnlyChanges(s, t, cluster, feature) && other != feature
    ensures LocalOf(t, cluster, other) == LocalOf(s, cluster, other)
  {
    if TaskName(cluster, other) == TaskName(cluster, feature) {
      TaskNameInjective(cluster, other, feature);
    }
  }

  lemma UnlistedKeepsLocal(s: State, t: State, cluster: string, annotations: map<string, string>,
                           order: seq<string>, weather: map<string, Weather>, other: string)
    requires PassRelation(s, t, cluster, annotations, order, weather) && other !in order
    ensures LocalOf(t, cluster, other) == LocalOf(s, cluster, other)
  {
    if Named(TaskName(cluster, other), cluster, order) {
      var i :| 0 <= i < |order| && TaskName(cluster, other) == TaskName(cluster, order[i]);
      TaskNameInjective(cluster, other, order[i]);
    }
  }

  lemma PassStep(s: State, t: State, u: State, cluster: string, annotations: map<string, string>,
                 order: seq<string>, feature: string, weather: map<string, Weather>)
    requires PassRelation(s, t, cluster, annotations, order, weather) && feature !in order
    requires OnlyChanges(t, u, cluster, feature)
    requires LocalOf(u, cluster, feature)
          == Visited(LocalOf(t, cluster, feature), GateOn(annotations, feature), feature, WeatherOf(weather, feature))
    ensures PassRelation(s, u, cluster, annotations, order + [feature], weather)
  {
    hide GateOn, Visited, FailureText;
    var more := order + [feature];
    UnlistedKeepsLocal(s, t, cluster, annotations, order, weather, feature);
    forall f | f in more
      ensures LocalOf(u, cluster, f)
           == Visited(LocalOf(s, cluster, f), GateOn(annotations, f), f, WeatherOf(weather, f))
    {
      if f != feature {
        OthersKeepLocal(t, u, cluster, feature, f);
      }
    }
    forall name | !Named(name, cluster, more)
      ensures name in s.tasks <==> name in u.tasks
    {
      NamedPrefix(name, cluster, order, feature);
    }
  }

  lemma NamedPrefix(name: string, cluster: string, order: seq<string>, feature: string)
    requires !Named(name, cluster, order + [feature])
    ensures !Named(name, cluster, order) && name != TaskName(cluster, feature)
  {
    var more := order + [feature];
    assert more[|order|] == feature;
    assert forall i :: 0 <= i < |order| ==> more[i] == order[i];
  }

  // ----- Order independence -----

  ghost predicate SameMembers(a: seq<string>, b: seq<string>) {
    forall f :: f in a <==> f in b
  }

  lemma StatusFromLocal(t: State, u: State, cluster: string)
    requires forall f :: LocalOf(t, cluster, f) == LocalOf(u, cluster, f)
    ensures t.statuses == u.statuses
  {
    forall f
      ensures f in t.statuses <==> f in u.statuses
      ensures f in t.statuses ==> t.statuses[f] == u.statuses[f]
    {
      assert LocalOf(t, cluster, f) == LocalOf(u, cluster, f);
    }
    assert t.statuses.Keys == u.statuses.Keys;
  }

  /** What a pass reports of a feature that was not settled: "enabled" exactly when its gate is on and the call
      succeeded, "disabled" exactly when the gate is off and it succeeded, and a failure otherwise. Its inspection
      task follows the gate unless the call failed without taking effect. */
  lemma {:induction false} PassReports(s: State, t: State, cluster: string, annotations: map<string, string>,
                                       order: seq<string>, weather: map<string, Weather>, f: string)
    requires PassRelation(s, t, cluster, annotations, order, weather) && f in order
    requires var w := WeatherOf(weather, f);
             !w.noProvider && !Settled(LocalOf(s, cluster, f), GateOn(annotations, f), w.readFails)
    ensures var w, on := WeatherOf(weather, f), GateOn(annotations, f);
      && f in t.statuses
      && (t.statuses[f] == ENABLED <==> on && !w.syncFails)
      && (t.statuses[f] == DISABLED <==> !on && !w.syncFails)
      && (w.syncFails ==> t.statuses[f] == "failed to sync " + f + " feature, err is " + w.error)
      && (TaskName(cluster, f) in t.tasks <==> if w.syncFails && !w.lands then TaskName(cluster, f) in s.tasks else on)
  {
    hide GateOn;
    var w, on := WeatherOf(weather, f), GateOn(annotations, f);
    assert LocalOf(t, cluster, f) == Visited(LocalOf(s, cluster, f), on, f, w);
    assert FailureText(f, w.error)[0] == 'f' && ENABLED[0] == 'e' && DISABLED[0] == 'd';
  }

  /** The state after a pass does not depend on the order in which the provider table was walked, even when
      calls fail. */
  lemma OrderIndependent(s: State, t: State, u: State, cluster: string, annotations: map<string, string>,
                         a: seq<string>, b: seq<string>, weather: map<string, Weather>)
    requires SameMembers(a, b)
    requires PassRelation(s, t, cluster, annotations, a, weather)
    requires PassRelation(s, u, cluster, annotations, b, weather)
    ensures t == u
  {
    hide GateOn, Visited, FailureText;
    forall f
      ensures LocalOf(t, cluster, f) == LocalOf(u, cluster, f)
    {
      if f !in a {
        UnlistedKeepsLocal(s, t, cluster, annotations, a, weather, f);
        UnlistedKeepsLocal(s, u, cluster, annotations, b, weather, f);
      }
    }
    StatusFromLocal(t, u, cluster);
    forall name
      ensures name in t.tasks <==> name in u.tasks
    {
      SameNamed(name, cluster, a, b);
      if Named(name, cluster, a) {
        var i :| 0 <= i < |a| && name == TaskName(cluster, a[i]);
        assert LocalOf(t, cluster, a[i]) == LocalOf(u, cluster, a[i]);
      }
    }
    assert t.tasks == u.tasks;
  }

  lemma SameNamed(name: string, cluster: string, a: seq<string>, b: seq<string>)
    requires SameMembers(a, b)
    ensures Named(name, cluster, a) <==> Named(name, cluster, b)
  {
    if Named(name, cluster, a) {
      var i :| 0 <= i < |a| && name == TaskName(cluster, a[i]);
      assert a[i] in b;
    }
    if Named(name, cluster, b) {
      var i :| 0 <= i < |b| && name == TaskName(cluster, b[i]);
      assert b[i] in a;
    }
  }

  // ----- What a pass achieves -----

  /** The inspection task is there although the gate is off, and the status already says "disabled". */
  predicate Leaked(s: State, cluster: string, annotations: map<string, string>, feature: string) {
    LocalOf(s, cluster, feature) == Local(true, Some(DISABLED)) && !GateOn(annotations, feature)
  }

  /** A pass without failures brings every task in line with its gate exactly when no task was leaked. */
  lemma FairPassMatchesGates(s: State, t: State, cluster: string, annotations: map<string, string>,
                             order: seq<string>, weather: map<string, Weather>)
    requires PassRelation(s, t, cluster, annotations, order, weather) && Fair(weather)
    ensures (forall f :: f in order ==> (TaskName(cluster, f) in t.tasks <==> GateOn(annotations, f)))
       <==> (forall f :: f in order ==> !Leaked(s, cluster, annotations, f))
  {
    forall f | f in order
      ensures (TaskName(cluster, f) in t.tasks <==> GateOn(annotations, f)) <==> !Leaked(s, cluster, annotations, f)
    {
      assert LocalOf(t, cluster, f)
          == Visited(LocalOf(s, cluster, f), GateOn(annotations, f), f, WeatherOf(weather, f));
    }
  }

  /** After a pass without failures no feature has anything left to do: the next pass neither creates nor
      deletes a task and changes no status. */
  lemma SecondPassIsIdle(s: State, t: State, u: State, cluster: string, annotations: map<string, string>,
                         order: seq<string>, weather: map<string, Weather>, later: map<string, Weather>)
    requires PassRelation(s, t, cluster, annotations, order, weather) && Fair(weather)
    requires PassRelation(t, u, cluster, annotations, order, later) && Fair(later)
    ensures forall f :: f in order ==> Settled(LocalOf(t, cluster, f), GateOn(annotations, f), false)
    ensures u == t
  {
    hide GateOn, FailureText;
    forall f | f in order
      ensures Settled(LocalOf(t, cluster, f), GateOn(annotations, f), false)
    {
      assert LocalOf(t, cluster, f)
          == Visited(LocalOf(s, cluster, f), GateOn(annotations, f), f, WeatherOf(weather, f));
    }
    IdleRelation(t, cluster, annotations, order, later);
    OrderIndependent(t, u, t, cluster, annotations, order, order, later);
  }

  lemma IdleRelation(t: State, cluster: string, annotations: map<string, string>, order: seq<string>,
                     weather: map<string, Weather>)
    requires Fair(weather)
    requires forall f :: f in order ==> Settled(LocalOf(t, cluster, f), GateOn(annotations, f), false)
    ensures PassRelation(t, t, cluster, annotations, order, weather)
  {
    hide GateOn, FailureText;
  }

  // ----- Framing -----

  /** The last dash of a task name separates cluster and feature. */
  lemma {:induction false} TaskNamesDiffer(c: string, f: string, d: string, g: string)
    requires '-' !in f && '-' !in g
    requires TaskName(c, f) == TaskName(d, g)
    ensures c == d && f == g
  {
    var name := TaskName(c, f);
    assert name[|c|] == '-' && name[|d|] == '-';
    assert forall i :: |c| < i < |name| ==> name[i] == f[i - |c| - 1];
    assert forall i :: |d| < i < |name| ==> TaskName(d, g)[i] == g[i - |d| - 1];
    assert |c| == |d|;
    assert name[..|c|] == c && TaskName(d, g)[..|d|] == d;
    TaskNameInjective(c, f, g);
  }

  /** Feature names with dashes would let the tasks of two clusters collide. */
  lemma DashedNamesCollide(c: string, f: string, g: string)
    ensures TaskName(c + "-" + f, g) == TaskName(c, f + "-" + g)
  {
    assert c + "-" + f + "-" + g == c + "-" + (f + "-" + g);
  }

  /** A pass, whatever fails in it, touches no task of another cluster. */
  lemma OtherClustersUntouched(s: State, t: State, cluster: string, annotations: map<string, string>,
                               order: seq<string>, weather: map<string, Weather>, other: string, feature: string)
    requires PassRelation(s, t, cluster, annotations, order, weather)
    requires other != cluster && '-' !in feature && forall f :: f in order ==> '-' !in f
    ensures TaskName(other, feature) in t.tasks <==> TaskName(other, feature) in s.tasks
  {
    if Named(TaskName(other, feature), cluster, order) {
      var i :| 0 <= i < |order| && TaskName(other, feature) == TaskName(cluster, order[i]);
      assert order[i] in order;
      TaskNamesDiffer(other, feature, cluster, order[i]);
    }
  }

  // ----- Many passes, with lost writes -----

  /** One pass: the gates it sees, what fails, and whether its final write of the statuses is stored. Passes read
      the statuses that are stored when they begin; a stale cache, which may show others, is not covered here. */
  datatype Round = Round(annotations: map<string, string>, order: seq<string>, weather: map<string, Weather>,
                         stored: bool)

  /** The pass of a round leads to `u`, of which `t` is stored: the tasks have changed even when the statuses are
      lost. */
  ghost predicate RoundBy(s: State, u: State, t: State, cluster: string, r: Round) {
    && PassRelation(s, u, cluster, r.annotations, r.order, r.weather)
    && t == State(u.tasks, if r.stored then u.statuses else s.statuses)
  }

  ghost predicate RoundRelation(s: State, t: State, cluster: string, r: Round) {
    exists u :: RoundBy(s, u, t, cluster, r)
  }

  ghost predicate IsRun(states: seq<State>, cluster: string, rounds: seq<Round>) {
    && |states| == |rounds| + 1
    && forall i :: 0 <= i < |rounds| ==> RoundRelation(states[i], states[i + 1], cluster, rounds[i])
  }

  /** A status "disabled" means that the inspection task is gone. */
  ghost predicate Clean(s: State, cluster: string) {
    forall f :: LocalOf(s, cluster, f) != Local(true, Some(DISABLED))
  }

  lemma FailureIsNotDisabled(feature: string, error: string)
    ensures FailureText(feature, error) != DISABLED
  {
    assert FailureText(feature, error)[0] == 'f';
  }

  lemma VisitKeepsClean(l: Local, on: bool, feature: string, weather: Weather)
    requires l != Local(true, Some(DISABLED))
    ensures Visited(l, on, feature, weather) != Local(true, Some(DISABLED))
  {
    FailureIsNotDisabled(feature, weather.error);
  }

  lemma StoredRoundKeepsClean(s: State, t: State, cluster: string, r: Round)
    requires Clean(s, cluster) && RoundRelation(s, t, cluster, r) && r.stored
    ensures Clean(t, cluster)
  {
    hide GateOn, Visited, FailureText;
    forall f
      ensures LocalOf(t, cluster, f) != Local(true, Some(DISABLED))
    {
      assert LocalOf(s, cluster, f) != Local(true, Some(DISABLED));
      if f in r.order {
        VisitKeepsClean(LocalOf(s, cluster, f), GateOn(r.annotations, f), f, WeatherOf(r.weather, f));
      } else {
        UnlistedKeepsLocal(s, t, cluster, r.annotations, r.order, r.weather, f);
      }
    }
  }

  /** As long as the statuses are stored, no run leaks a task: whatever failed before and however the gates were
      changed, one pass without failures brings every task in line with its gate. */
  lemma {:induction false} StoredRunsConverge(states: seq<State>, cluster: string, rounds: seq<Round>)
    requires IsRun(states, cluster, rounds) && Clean(states[0], cluster)
    requires forall i :: 0 <= i < |rounds| ==> rounds[i].stored
    ensures Clean(states[|rounds|], cluster)
    ensures |rounds| > 0 && Fair(rounds[|rounds| - 1].weather) ==>
              forall f :: f in rounds[|rounds| - 1].order ==>
                (TaskName(cluster, f) in states[|rounds|].tasks <==> GateOn(rounds[|rounds| - 1].annotations, f))
  {
    hide GateOn, Visited, FailureText;
    if |rounds| > 0 {
      var n := |rounds| - 1;
      var r := rounds[n];
      StoredRunsConverge(states[..|rounds|], cluster, rounds[..n]);
      StoredRoundKeepsClean(states[n], states[n + 1], cluster, r);
      if Fair(r.weather) {
        assert forall f :: f in r.order ==> LocalOf(states[n], cluster, f) != Local(true, Some(DISABLED));
        FairPassMatchesGates(states[n], states[n + 1], cluster, r.annotations, r.order, r.weather);
      }
    }
  }

  /** A leaked task survives every later pass that reads the stored statuses, whether its own are stored or not and
      whatever fails in it, for as long as its gate is off. */
  lemma {:induction false} LeakLasts(states: seq<State>, cluster: string, rounds: seq<Round>, feature: string)
    requires IsRun(states, cluster, rounds)
    requires LocalOf(states[0], cluster, feature) == Local(true, Some(DISABLED))
    requires forall i :: 0 <= i < |rounds| ==> !GateOn(rounds[i].annotations, feature)
    ensures LocalOf(states[|rounds|], cluster, feature) == Local(true, Some(DISABLED))
  {
    hide GateOn, FailureText;
    if |rounds| > 0 {
      var n := |rounds| - 1;
      var r := rounds[n];
      LeakLasts(states[..|rounds|], cluster, rounds[..n], feature);
      var u :| RoundBy(states[n], u, states[n + 1], cluster, r);
      if feature !in r.order {
        UnlistedKeepsLocal(states[n], u, cluster, r.annotations, r.order, r.weather, feature);
      }
    }
  }

  /** The round creates the task of a feature whose status says "disabled". */
  ghost predicate Creates(s: State, cluster: string, r: Round, feature: string) {
    var weather := WeatherOf(r.weather, feature);
    && feature in r.order && GateOn(r.annotations, feature)
    && LocalOf(s, cluster, feature) == Local(false, Some(DISABLED))
    && !weather.noProvider && (weather.syncFails ==> weather.lands)
  }

  /** The visits of a round whose statuses are lost change the tasks only. */
  lemma LostVisit(s: State, u: State, t: State, cluster: string, r: Round, feature: string)
    requires RoundBy(s, u, t, cluster, r) && !r.stored
    requires LocalOf(s, cluster, feature) != Local(true, Some(DISABLED))
    ensures LocalOf(t, cluster, feature) == Local(true, Some(DISABLED)) <==> Creates(s, cluster, r, feature)
  {
    hide GateOn, FailureText;
    assert LocalOf(t, cluster, feature).status == LocalOf(s, cluster, feature).status;
    if feature !in r.order {
      UnlistedKeepsLocal(s, u, cluster, r.annotations, r.order, r.weather, feature);
    }
  }

  /** A round whose statuses are lost leaks the tasks it creates under a status "disabled", and no others. */
  lemma LostWriteLeaks(s: State, t: State, cluster: string, r: Round, feature: string)
    requires RoundRelation(s, t, cluster, r) && !r.stored
    requires LocalOf(s, cluster, feature) != Local(true, Some(DISABLED))
    ensures LocalOf(t, cluster, feature) == Local(true, Some(DISABLED)) <==> Creates(s, cluster, r, feature)
  {
    hide Creates, RoundBy;
    var u :| RoundBy(s, u, t, cluster, r);
    LostVisit(s, u, t, cluster, r, feature);
  }

  /** A round leaks tasks exactly when its statuses are lost and it created a task whose status says "disabled",
      be it by a call that reported a failure. */
  lemma CleanExactly(s: State, t: State, cluster: string, r: Round)
    requires Clean(s, cluster) && RoundRelation(s, t, cluster, r)
    ensures Clean(t, cluster) <==> r.stored || forall f :: !Creates(s, cluster, r, f)
  {
    hide Creates, RoundBy;
    if r.stored {
      StoredRoundKeepsClean(s, t, cluster, r);
    } else {
      forall f
        ensures LocalOf(t, cluster, f) == Local(true, Some(DISABLED)) <==> Creates(s, cluster, r, f)
      {
        assert LocalOf(s, cluster, f) != Local(true, Some(DISABLED));
        LostWriteLeaks(s, t, cluster, r, f);
      }
    }
  }
}
