/** The controller as a state machine: passes of any number of workers over one cluster object in the API
    server, the operator's document, user edits, lost calls and crashes, in any interleaving. */
module Controller {
  import opened Options
  import opened KstoneSpec
  import opened Cluster

  // ----- State -----

  /** Where a pass stands. `c` is the worker's own copy and `rv` the version it carries; a write is accepted
      only while `rv` is the current version. `probe` is what the status check of this pass saw. */
  datatype Pass =
    | Idle
    | Fetched(c: Cluster, rv: nat)
    | Operating(c: Cluster, rv: nat, op: Operation)
    | CheckDue(c: Cluster, rv: nat)
    | Saving(c: Cluster, rv: nat, failed: bool, probe: Option<Probe>)
    | Saved(c: Cluster, rv: nat, probe: Option<Probe>)
    | Labelled(c: Cluster, rv: nat, probe: Option<Probe>)

  /** A cluster handed to the label or feature handlers, with the check its pass made. */
  datatype Visit = Visit(c: Cluster, probe: Option<Probe>)

  /** `hist` holds every stored version of the object, the last one being current, so a cache may serve any of them. */
  datatype World = World(
    hist: seq<Cluster>, doc: Option<Json>, now: int, passes: map<nat, Pass>, labelled: seq<Visit>, synced: seq<Visit>)

  function PassOf(w: World, p: nat): Pass {
    if p in w.passes then w.passes[p] else Idle
  }

  function SetPass(w: World, p: nat, pass: Pass): World {
    w.(passes := w.passes[p := pass])
  }

  // ----- The store -----

  predicate Current(hist: seq<Cluster>, rv: nat) {
    rv == |hist| - 1
  }

  /** An update carries the version it was read at. A stale one is rejected, and one that changes nothing
      makes no new version. */
  function Accepted(hist: seq<Cluster>, c: Cluster, rv: nat): (hist': seq<Cluster>)
    ensures hist <= hist' && |hist'| <= |hist| + 1
    ensures hist' != hist ==> Current(hist, rv) && hist'[|hist|] == c
  {
    if Current(hist, rv) && hist[rv] != c then hist + [c] else hist
  }

  // ----- Steps -----

  datatype Event =
    | Edit(spec: Spec, labels: map<string, string>, annotations: map<string, string>)
    | Tick(seconds: nat)
    | Fetch(p: nat, version: nat)
    | Decide(p: nat, readFails: bool)
    | RunHooks(p: nat, hooks: Hooks, landed: bool, sans: Json)
    | Check(p: nat, probe: Probe)
    | Save(p: nat, delivered: bool)
    | Label(p: nat, delivered: bool)
    | Sync(p: nat, gates: map<string, string>, labels: map<string, string>, delivered: bool)
    | Crash(p: nat)

  /** The errors of the hooks once the operator's document is taken into account: an update needs one. */
  function HookErrors(w: World, c: Cluster, op: Operation, hooks: Hooks): Hooks {
    if c.spec.clusterType == Kstone && op == UpdateOp && hooks.main == None && w.doc == None
    then hooks.(main := Some("not found")) else hooks
  }

  /** The operator's document after the main hook. A call reported as failed may still have landed, and a
      document that exists already is left alone by a create. */
  function DocAfter(w: World, c: Cluster, op: Operation, hooks: Hooks, landed: bool, sans: Json): Option<Json> {
    if c.spec.clusterType != Kstone || hooks.before.Some? || (hooks.main.Some? && !landed) then w.doc
    else
      var spec := GenerateEtcdSpec(c.spec, c.labels, c.annotations, sans);
      if op == CreateOp then
        if w.doc == None then Some(Document(c.meta, spec, c.annotations)) else w.doc
      else if w.doc == None then None
      else
        var updated := UpdateEtcdSpec(w.doc.value, spec);
        if updated == None then w.doc else updated
  }

  function DecideStep(w: World, p: nat, readFails: bool): (w': World)
    ensures w.hist <= w'.hist
  {
    match PassOf(w, p)
    case Fetched(c, rv) =>
      (match NextAction(c, w.doc, readFails)
       case CreateAction => SetPass(w, p, Operating(Started(c, CreateOp, w.now), rv, CreateOp))
       case UpdateAction => SetPass(w, p, Operating(Started(c, UpdateOp, w.now), rv, UpdateOp))
       case StatusAction => SetPass(w, p, CheckDue(c, rv))
       case NoAction => SetPass(w, p, Idle))
    case _ => w
  }

  /** The hooks run. One that panics ends the pass; what it did to the operator's document stays. */
  function HooksStep(w: World, p: nat, hooks: Hooks, landed: bool, sans: Json): (w': World)
    ensures w.hist <= w'.hist
  {
    match PassOf(w, p)
    case Operating(c, rv, op) =>
      if c.status.conditions == [] then w
      else
        var errors := HookErrors(w, c, op, hooks);
        SetPass(w.(doc := DocAfter(w, c, op, errors, landed, sans)), p,
                if Panics(c, op, errors) then Idle
                else Saving(Ended(c, op, errors, w.now), rv, FirstError(errors).Some?, None))
    case _ => w
  }

  function CheckStep(w: World, p: nat, probe: Probe): (w': World)
    ensures w.hist <= w'.hist
  {
    match PassOf(w, p)
    case CheckDue(c, rv) =>
      if !probe.configured then SetPass(w, p, Saving(c, rv, true, None))
      else SetPass(w, p, Saving(Checked(c, probe), rv, false, Some(probe)))
    case _ => w
  }

  /** The write after the handlers, whose result is ignored: the pass goes on with the version it fetched. */
  function SaveStep(w: World, p: nat, delivered: bool): (w': World)
    ensures w.hist <= w'.hist
  {
    match PassOf(w, p)
    case Saving(c, rv, failed, probe) =>
      SetPass(if delivered then w.(hist := Accepted(w.hist, c, rv)) else w, p, if failed then Idle else Saved(c, rv, probe))
    case _ => w
  }

  /** Labels are handled only on a running cluster; the write, when there is one, must succeed. */
  function LabelStep(w: World, p: nat, delivered: bool): (w': World)
    ensures w.hist <= w'.hist
  {
    match PassOf(w, p)
    case Saved(c, rv, probe) =>
      if c.status.phase != Running then SetPass(w, p, Idle)
      else
        var done := c.(labels := DesiredLabels(c));
        var visited := w.(labelled := w.labelled + [Visit(c, probe)]);
        if c.labels != map[] then SetPass(visited, p, Labelled(done, rv, probe))
        else if delivered && Current(w.hist, rv) then
          var hist := Accepted(w.hist, done, rv);
          SetPass(visited.(hist := hist), p, Labelled(done, |hist| - 1, probe))
        else SetPass(visited, p, Idle)
    case _ => w
  }

  /** The feature handlers run on a running cluster with members. They may change the gate states and, through
      the monitor, the labels; a write of the whole object follows. */
  function SyncStep(w: World, p: nat, gates: map<string, string>, labels: map<string, string>, delivered: bool): (w': World)
    ensures w.hist <= w'.hist
  {
    match PassOf(w, p)
    case Labelled(c, rv, probe) =>
      if c.status.phase != Running || c.status.members == [] then SetPass(w, p, Idle)
      else
        var done := c.(labels := labels, status := c.status.(gates := gates));
        SetPass(w.(hist := if delivered then Accepted(w.hist, done, rv) else w.hist, synced := w.synced + [Visit(c, probe)]), p, Idle)
    case _ => w
  }

  /** A user's edit goes to the current version and leaves the status alone. */
  function EditStep(w: World, spec: Spec, labels: map<string, string>, annotations: map<string, string>): (w': World)
    requires |w.hist| > 0
    ensures w.hist <= w'.hist
  {
    var rv := |w.hist| - 1;
    w.(hist := Accepted(w.hist, w.hist[rv].(spec := spec, labels := labels, annotations := annotations), rv))
  }

  /** An event that is not possible in a state leaves it as it is. */
  function Step(w: World, e: Event): (w': World)
    requires |w.hist| > 0
    ensures w.hist <= w'.hist
  {
    match e
    case Edit(spec, labels, annotations) => EditStep(w, spec, labels, annotations)
    case Tick(seconds) => w.(now := w.now + seconds)
    case Fetch(p, version) =>
      if PassOf(w, p) == Idle && version < |w.hist| then SetPass(w, p, Fetched(w.hist[version], version)) else w
    case Decide(p, readFails) => DecideStep(w, p, readFails)
    case RunHooks(p, hooks, landed, sans) => HooksStep(w, p, hooks, landed, sans)
    case Check(p, probe) => CheckStep(w, p, probe)
    case Save(p, delivered) => SaveStep(w, p, delivered)
    case Label(p, delivered) => LabelStep(w, p, delivered)
    case Sync(p, gates, labels, delivered) => SyncStep(w, p, gates, labels, delivered)
    case Crash(p) => SetPass(w, p, Idle)
  }

  function Run(w: World, events: seq<Event>): (w': World)
    requires |w.hist| > 0
    ensures |w'.hist| > 0 && w.hist <= w'.hist
    decreases |events|
  {
    if events == [] then w
    else Run(Step(w, events[0]), events[1..])
  }

  /** A freshly created object: no conditions, no pass under way, nothing written for the operator. */
  ghost predicate Fresh(w: World) {
    |w.hist| == 1 && w.hist[0].status.conditions == [] && w.doc == None && w.passes == map[] && w.labelled == [] && w.synced == []
  }

  // ----- The shape of the condition list -----

  /** Nothing, one create condition, or a finished create condition and an update condition. */
  ghost predicate Shaped(cs: seq<Condition>, now: int) {
    && |cs| <= 2
    && (|cs| >= 1 ==> cs[0].kind == CreateCondition)
    && (|cs| == 2 ==> cs[0].status == CondTrue && cs[1].kind == UpdateCondition)
    && (forall i :: 0 <= i < |cs| ==> Timed(cs[i], now))
    && (|cs| == 2 ==> cs[0].end.value <= cs[1].start)
  }

  /** A finished condition has an end at or after its start and no reason; an unfinished one has no end. */
  ghost predicate Timed(c: Condition, now: int) {
    && c.start <= now
    && ((c.status == CondTrue && c.end.Some? && c.start <= c.end.value <= now && c.reason == "") ||
        (c.status == CondFalse && c.end == None))
  }

  /** The condition list that asks for a creation. */
  predicate NextIsCreate(cs: seq<Condition>) {
    cs == [] || (cs[|cs| - 1].kind == CreateCondition && cs[|cs| - 1].status == CondFalse)
  }

  lemma ActionFits(c: Cluster, doc: Option<Json>, readFails: bool)
    ensures NextAction(c, doc, readFails) == CreateAction ==> NextIsCreate(c.status.conditions)
    ensures NextAction(c, doc, readFails) == UpdateAction ==> !NextIsCreate(c.status.conditions)
    ensures NextAction(c, doc, readFails) == StatusAction ==> !c.spec.clusterType.OtherType?
  {
    hide UpToDate, ProviderEqual;
  }

  lemma StartedShape(c: Cluster, op: Operation, now: int)
    requires Shaped(c.status.conditions, now) && (op == CreateOp <==> NextIsCreate(c.status.conditions))
    ensures var cs := Started(c, op, now).status.conditions;
      Shaped(cs, now) && cs != [] && cs[|cs| - 1].kind == OpCondition(op) && cs[|cs| - 1].status == CondFalse
  {
  }

  lemma EndedShape(c: Cluster, op: Operation, hooks: Hooks, now: int)
    requires Shaped(c.status.conditions, now)
    requires var cs := c.status.conditions;
      cs != [] && cs[|cs| - 1].kind == OpCondition(op) && cs[|cs| - 1].status == CondFalse
    ensures Shaped(Ended(c, op, hooks, now).status.conditions, now)
  {
  }

  // ----- The invariant of every run -----

  /** A visit the controller may make: the check of the same pass found the listed members healthy. */
  ghost predicate Truthful(v: Visit) {
    v.c.status.phase == Running && v.probe.Some? && FoundHealthy(v.c, v.probe.value)
  }

  ghost predicate GoodPass(hist: seq<Cluster>, now: int, pass: Pass) {
    pass == Idle ||
    (&& pass.rv < |hist|
     && pass.c.meta == hist[pass.rv].meta && pass.c.spec == hist[pass.rv].spec
     && Shaped(pass.c.status.conditions, now)
     && (match pass
         case Operating(c, rv, op) =>
           var cs := c.status.conditions;
           cs != [] && cs[|cs| - 1].kind == OpCondition(op) && cs[|cs| - 1].status == CondFalse && c.status.phase == OpPhase(op)
         case CheckDue(c, rv) => !c.spec.clusterType.OtherType?
         case Saving(c, rv, failed, probe) => !failed && c.status.phase == Running ==> Truthful(Visit(c, probe))
         case Saved(c, rv, probe) => c.status.phase == Running ==> Truthful(Visit(c, probe))
         case Labelled(c, rv, probe) => Truthful(Visit(c, probe))
         case _ => true))
  }

  ghost predicate Inv(w: World) {
    && |w.hist| > 0
    && (forall i :: 0 <= i < |w.hist| ==> Shaped(w.hist[i].status.conditions, w.now) && w.hist[i].meta == w.hist[0].meta)
    && (forall p :: p in w.passes ==> GoodPass(w.hist, w.now, w.passes[p]))
    && (forall i :: 0 <= i < |w.labelled| ==> Truthful(w.labelled[i]))
    && (forall i :: 0 <= i < |w.synced| ==> Truthful(w.synced[i]) && w.synced[i].c.status.members != [])
  }

  lemma GoodPassLater(hist: seq<Cluster>, now: int, pass: Pass, hist': seq<Cluster>, now': int)
    requires GoodPass(hist, now, pass) && hist <= hist' && now <= now'
    ensures GoodPass(hist', now', pass)
  {
    hide Truthful;
    assert pass != Idle ==> hist'[pass.rv] == hist[pass.rv];
  }

  /** A step that only adds good versions, visits and one good pass keeps the invariant. */
  lemma InvFrame(w: World, w': World, p: nat)
    requires Inv(w) && w.hist <= w'.hist && w.now <= w'.now
    requires forall q :: q in w'.passes && q != p ==> q in w.passes && w'.passes[q] == w.passes[q]
    requires p in w'.passes ==> GoodPass(w'.hist, w'.now, w'.passes[p])
    requires forall i :: |w.hist| <= i < |w'.hist| ==>
               Shaped(w'.hist[i].status.conditions, w'.now) && w'.hist[i].meta == w.hist[0].meta
    requires w.labelled <= w'.labelled && forall i :: |w.labelled| <= i < |w'.labelled| ==> Truthful(w'.labelled[i])
    requires w.synced <= w'.synced
    requires forall i :: |w.synced| <= i < |w'.synced| ==> Truthful(w'.synced[i]) && w'.synced[i].c.status.members != []
    ensures Inv(w')
  {
    hide Truthful;
    forall q | q in w'.passes ensures GoodPass(w'.hist, w'.now, w'.passes[q]) {
      if q != p { GoodPassLater(w.hist, w.now, w.passes[q], w'.hist, w'.now); }
    }
    forall i | 0 <= i < |w'.hist|
      ensures Shaped(w'.hist[i].status.conditions, w'.now) && w'.hist[i].meta == w'.hist[0].meta
    {
      if i < |w.hist| { assert w'.hist[i] == w.hist[i]; }
    }
    forall i | 0 <= i < |w'.labelled| ensures Truthful(w'.labelled[i]) {
      if i < |w.labelled| { assert w'.labelled[i] == w.labelled[i]; }
    }
    forall i | 0 <= i < |w'.synced| ensures Truthful(w'.synced[i]) && w'.synced[i].c.status.members != [] {
      if i < |w.synced| { assert w'.synced[i] == w.synced[i]; }
    }
  }

  lemma {:induction false} DecideKeepsInv(w: World, p: nat, readFails: bool)
    requires Inv(w)
    ensures Inv(DecideStep(w, p, readFails))
  {
    hide Shaped, Started, NextAction, GoodPass;
    if PassOf(w, p).Fetched? {
      var c, rv := w.passes[p].c, w.passes[p].rv;
      assert GoodPass(w.hist, w.now, Fetched(c, rv));
      DecidedGood(w.hist, w.now, c, rv, w.doc, readFails);
      IdleIsGood(w.hist, w.now);
      InvFrame(w, DecideStep(w, p, readFails), p);
    }
  }

  lemma DecidedGood(hist: seq<Cluster>, now: int, c: Cluster, rv: nat, doc: Option<Json>, readFails: bool)
    requires GoodPass(hist, now, Fetched(c, rv))
    ensures match NextAction(c, doc, readFails)
            case CreateAction => GoodPass(hist, now, Operating(Started(c, CreateOp, now), rv, CreateOp))
            case UpdateAction => GoodPass(hist, now, Operating(Started(c, UpdateOp, now), rv, UpdateOp))
            case StatusAction => GoodPass(hist, now, CheckDue(c, rv))
            case NoAction => true
  {
    hide Shaped, NextConditions, NextAction, NextIsCreate;
    ActionFits(c, doc, readFails);
    match NextAction(c, doc, readFails) {
      case CreateAction => StartedShape(c, CreateOp, now);
      case UpdateAction => StartedShape(c, UpdateOp, now);
      case _ =>
    }
  }

  lemma HooksKeepInv(w: World, p: nat, hooks: Hooks, landed: bool, sans: Json)
    requires Inv(w)
    ensures Inv(HooksStep(w, p, hooks, landed, sans))
  {
    hide DocAfter, HookErrors, Panics, Shaped, Truthful;
    var w' := HooksStep(w, p, hooks, landed, sans);
    if PassOf(w, p).Operating? {
      assert GoodPass(w.hist, w.now, w.passes[p]);
      EndedShape(w.passes[p].c, w.passes[p].op, HookErrors(w, w.passes[p].c, w.passes[p].op, hooks), w.now);
      InvFrame(w, w', p);
    }
  }

  lemma CheckKeepsInv(w: World, p: nat, probe: Probe)
    requires Inv(w)
    ensures Inv(CheckStep(w, p, probe))
  {
    hide Checked, Shaped, FoundHealthy, ListedMembers, CheckedMembers, AllHealthy;
    var w' := CheckStep(w, p, probe);
    if PassOf(w, p).CheckDue? {
      assert GoodPass(w.hist, w.now, w.passes[p]);
      var c := w.passes[p].c;
      RunningIsTruthful(c, probe);
      CheckedStatus(c, probe);
      InvFrame(w, w', p);
    }
  }

  lemma SaveKeepsInv(w: World, p: nat, delivered: bool)
    requires Inv(w)
    ensures Inv(SaveStep(w, p, delivered))
  {
    hide Truthful;
    var w' := SaveStep(w, p, delivered);
    if PassOf(w, p).Saving? {
      assert GoodPass(w.hist, w.now, w.passes[p]);
      GoodPassLater(w.hist, w.now, w.passes[p], w'.hist, w'.now);
      assert w'.hist == w.hist || w'.hist == w.hist + [w.passes[p].c];
      InvFrame(w, w', p);
    }
  }

  lemma LabelKeepsInv(w: World, p: nat, delivered: bool)
    requires Inv(w)
    ensures Inv(LabelStep(w, p, delivered))
  {
    hide *;
    LabelFrame(w, p, delivered);
    if PassOf(w, p).Saved? {
      LabelGood(w, p, delivered);
      InvFrame(w, LabelStep(w, p, delivered), p);
    }
  }

  lemma LabelFrame(w: World, p: nat, delivered: bool)
    ensures var w' := LabelStep(w, p, delivered);
      && (!PassOf(w, p).Saved? ==> w' == w)
      && w.hist <= w'.hist && w'.now == w.now && w'.synced == w.synced
      && forall q :: q in w'.passes && q != p ==> q in w.passes && w'.passes[q] == w.passes[q]
  {
    hide DesiredLabels;
  }

  lemma LabelGood(w: World, p: nat, delivered: bool)
    requires Inv(w) && PassOf(w, p).Saved?
    ensures var w' := LabelStep(w, p, delivered);
      && p in w'.passes && GoodPass(w'.hist, w'.now, w'.passes[p])
      && (forall i :: |w.hist| <= i < |w'.hist| ==>
            Shaped(w'.hist[i].status.conditions, w'.now) && w'.hist[i].meta == w.hist[0].meta)
      && w.labelled <= w'.labelled && (forall i :: |w.labelled| <= i < |w'.labelled| ==> Truthful(w'.labelled[i]))
  {
    hide DesiredLabels, Shaped, Truthful;
    assert GoodPass(w.hist, w.now, w.passes[p]);
    var c := w.passes[p].c;
    RelabelledTruthful(c, c.(labels := DesiredLabels(c)), w.passes[p].probe);
  }

  lemma RelabelledTruthful(c: Cluster, c': Cluster, probe: Option<Probe>)
    requires c' == c.(labels := c'.labels)
    ensures Truthful(Visit(c, probe)) <==> Truthful(Visit(c', probe))
  {
  }

  lemma LabelledFacts(w: World, p: nat)
    requires Inv(w) && PassOf(w, p).Labelled?
    ensures var pass := w.passes[p];
      && |w.hist| > 0 && pass.c.meta == w.hist[0].meta && Shaped(pass.c.status.conditions, w.now)
      && Truthful(Visit(pass.c, pass.probe))
  {
    hide Shaped, Truthful;
    assert GoodPass(w.hist, w.now, w.passes[p]);
  }

  lemma IdleIsGood(hist: seq<Cluster>, now: int)
    ensures GoodPass(hist, now, Idle)
  {
  }

  lemma SyncKeepsInv(w: World, p: nat, gates: map<string, string>, labels: map<string, string>, delivered: bool)
    requires Inv(w)
    ensures Inv(SyncStep(w, p, gates, labels, delivered))
  {
    hide Shaped, Truthful, GoodPass, Inv;
    var w' := SyncStep(w, p, gates, labels, delivered);
    if PassOf(w, p).Labelled? {
      LabelledFacts(w, p);
      IdleIsGood(w'.hist, w'.now);
      InvFrame(w, w', p);
    }
  }

  lemma {:induction false} StepKeepsInv(w: World, e: Event)
    requires Inv(w)
    ensures Inv(Step(w, e))
  {
    hide Truthful, Shaped, DecideStep, HooksStep, CheckStep, SaveStep, LabelStep, SyncStep;
    match e
    case Edit(spec, labels, annotations) =>
      var w' := Step(w, e);
      var last := w.hist[|w.hist| - 1];
      assert w'.hist == w.hist || w'.hist == w.hist + [last.(spec := spec, labels := labels, annotations := annotations)];
      EditFrame(w, w');
    case Tick(seconds) => EditFrame(w, Step(w, e));
    case Fetch(p, version) => InvFrame(w, Step(w, e), p);
    case Decide(p, readFails) => DecideKeepsInv(w, p, readFails);
    case RunHooks(p, hooks, landed, sans) => HooksKeepInv(w, p, hooks, landed, sans);
    case Check(p, probe) => CheckKeepsInv(w, p, probe);
    case Save(p, delivered) => SaveKeepsInv(w, p, delivered);
    case Label(p, delivered) => LabelKeepsInv(w, p, delivered);
    case Sync(p, gates, labels, delivered) => SyncKeepsInv(w, p, gates, labels, delivered);
    case Crash(p) => InvFrame(w, Step(w, e), p);
  }

  lemma ShapedLater(cs: seq<Condition>, now: int, now': int)
    requires Shaped(cs, now) && now <= now'
    ensures Shaped(cs, now')
  {
  }

  /** Steps of the environment touch no pass. */
  lemma EditFrame(w: World, w': World)
    requires Inv(w) && w.hist <= w'.hist && w.now <= w'.now
    requires w'.passes == w.passes && w'.labelled == w.labelled && w'.synced == w.synced
    requires forall i :: |w.hist| <= i < |w'.hist| ==>
               w'.hist[i].status == w.hist[|w.hist| - 1].status && w'.hist[i].meta == w.hist[|w.hist| - 1].meta
    ensures Inv(w')
  {
    hide Truthful;
    var last := w.hist[|w.hist| - 1];
    ShapedLater(last.status.conditions, w.now, w'.now);
    assert 0 in w'.passes ==> GoodPass(w'.hist, w'.now, w'.passes[0]) by {
      if 0 in w.passes { GoodPassLater(w.hist, w.now, w.passes[0], w'.hist, w'.now); }
    }
    InvFrame(w, w', 0);
  }

  /** In every run, under stale caches, any number of workers, failing hooks, lost or rejected writes, crashes
      and user edits, every stored condition list has the shape, and every visit to the label and feature
      handlers is truthful. */
  lemma {:induction false} RunKeepsInv(w: World, events: seq<Event>)
    requires Inv(w)
    ensures Inv(Run(w, events))
    decreases |events|
  {
    if events != [] {
      StepKeepsInv(w, events[0]);
      RunKeepsInv(Step(w, events[0]), events[1..]);
    }
  }

  lemma FreshInv(w: World)
    requires Fresh(w)
    ensures Inv(w)
  {
  }

  /** The statement of the invariant for a fresh object, spelled out. */
  lemma {:induction false} EveryRun(w: World, events: seq<Event>)
    requires Fresh(w)
    ensures var w' := Run(w, events);
      && (forall i :: 0 <= i < |w'.hist| ==> Shaped(w'.hist[i].status.conditions, w'.now))
      && (forall i :: 0 <= i < |w'.labelled| ==> Truthful(w'.labelled[i]))
      && (forall i :: 0 <= i < |w'.synced| ==> Truthful(w'.synced[i]) && w'.synced[i].c.status.members != [])
  {
    FreshInv(w);
    RunKeepsInv(w, events);
  }

  // ----- User edits survive -----

  /** The spec of the last edit of a run. */
  function LastSpec(spec: Spec, events: seq<Event>): Spec
    decreases |events|
  {
    if events == [] then spec
    else LastSpec(if events[0].Edit? then events[0].spec else spec, events[1..])
  }

  function CurrentSpec(w: World): Spec
    requires |w.hist| > 0
  {
    w.hist[|w.hist| - 1].spec
  }

  lemma PassSpec(w: World, p: nat)
    requires Inv(w)
    ensures var pass := PassOf(w, p);
            pass != Idle ==> pass.rv < |w.hist| && pass.c.spec == w.hist[pass.rv].spec
  {
    hide Shaped, Truthful;
    if PassOf(w, p) != Idle { assert GoodPass(w.hist, w.now, w.passes[p]); }
  }

  lemma StepKeepsSpec(w: World, e: Event)
    requires |w.hist| > 0 && Inv(w)
    ensures CurrentSpec(Step(w, e)) == if e.Edit? then e.spec else CurrentSpec(w)
  {
    hide Inv, DesiredLabels, DocAfter, NextAction, Started, Ended, Checked, HookErrors;
    if e.Save? || e.Label? || e.Sync? {
      PassSpec(w, e.p);
    }
  }

  /** No write of the controller, however stale its copy, ever takes back a user's edit of the spec. */
  lemma {:induction false} SpecIsTheUsers(w: World, events: seq<Event>)
    requires Inv(w)
    ensures CurrentSpec(Run(w, events)) == LastSpec(CurrentSpec(w), events)
    decreases |events|
  {
    if events != [] {
      StepKeepsInv(w, events[0]);
      StepKeepsSpec(w, events[0]);
      SpecIsTheUsers(Step(w, events[0]), events[1..]);
    }
  }

  // ----- At most one version from a pass whose handler write changed the object -----

  ghost predicate Stale(w: World, p: nat) {
    PassOf(w, p) != Idle && PassOf(w, p).rv < |w.hist| - 1
  }

  predicate IsStepOf(e: Event, p: nat) {
    match e
    case Edit(_, _, _) => false
    case Tick(_) => false
    case _ => e.p == p
  }

  lemma StaleOwnStep(w: World, p: nat, e: Event)
    requires |w.hist| > 0 && Stale(w, p) && IsStepOf(e, p)
    ensures Step(w, e).hist == w.hist
    ensures Stale(Step(w, e), p) || PassOf(Step(w, e), p) == Idle
  {
    hide DesiredLabels, DocAfter, Checked, Ended, Started, NextAction, HookErrors;
  }

  lemma OtherStep(w: World, p: nat, e: Event)
    requires |w.hist| > 0 && !IsStepOf(e, p)
    ensures PassOf(Step(w, e), p) == PassOf(w, p)
  {
    hide DesiredLabels, DocAfter, Checked, Ended, Started, NextAction, HookErrors, Written;
  }

  lemma StaleStep(w: World, p: nat, e: Event)
    requires |w.hist| > 0 && Stale(w, p)
    ensures IsStepOf(e, p) ==> Step(w, e).hist == w.hist
    ensures Stale(Step(w, e), p) || PassOf(Step(w, e), p) == Idle
  {
    hide Step;
    if IsStepOf(e, p) { StaleOwnStep(w, p, e); } else { OtherStep(w, p, e); }
  }

  ghost predicate StaleOrDone(w: World, p: nat) {
    Stale(w, p) || PassOf(w, p) == Idle
  }

  lemma {:induction false} StaysStale(w: World, p: nat, events: seq<Event>)
    requires |w.hist| > 0 && StaleOrDone(w, p)
    requires forall i :: 0 <= i < |events| ==> !(events[i].Fetch? && events[i].p == p)
    ensures StaleOrDone(Run(w, events), p)
    decreases |events|
  {
    hide Step, Stale;
    if events != [] {
      if Stale(w, p) { StaleStep(w, p, events[0]); } else { IdleStep(w, p, events[0]); }
      StaysStale(Step(w, events[0]), p, events[1..]);
    }
  }

  /** The pass does not take over the version its own write made, so from then on, whatever else happens, it is
      stale until it ends. */
  lemma {:induction false} ChangingSaveMakesStale(w: World, p: nat, delivered: bool, events: seq<Event>)
    requires |w.hist| > 0 && Inv(w) && PassOf(w, p).Saving? && SaveStep(w, p, delivered).hist != w.hist
    requires forall i :: 0 <= i < |events| ==> !(events[i].Fetch? && events[i].p == p)
    ensures StaleOrDone(Run(SaveStep(w, p, delivered), events), p)
  {
    hide Run;
    StaysStale(SaveStep(w, p, delivered), p, events);
  }

  /** A stale pass adds no version of its own until it ends: along a run in which it fetches nothing new, each
      of its steps leaves the stored object as it found it. */
  lemma {:induction false} StalePassWritesNothing(w: World, p: nat, events: seq<Event>, k: nat)
    requires |w.hist| > 0 && Inv(w) && StaleOrDone(w, p)
    requires forall i :: 0 <= i < |events| ==> !(events[i].Fetch? && events[i].p == p)
    requires k < |events| && IsStepOf(events[k], p)
    ensures Run(w, events[..k + 1]).hist == Run(w, events[..k]).hist
    decreases |events|
  {
    hide Step, Stale, Inv, IsStepOf;
    var w1 := Step(w, events[0]);
    assert events[..k + 1][1..] == events[1..][..k];
    if k == 0 {
      assert events[..0] == [] && events[1..][..0] == [];
      if Stale(w, p) { StaleStep(w, p, events[0]); } else { IdleStep(w, p, events[0]); }
    } else {
      StepKeepsInv(w, events[0]);
      if Stale(w, p) { StaleStep(w, p, events[0]); } else { IdleStep(w, p, events[0]); }
      StalePassWritesNothing(w1, p, events[1..], k - 1);
      assert events[..k][1..] == events[1..][..k - 1];
    }
  }

  lemma IdleStep(w: World, p: nat, e: Event)
    requires |w.hist| > 0 && PassOf(w, p) == Idle && !(e.Fetch? && e.p == p)
    ensures PassOf(Step(w, e), p) == Idle
    ensures IsStepOf(e, p) ==> Step(w, e).hist == w.hist
  {
    hide DesiredLabels, DocAfter, Checked, Ended, Started, NextAction;
  }

  // ----- Single steps -----

  /** A user's edit becomes the current version with the status that was stored. */
  lemma {:induction false} EditIsStored(w: World, spec: Spec, labels: map<string, string>, annotations: map<string, string>)
    requires |w.hist| > 0
    ensures var was, hist := w.hist[|w.hist| - 1], Step(w, Edit(spec, labels, annotations)).hist;
      hist[|hist| - 1] == Cluster(was.meta, spec, labels, annotations, was.status)
  {
  }

  /** What the handlers made of the object is stored, be it the reason of a failure, exactly by a write that arrives
      at the version the pass has read. A failure ends the pass, but a write that is lost or refused does not. */
  lemma {:induction false} OutcomeIsStored(w: World, p: nat, delivered: bool)
    requires |w.hist| > 0 && PassOf(w, p).Saving?
    ensures var pass, after := PassOf(w, p), Step(w, Save(p, delivered));
      && after.hist[|after.hist| - 1] == (if delivered && pass.rv == |w.hist| - 1 then pass.c else w.hist[|w.hist| - 1])
      && PassOf(after, p) == if pass.failed then Idle else Saved(pass.c, pass.rv, pass.probe)
  {
  }

  /** Labels are stored exactly for an object without labels, by a pass that still holds the current version; a pass
      that should store them and cannot ends there. */
  lemma {:induction false} LabelsStored(w: World, p: nat, delivered: bool)
    requires |w.hist| > 0 && PassOf(w, p).Saved? && PassOf(w, p).c.status.phase == Running
    ensures var pass, after := PassOf(w, p), Step(w, Label(p, delivered));
      && (PassOf(after, p).Labelled? <==> pass.c.labels != map[] || (delivered && Current(w.hist, pass.rv)))
      && (PassOf(after, p).Labelled? ==> PassOf(after, p).c == pass.c.(labels := DesiredLabels(pass.c)))
      && (pass.c.labels == map[] && delivered && Current(w.hist, pass.rv) ==>
            after.hist[|after.hist| - 1] == pass.c.(labels := DesiredLabels(pass.c)))
      && (pass.c.labels != map[] || !delivered || !Current(w.hist, pass.rv) ==> after.hist == w.hist)
  {
    hide DesiredLabels;
    DesiredNonempty(PassOf(w, p).c);
  }

  lemma DesiredNonempty(c: Cluster)
    ensures "version" in DesiredLabels(c)
  {
  }

  /** An update of a kstone cluster whose document is missing fails: its condition stays unfinished. */
  lemma {:induction false} UpdateNeedsDocument(w: World, p: nat, hooks: Hooks, landed: bool, sans: Json)
    requires |w.hist| > 0 && w.doc == None && PassOf(w, p).Operating? && PassOf(w, p).op == UpdateOp
    requires PassOf(w, p).c.spec.clusterType == Kstone && PassOf(w, p).c.status.conditions != []
    ensures var before, after := PassOf(w, p).c.status.conditions, PassOf(Step(w, RunHooks(p, hooks, landed, sans)), p);
      && after.Saving? && after.failed && Step(w, RunHooks(p, hooks, landed, sans)).doc == None
      && |after.c.status.conditions| == |before|
      && after.c.status.conditions[|before| - 1].status == before[|before| - 1].status
  {
    hide GenerateEtcdSpec, Document, UpdateEtcdSpec, CreatedAnnotations;
  }

  // ----- The operator's document -----

  /** The hooks of a kstone pass get as far as the main one, and its call takes effect. */
  predicate Writes(c: Cluster, hooks: Hooks, landed: bool) {
    c.spec.clusterType == Kstone && hooks.before.None? && (hooks.main.None? || landed)
  }

  predicate HasSpec(doc: Option<Json>) {
    doc.Some? && match Nested(doc.value, ["spec"]) case Some(Obj(_)) => true case _ => false
  }

  /** A document as it is written for `c`: up to date with its spec wherever the comparison looks, and with pods that
      carry the labels and annotations of `c`. */
  ghost predicate WrittenFor(doc: Option<Json>, c: Cluster) {
    && doc.Some? && Written(doc.value, c.spec)
    && (forall k :: Nested(doc.value, ["spec"] + ["template", "labels", k]) == if k in c.labels then Some(Str(c.labels[k])) else None)
    && (forall k :: Nested(doc.value, ["spec"] + ["template", "annotations", k])
                    == if k in c.annotations then Some(Str(c.annotations[k])) else None)
  }

  /** The document's own name, namespace and annotations are those of `c`. */
  ghost predicate NamedFor(doc: Option<Json>, c: Cluster) {
    && doc.Some?
    && NestedString(doc.value, ["metadata", "name"]) == c.meta.name
    && NestedString(doc.value, ["metadata", "namespace"]) == c.meta.namespace
    && (forall k :: Nested(doc.value, ["metadata", "annotations", k]) == if k in c.annotations then Some(Str(c.annotations[k])) else None)
  }

  lemma CreatedFor(c: Cluster, spec: Json)
    ensures NamedFor(Some(Document(c.meta, spec, c.annotations)), c)
  {
    hide Document, Nested, NestedString;
    ReadDocument(c.meta, spec, c.annotations, "", []);
    forall k
      ensures Nested(Document(c.meta, spec, c.annotations), ["metadata", "annotations", k])
              == if k in c.annotations then Some(Str(c.annotations[k])) else None
    {
      ReadDocument(c.meta, spec, c.annotations, k, []);
    }
  }

  lemma {:induction false} GeneratedFor(doc: Json, c: Cluster, sans: Json)
    requires var s := GenerateEtcdSpec(c.spec, c.labels, c.annotations, sans);
             Written(doc, c.spec) && forall path :: Nested(doc, ["spec"] + path) == Nested(s, path)
    ensures WrittenFor(Some(doc), c)
  {
    hide GenerateEtcdSpec, Nested, Written;
    forall k
      ensures Nested(doc, ["spec"] + ["template", "labels", k]) == if k in c.labels then Some(Str(c.labels[k])) else None
      ensures Nested(doc, ["spec"] + ["template", "annotations", k]) == if k in c.annotations then Some(Str(c.annotations[k])) else None
    {
      ReadPodMeta(c.spec, c.labels, c.annotations, sans, k);
    }
  }

  /** When the hooks of a pass write: a creation without a document makes one, an update replaces the spec of one that
      has a spec. In all other cases the document is left as it was, an existing one by every creation too. */
  lemma {:induction false} HooksWriteDocument(w: World, p: nat, hooks: Hooks, landed: bool, sans: Json)
    requires PassOf(w, p).Operating? && PassOf(w, p).c.status.conditions != []
    ensures var c, op, after := PassOf(w, p).c, PassOf(w, p).op, HooksStep(w, p, hooks, landed, sans).doc;
      if Writes(c, hooks, landed) && (if op == CreateOp then w.doc == None else HasSpec(w.doc))
      then WrittenFor(after, c) && (op == CreateOp ==> NamedFor(after, c)) else after == w.doc
  {
    hide GenerateEtcdSpec, Document, UpdateEtcdSpec, Nested, Written, WrittenFor, NamedFor, Ended, Panics;
    var c, op := PassOf(w, p).c, PassOf(w, p).op;
    var spec := GenerateEtcdSpec(c.spec, c.labels, c.annotations, sans);
    if op == CreateOp {
      var doc := Document(c.meta, spec, c.annotations);
      WritesDocument(doc, c.meta, c.spec, c.labels, c.annotations, sans);
      forall path ensures Nested(doc, ["spec"] + path) == Nested(spec, path) {
        ReadDocument(c.meta, spec, c.annotations, "", path);
      }
      GeneratedFor(doc, c, sans);
      CreatedFor(c, spec);
    } else if w.doc.Some? {
      var updated := UpdateEtcdSpec(w.doc.value, spec);
      UpdateReplacesSpec(w.doc.value, spec, "", []);
      WritesDocument(w.doc.value, c.meta, c.spec, c.labels, c.annotations, sans);
      if updated.Some? {
        forall path ensures Nested(updated.value, ["spec"] + path) == Nested(spec, path) {
          UpdateReplacesSpec(w.doc.value, spec, "", path);
        }
        GeneratedFor(updated.value, c, sans);
      }
    }
  }

  /** A document that is there stays, with every field but its spec as it was. */
  ghost predicate KeepsDocument(before: Option<Json>, after: Option<Json>) {
    before.Some? ==>
      && after.Some?
      && forall key, path :: key != "spec" ==> Nested(after.value, [key] + path) == Nested(before.value, [key] + path)
  }

  lemma StepKeepsDocument(w: World, e: Event)
    requires |w.hist| > 0
    ensures KeepsDocument(w.doc, Step(w, e).doc)
  {
    hide GenerateEtcdSpec, Document, UpdateEtcdSpec, Nested, Ended, Panics;
    if e.RunHooks? && PassOf(w, e.p).Operating? && w.doc.Some? {
      var c := PassOf(w, e.p).c;
      var spec := GenerateEtcdSpec(c.spec, c.labels, c.annotations, e.sans);
      forall key, path | key != "spec"
        ensures var updated := UpdateEtcdSpec(w.doc.value, spec);
                updated.Some? ==> Nested(updated.value, [key] + path) == Nested(w.doc.value, [key] + path)
      {
        UpdateReplacesSpec(w.doc.value, spec, key, path);
      }
    }
  }

  /** In every run, whatever creations and updates it holds, the operator's document is never taken away again, and
      all that later calls change of it is its spec. */
  lemma {:induction false} RunKeepsDocument(w: World, events: seq<Event>)
    requires |w.hist| > 0
    ensures KeepsDocument(w.doc, Run(w, events).doc)
    decreases |events|
  {
    hide Step, Nested;
    if events != [] {
      StepKeepsDocument(w, events[0]);
      RunKeepsDocument(Step(w, events[0]), events[1..]);
    }
  }
}
