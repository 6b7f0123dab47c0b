/** Undisturbed rounds of the controller settle: at most one create and one update, then status checks only. */
module Convergence {
  import opened Options
  import opened KstoneSpec
  import opened Cluster
  import opened Controller

  function Latest(w: World): Cluster
    requires |w.hist| > 0
  {
    w.hist[|w.hist| - 1]
  }

  /** What a pass that reads the current version would do. */
  function ActionOf(w: World): Action
    requires |w.hist| > 0
  {
    NextAction(Latest(w), w.doc, false)
  }

  // ----- The operator's document along a run -----

  /** The document was written for the spec of some stored version. */
  ghost predicate GoodDoc(doc: Option<Json>, hist: seq<Cluster>) {
    doc.Some? ==> exists i :: 0 <= i < |hist| && Written(doc.value, hist[i].spec)
  }

  lemma GoodDocLater(doc: Option<Json>, hist: seq<Cluster>, later: seq<Cluster>)
    requires GoodDoc(doc, hist) && hist <= later
    ensures GoodDoc(doc, later)
  {
    if doc.Some? {
      var i :| 0 <= i < |hist| && Written(doc.value, hist[i].spec);
      assert later[i] == hist[i];
    }
  }

  lemma DocKept(w: World, c: Cluster, rv: nat, op: Operation, hooks: Hooks, landed: bool, sans: Json)
    requires GoodDoc(w.doc, w.hist) && rv < |w.hist| && c.spec == w.hist[rv].spec
    ensures GoodDoc(DocAfter(w, c, op, hooks, landed, sans), w.hist)
    ensures w.doc.Some? ==> DocAfter(w, c, op, hooks, landed, sans).Some?
    ensures op == UpdateOp && w.doc.None? ==> DocAfter(w, c, op, hooks, landed, sans).None?
    ensures c.spec.clusterType == Kstone && FirstError(hooks) == None && (op == UpdateOp ==> w.doc.Some?) ==>
              DocAfter(w, c, op, hooks, landed, sans).Some?
    ensures c.spec.clusterType == Kstone && FirstError(hooks) == None && w.doc.Some? && op == UpdateOp ==>
              Written(DocAfter(w, c, op, hooks, landed, sans).value, c.spec)
  {
    hide GenerateEtcdSpec, Document;
    var spec := GenerateEtcdSpec(c.spec, c.labels, c.annotations, sans);
    var before := if w.doc.Some? then w.doc.value else Null;
    WritesDocument(before, c.meta, c.spec, c.labels, c.annotations, sans);
    if w.doc.Some? {
      GeneratedIsObject(w.doc.value);
    }
  }

  lemma GeneratedIsObject(doc: Json)
    requires exists spec :: Written(doc, spec)
    ensures doc.Obj? && "spec" in doc.fields && doc.fields["spec"].Obj?
  {
  }

  lemma HooksKeepDoc(w: World, p: nat, hooks: Hooks, landed: bool, sans: Json)
    requires Inv(w) && GoodDoc(w.doc, w.hist)
    ensures var w' := HooksStep(w, p, hooks, landed, sans); GoodDoc(w'.doc, w'.hist)
  {
    hide Shaped, Truthful, DocAfter, Ended, HookErrors, GoodDoc, Panics;
    if PassOf(w, p).Operating? {
      var pass := w.passes[p];
      assert GoodPass(w.hist, w.now, pass);
      DocKept(w, pass.c, pass.rv, pass.op, HookErrors(w, pass.c, pass.op, hooks), landed, sans);
    }
  }

  lemma {:induction false} StepKeepsDoc(w: World, e: Event)
    requires |w.hist| > 0 && Inv(w) && GoodDoc(w.doc, w.hist)
    ensures GoodDoc(Step(w, e).doc, Step(w, e).hist)
  {
    hide Inv, GoodDoc, NextAction, Checked, DesiredLabels, HooksStep;
    match e
    case RunHooks(p, hooks, landed, sans) => HooksKeepDoc(w, p, hooks, landed, sans);
    case _ => GoodDocLater(w.doc, w.hist, Step(w, e).hist);
  }

  /** In every run the document was written for the spec of a stored version. */
  lemma {:induction false} RunKeepsDoc(w: World, events: seq<Event>)
    requires |w.hist| > 0 && Inv(w) && GoodDoc(w.doc, w.hist)
    ensures GoodDoc(Run(w, events).doc, Run(w, events).hist)
    decreases |events|
  {
    hide Inv, GoodDoc, Step;
    if events != [] {
      StepKeepsInv(w, events[0]);
      StepKeepsDoc(w, events[0]);
      RunKeepsDoc(Step(w, events[0]), events[1..]);
    }
  }

  // ----- Which clusters can be operated -----

  /** The next operation, if there is one, can be finished: a creation must not panic, and an update, or the
      comparison, needs the operator's document. */
  predicate Operable(w: World)
    requires |w.hist| > 0
  {
    var c := Latest(w);
    match c.spec.clusterType
    case Imported => true
    case Kstone => if NextIsCreate(c.status.conditions) then c.annotations != map[] else w.doc.Some?
    case OtherType(_) => false
  }

  /** A world that a run reaches, with an idle worker. */
  ghost predicate Sound(w: World, p: nat) {
    |w.hist| > 0 && Inv(w) && GoodDoc(w.doc, w.hist) && PassOf(w, p) == Idle
  }

  /** Such a world whose cluster can be operated. */
  ghost predicate Ready(w: World, p: nat) {
    Sound(w, p) && Operable(w)
  }

  lemma FreshSound(w: World)
    requires Fresh(w)
    ensures |w.hist| > 0 && Inv(w) && GoodDoc(w.doc, w.hist)
  {
    FreshInv(w);
  }

  /** Every world that a run reaches is sound for every idle worker. */
  lemma {:induction false} ReachableSound(w: World, events: seq<Event>, p: nat)
    requires Fresh(w) && PassOf(Run(w, events), p) == Idle
    ensures Sound(Run(w, events), p)
  {
    hide Run, Inv, GoodDoc;
    FreshSound(w);
    RunKeepsInv(w, events);
    RunKeepsDoc(w, events);
  }

  // ----- Rounds -----

  /** What the environment contributes to one undisturbed round. */
  datatype Round = Round(seconds: nat, sans: Json, probe: Probe, gates: map<string, string>, labels: map<string, string>)

  const NO_ERRORS: Hooks := Hooks(None, None, None)

  /** A whole pass of worker `p` with a fresh read, no failing call and no interleaving. Steps that the
      decision does not lead to are not possible and change nothing. */
  function RoundEvents(w: World, p: nat, r: Round): seq<Event>
    requires |w.hist| > 0
  {
    [Tick(r.seconds), Fetch(p, |w.hist| - 1)] +
    [Decide(p, false), RunHooks(p, NO_ERRORS, true, r.sans), Check(p, r.probe)] +
    [Save(p, true), Label(p, true), Sync(p, r.gates, r.labels, true)]
  }

  /** The worker has read the current version. */
  function Opened(w: World, p: nat, r: Round): (w': World)
    requires |w.hist| > 0
    ensures |w'.hist| > 0
  {
    SetPass(w.(now := w.now + r.seconds), p, Fetched(Latest(w), |w.hist| - 1))
  }

  /** The handler the decision asks for has run. */
  function Handled(w: World, p: nat, r: Round): (w': World)
    ensures |w.hist| <= |w'.hist|
  {
    CheckStep(HooksStep(DecideStep(w, p, false), p, NO_ERRORS, true, r.sans), p, r.probe)
  }

  /** The pass after its handler: save, labels, features. */
  function Closed(w: World, p: nat, r: Round): (w': World)
    ensures |w.hist| <= |w'.hist|
  {
    SyncStep(LabelStep(SaveStep(w, p, true), p, true), p, r.gates, r.labels, true)
  }

  function AfterRound(w: World, p: nat, r: Round): (w': World)
    requires |w.hist| > 0
    ensures |w'.hist| > 0
  {
    Closed(Handled(Opened(w, p, r), p, r), p, r)
  }

  lemma {:induction false} RunConcat(w: World, a: seq<Event>, b: seq<Event>)
    requires |w.hist| > 0
    ensures Run(w, a + b) == Run(Run(w, a), b)
    decreases |a|
  {
    hide Step;
    if a == [] {
      assert a + b == b;
    } else {
      RunConcat(Step(w, a[0]), a[1..], b);
      assert (a + b)[1..] == a[1..] + b;
    }
  }

  lemma RunCons(w: World, e: Event, rest: seq<Event>)
    requires |w.hist| > 0
    ensures Run(w, [e] + rest) == Run(Step(w, e), rest)
  {
    hide Step;
    assert ([e] + rest)[1..] == rest;
  }

  lemma {:induction false} RunThree(w: World, e1: Event, e2: Event, e3: Event)
    requires |w.hist| > 0
    ensures Run(w, [e1, e2, e3]) == Step(Step(Step(w, e1), e2), e3)
  {
    hide *;
    RunCons(w, e1, [e2, e3]);
    RunCons(Step(w, e1), e2, [e3]);
    RunCons(Step(Step(w, e1), e2), e3, []);
    RunNothing(Step(Step(Step(w, e1), e2), e3));
    assert [e1, e2, e3] == [e1] + [e2, e3] && [e2, e3] == [e2] + [e3] && [e3] == [e3] + [];
  }

  lemma RunNothing(w: World)
    requires |w.hist| > 0
    ensures Run(w, []) == w
  {
    hide Step;
  }

  lemma OpensBySteps(w: World, p: nat, r: Round)
    requires |w.hist| > 0 && PassOf(w, p) == Idle
    ensures Step(Step(w, Tick(r.seconds)), Fetch(p, |w.hist| - 1)) == Opened(w, p, r)
  {
    hide DecideStep, HooksStep, CheckStep, SaveStep, LabelStep, SyncStep, EditStep;
    var w1 := w.(now := w.now + r.seconds);
    assert Step(w, Tick(r.seconds)) == w1;
    assert PassOf(w1, p) == Idle;
  }

  lemma {:induction false} OpensByRun(w: World, p: nat, r: Round)
    requires |w.hist| > 0 && PassOf(w, p) == Idle
    ensures Run(w, [Tick(r.seconds), Fetch(p, |w.hist| - 1)]) == Opened(w, p, r)
  {
    hide *;
    var tick, fetch := Tick(r.seconds), Fetch(p, |w.hist| - 1);
    OpensBySteps(w, p, r);
    RunCons(w, tick, [fetch]);
    RunCons(Step(w, tick), fetch, []);
    RunNothing(Step(Step(w, tick), fetch));
    assert [tick, fetch] == [tick] + [fetch] && [fetch] == [fetch] + [];
  }

  lemma HandlesBySteps(w: World, p: nat, r: Round)
    requires |w.hist| > 0
    ensures Step(Step(Step(w, Decide(p, false)), RunHooks(p, NO_ERRORS, true, r.sans)), Check(p, r.probe)) == Handled(w, p, r)
  {
    hide DecideStep, HooksStep, CheckStep, SaveStep, LabelStep, SyncStep, EditStep;
  }

  lemma ClosesBySteps(w: World, p: nat, r: Round)
    requires |w.hist| > 0
    ensures Step(Step(Step(w, Save(p, true)), Label(p, true)), Sync(p, r.gates, r.labels, true)) == Closed(w, p, r)
  {
    hide DecideStep, HooksStep, CheckStep, SaveStep, LabelStep, SyncStep, EditStep;
  }

  /** A round is the run of its events. */
  lemma {:induction false} RoundIsRun(w: World, p: nat, r: Round)
    requires |w.hist| > 0 && PassOf(w, p) == Idle
    ensures AfterRound(w, p, r) == Run(w, RoundEvents(w, p, r))
  {
    var read := [Tick(r.seconds), Fetch(p, |w.hist| - 1)];
    var handle := [Decide(p, false), RunHooks(p, NO_ERRORS, true, r.sans), Check(p, r.probe)];
    var close := [Save(p, true), Label(p, true), Sync(p, r.gates, r.labels, true)];
    hide Run, Step, Handled, Closed, Opened, PassOf;
    RunConcat(w, read + handle, close);
    RunConcat(w, read, handle);
    OpensByRun(w, p, r);
    var w2 := Opened(w, p, r);
    RunThree(w2, handle[0], handle[1], handle[2]);
    HandlesBySteps(w2, p, r);
    var w5 := Handled(w2, p, r);
    RunThree(w5, close[0], close[1], close[2]);
    ClosesBySteps(w5, p, r);
  }

  // ----- The pieces of a round -----

  lemma DecideOp(w: World, p: nat, c: Cluster, rv: nat, op: Operation)
    requires PassOf(w, p) == Fetched(c, rv)
    requires NextAction(c, w.doc, false) == if op == CreateOp then CreateAction else UpdateAction
    ensures DecideStep(w, p, false) == SetPass(w, p, Operating(Started(c, op, w.now), rv, op))
  {
    hide NextAction, Started;
  }

  lemma HandledOp(w: World, p: nat, c: Cluster, rv: nat, op: Operation, r: Round)
    requires PassOf(w, p) == Operating(c, rv, op) && c.status.conditions != []
    requires HookErrors(w, c, op, NO_ERRORS) == NO_ERRORS && !Panics(c, op, NO_ERRORS)
    ensures CheckStep(HooksStep(w, p, NO_ERRORS, true, r.sans), p, r.probe) ==
            SetPass(w.(doc := DocAfter(w, c, op, NO_ERRORS, true, r.sans)), p, Saving(Ended(c, op, NO_ERRORS, w.now), rv, false, None))
  {
    hide DocAfter, Ended, HookErrors, Checked, Panics;
  }

  lemma HandledCheck(w: World, p: nat, c: Cluster, rv: nat, r: Round)
    requires PassOf(w, p) == Fetched(c, rv) && NextAction(c, w.doc, false) == StatusAction
    ensures Handled(w, p, r) ==
            SetPass(w, p, if r.probe.configured then Saving(Checked(c, r.probe), rv, false, Some(r.probe)) else Saving(c, rv, true, None))
  {
    hide NextAction, Checked;
    assert DecideStep(w, p, false) == SetPass(w, p, CheckDue(c, rv));
  }

  lemma Saves(w: World, p: nat, c: Cluster, rv: nat, probe: Option<Probe>)
    requires PassOf(w, p) == Saving(c, rv, false, probe) && Current(w.hist, rv)
    ensures SaveStep(w, p, true) == SetPass(w.(hist := Accepted(w.hist, c, rv)), p, Saved(c, rv, probe))
    ensures |Accepted(w.hist, c, rv)| > 0 && Latest(SaveStep(w, p, true)) == c
    ensures w.hist[rv] == c ==> Accepted(w.hist, c, rv) == w.hist
  {
  }

  lemma StopsUnlessRunning(w: World, p: nat, c: Cluster, rv: nat, probe: Option<Probe>, r: Round)
    requires PassOf(w, p) == Saved(c, rv, probe) && c.status.phase != Running
    ensures SyncStep(LabelStep(w, p, true), p, r.gates, r.labels, true) == SetPass(w, p, Idle)
  {
  }

  /** How far a world is from checking the status only. */
  function Rank(a: Action): nat {
    match a
    case CreateAction => 2
    case UpdateAction => 1
    case _ => 0
  }

  /** The disk size can be compared at all. */
  predicate Comparable(spec: Spec) {
    spec.clusterType == Kstone ==> spec.diskSize < TWO_63
  }

  predicate LastFinished(cs: seq<Condition>) {
    cs != [] && cs[|cs| - 1].status == CondTrue
  }

  /** An operation round stores the finished condition list and, for an update, a document for the spec. */
  lemma {:induction false} OperationRound(w: World, p: nat, r: Round, op: Operation)
    requires |w.hist| > 0 && Ready(w, p) && ActionOf(w) == if op == CreateOp then CreateAction else UpdateAction
    ensures var w' := AfterRound(w, p, r);
      && PassOf(w', p) == Idle
      && Latest(w').spec == Latest(w).spec
      && LastFinished(Latest(w').status.conditions)
      && Latest(w').status.gates == Latest(w).status.gates
      && (Latest(w).spec.clusterType == Kstone ==> w'.doc.Some?)
      && (op == UpdateOp && Latest(w).spec.clusterType == Kstone ==> w'.doc.Some? && Written(w'.doc.value, Latest(w).spec))
  {
    hide Inv, GoodDoc, DocAfter, Started, Ended, HookErrors, NextAction, Handled, Closed, Accepted, KstoneSpec.Written;
    var c := Latest(w);
    var w2 := Opened(w, p, r);
    var started := Started(c, op, w2.now);
    var w3 := SetPass(w2, p, Operating(started, |w.hist| - 1, op));
    OperationFacts(w, w3, op, w2.now);
    OperationHandled(w, p, r, op);
    OperationClosed(Handled(w2, p, r), p, Ended(started, op, NO_ERRORS, w2.now), |w.hist| - 1, r);
    if c.spec.clusterType == Kstone {
      DocKept(w3, started, |w.hist| - 1, op, NO_ERRORS, true, r.sans);
    }
  }

  lemma {:induction false} OperationHandled(w: World, p: nat, r: Round, op: Operation)
    requires |w.hist| > 0 && Ready(w, p) && ActionOf(w) == if op == CreateOp then CreateAction else UpdateAction
    ensures var w2 := Opened(w, p, r);
      var started := Started(Latest(w), op, w2.now);
      var w3 := SetPass(w2, p, Operating(started, |w.hist| - 1, op));
      started.status.conditions != [] &&
      Handled(w2, p, r) ==
        SetPass(w3.(doc := DocAfter(w3, started, op, NO_ERRORS, true, r.sans)), p,
                Saving(Ended(started, op, NO_ERRORS, w2.now), |w.hist| - 1, false, None))
  {
    hide Inv, GoodDoc, DocAfter, Started, Ended, HookErrors, NextAction, DecideStep, HooksStep, CheckStep, LastFinished, Panics;
    var w2 := Opened(w, p, r);
    var started := Started(Latest(w), op, w2.now);
    var w3 := SetPass(w2, p, Operating(started, |w.hist| - 1, op));
    OperationFacts(w, w3, op, w2.now);
    DecideOp(w2, p, Latest(w), |w.hist| - 1, op);
    HandledOp(w3, p, started, |w.hist| - 1, op, r);
  }

  lemma OperationClosed(w: World, p: nat, ended: Cluster, rv: nat, r: Round)
    requires PassOf(w, p) == Saving(ended, rv, false, None) && Current(w.hist, rv) && ended.status.phase != Running
    ensures var w' := Closed(w, p, r);
      |w'.hist| > 0 && Latest(w') == ended && w'.doc == w.doc && PassOf(w', p) == Idle
  {
    hide SaveStep, LabelStep, SyncStep, Accepted;
    Saves(w, p, ended, rv, None);
    StopsUnlessRunning(SaveStep(w, p, true), p, ended, rv, None, r);
  }

  lemma OperationFacts(w: World, w3: World, op: Operation, now: int)
    requires |w.hist| > 0 && Inv(w) && Operable(w)
    requires w3.doc == w.doc && ActionOf(w) == if op == CreateOp then CreateAction else UpdateAction
    ensures var started := Started(Latest(w), op, now);
      && started.status.conditions != [] && started.spec == Latest(w).spec
      && HookErrors(w3, started, op, NO_ERRORS) == NO_ERRORS && !Panics(started, op, NO_ERRORS)
      && (op == UpdateOp && started.spec.clusterType == Kstone ==> w.doc.Some?)
      && var ended := Ended(started, op, NO_ERRORS, w3.now);
         ended.spec == Latest(w).spec && LastFinished(ended.status.conditions) && ended.status.phase == OpPhase(op)
         && ended.status.gates == Latest(w).status.gates
  {
    hide UpToDate, CreatedAnnotations, Inv;
    ActionNeeds(w);
  }

  /** A creation is decided by the condition list alone. */
  lemma ActionNeeds(w: World)
    requires |w.hist| > 0 && Inv(w)
    ensures ActionOf(w) == CreateAction <==> !Latest(w).spec.clusterType.OtherType? && NextIsCreate(Latest(w).status.conditions)
  {
    hide UpToDate;
  }

  /** A status round changes neither the spec nor the conditions nor the document. */
  lemma {:induction false} StatusRound(w: World, p: nat, r: Round)
    requires |w.hist| > 0 && Ready(w, p) && ActionOf(w) == StatusAction
    ensures var w' := AfterRound(w, p, r);
      && PassOf(w', p) == Idle && w'.doc == w.doc
      && Latest(w').spec == Latest(w).spec && Latest(w').status.conditions == Latest(w).status.conditions
  {
    hide Inv, GoodDoc, NextAction, Checked, Handled, Closed;
    var c, rv := Latest(w), |w.hist| - 1;
    var w2 := Opened(w, p, r);
    CheckKeeps(c, r.probe);
    HandledCheck(w2, p, c, rv, r);
    var checked := if r.probe.configured then Checked(c, r.probe) else c;
    CheckClosed(Handled(w2, p, r), p, c, checked, rv, r);
  }

  lemma CheckClosed(w: World, p: nat, c: Cluster, checked: Cluster, rv: nat, r: Round)
    requires |w.hist| > 0 && Current(w.hist, rv) && Latest(w) == c
    requires checked.spec == c.spec && checked.status.conditions == c.status.conditions
    requires PassOf(w, p) == Saving(checked, rv, false, Some(r.probe)) || (PassOf(w, p) == Saving(checked, rv, true, None) && checked == c)
    ensures var w' := Closed(w, p, r);
      && |w'.hist| > 0 && PassOf(w', p) == Idle && w'.doc == w.doc
      && Latest(w').spec == c.spec && Latest(w').status.conditions == c.status.conditions
  {
    hide LabelStep, SyncStep;
    if !PassOf(w, p).failed { Saves(w, p, checked, rv, Some(r.probe)); }
    var w6 := SaveStep(w, p, true);
    assert |w6.hist| > 0 && Latest(w6).spec == c.spec && Latest(w6).status.conditions == c.status.conditions;
    SaveEnds(w6, LabelStep(w6, p, true), p, r);
  }

  lemma CheckKeeps(c: Cluster, probe: Probe)
    ensures var c' := Checked(c, probe);
      && c'.meta == c.meta && c'.spec == c.spec && c'.annotations == c.annotations && c'.labels == c.labels
      && c'.status.conditions == c.status.conditions && c'.status.gates == c.status.gates
  {
  }

  /** The rest of a pass after the handler's write keeps spec, conditions and document. */
  lemma SaveEnds(w6: World, w7: World, p: nat, r: Round)
    requires |w6.hist| > 0 && w7 == LabelStep(w6, p, true)
    requires PassOf(w6, p) == Idle || PassOf(w6, p).Saved?
    requires PassOf(w6, p).Saved? ==>
               var pass := PassOf(w6, p);
               pass.c.spec == Latest(w6).spec && pass.c.status.conditions == Latest(w6).status.conditions
    ensures var w' := SyncStep(w7, p, r.gates, r.labels, true);
      && |w'.hist| > 0 && PassOf(w', p) == Idle && w'.doc == w6.doc
      && Latest(w').spec == Latest(w6).spec && Latest(w').status.conditions == Latest(w6).status.conditions
  {
    hide DesiredLabels;
  }

  /** After a finished operation the decision rests on the comparison. */
  lemma SettledAction(w: World)
    requires |w.hist| > 0 && Latest(w).spec.clusterType in {Kstone, Imported}
    requires LastFinished(Latest(w).status.conditions)
    ensures ActionOf(w) ==
            match ProviderEqual(Latest(w), w.doc, false)
            case None => NoAction
            case Some(equal) => if equal then StatusAction else UpdateAction
  {
    hide UpToDate;
  }

  lemma {:induction false} RoundKeepsSound(w: World, p: nat, r: Round)
    requires |w.hist| > 0 && Sound(w, p)
    ensures Inv(AfterRound(w, p, r)) && GoodDoc(AfterRound(w, p, r).doc, AfterRound(w, p, r).hist)
  {
    hide Inv, GoodDoc, AfterRound, Run, RoundEvents;
    RoundIsRun(w, p, r);
    RunKeepsInv(w, RoundEvents(w, p, r));
    RunKeepsDoc(w, RoundEvents(w, p, r));
  }

  lemma {:induction false} RoundStaysReady(w: World, p: nat, r: Round)
    requires |w.hist| > 0 && Ready(w, p)
    ensures Ready(AfterRound(w, p, r), p)
    ensures Latest(AfterRound(w, p, r)).spec == Latest(w).spec
    ensures ActionOf(w) != NoAction
  {
    hide Inv, GoodDoc, AfterRound, NextAction, ActionOf, KstoneSpec.Written;
    RoundKeepsSound(w, p, r);
    NeverStuck(w);
    ActionNeeds(w);
    match ActionOf(w) {
      case CreateAction => OperationRound(w, p, r, CreateOp);
      case UpdateAction => OperationRound(w, p, r, UpdateOp);
      case _ => StatusRound(w, p, r);
    }
  }

  /** The comparison of a cluster that can be operated never fails. */
  lemma NeverStuck(w: World)
    requires |w.hist| > 0 && Inv(w) && Operable(w)
    ensures ActionOf(w) != NoAction
  {
    hide UpToDate, Inv;
  }

  /** The rank, for a round taken as the composition of its pieces. */
  lemma {:induction false} PassLowersRank(w: World, p: nat, r: Round)
    requires |w.hist| > 0 && Ready(w, p) && Comparable(Latest(w).spec)
    ensures Ready(AfterRound(w, p, r), p)
    ensures var before, now := Rank(ActionOf(w)), Rank(ActionOf(AfterRound(w, p, r)));
      if before == 0 then now == 0 else now < before
  {
    hide AfterRound, Inv, GoodDoc, NextAction;
    RoundStaysReady(w, p, r);
    var w' := AfterRound(w, p, r);
    NeverStuck(w');
    match ActionOf(w) {
      case CreateAction => OperationRound(w, p, r, CreateOp); SettledAction(w');
      case UpdateAction =>
        OperationRound(w, p, r, UpdateOp);
        SettledAction(w');
        if Latest(w).spec.clusterType == Kstone { UpdateSettles(Latest(w').spec, w'.doc.value); }
      case _ => StatusRound(w, p, r); SameAction(w, w');
    }
  }

  /** The world after a round. */
  function RoundRun(w: World, p: nat, r: Round): (w': World)
    requires |w.hist| > 0
    ensures |w'.hist| > 0
  {
    Run(w, RoundEvents(w, p, r))
  }

  lemma SoundRound(w: World, p: nat, r: Round)
    requires |w.hist| > 0 && Sound(w, p)
    ensures RoundRun(w, p, r) == AfterRound(w, p, r)
  {
    hide Run, RoundEvents, AfterRound, Inv, GoodDoc;
    RoundIsRun(w, p, r);
  }

  /** A round strictly lowers the rank of a world that still has an operation to do, and a world that only
      checks the status keeps doing so. */
  lemma {:induction false} RoundLowersRank(w: World, p: nat, r: Round)
    requires |w.hist| > 0 && Ready(w, p) && Comparable(Latest(w).spec)
    ensures Ready(RoundRun(w, p, r), p)
    ensures Latest(RoundRun(w, p, r)).spec == Latest(w).spec
    ensures var before, now := Rank(ActionOf(w)), Rank(ActionOf(RoundRun(w, p, r)));
      if before == 0 then now == 0 else now < before
  {
    hide RoundRun, AfterRound, ActionOf, Inv, GoodDoc, Operable;
    SoundRound(w, p, r);
    PassLowersRank(w, p, r);
    RoundStaysReady(w, p, r);
  }

  lemma SameAction(w: World, w': World)
    requires |w.hist| > 0 && |w'.hist| > 0 && w.doc == w'.doc
    requires Latest(w').spec == Latest(w).spec && Latest(w').status.conditions == Latest(w).status.conditions
    ensures ActionOf(w) == ActionOf(w')
  {
    hide UpToDate;
  }

  /** The actions of consecutive rounds. */
  function Actions(w: World, p: nat, rounds: seq<Round>): seq<Action>
    requires |w.hist| > 0
    decreases |rounds|
  {
    if rounds == [] then [] else [ActionOf(w)] + Actions(RoundRun(w, p, rounds[0]), p, rounds[1..])
  }

  lemma {:induction false} RankAt(w: World, p: nat, rounds: seq<Round>, k: nat)
    requires |w.hist| > 0 && Ready(w, p) && Comparable(Latest(w).spec) && k < |rounds|
    ensures |Actions(w, p, rounds)| == |rounds|
    ensures Rank(Actions(w, p, rounds)[k]) <= (if Rank(ActionOf(w)) <= k then 0 else Rank(ActionOf(w)) - k)
    ensures Actions(w, p, rounds)[k] != NoAction
    decreases |rounds|
  {
    hide RoundRun, AfterRound, Ready, ActionOf, Inv, GoodDoc, Operable;
    RoundStaysReady(w, p, rounds[0]);
    ActionsLength(w, p, rounds);
    if k > 0 {
      RoundLowersRank(w, p, rounds[0]);
      RankAt(RoundRun(w, p, rounds[0]), p, rounds[1..], k - 1);
    }
  }

  lemma {:induction false} ActionsLength(w: World, p: nat, rounds: seq<Round>)
    requires |w.hist| > 0
    ensures |Actions(w, p, rounds)| == |rounds|
    decreases |rounds|
  {
    hide RoundRun;
    if rounds != [] { ActionsLength(RoundRun(w, p, rounds[0]), p, rounds[1..]); }
  }

  lemma {:induction false} ReadySettles(w: World, p: nat, rounds: seq<Round>, k: nat)
    requires |w.hist| > 0 && Ready(w, p) && Comparable(Latest(w).spec) && k < |rounds|
    ensures |Actions(w, p, rounds)| == |rounds|
    ensures var actions := Actions(w, p, rounds);
      && (actions[k] == CreateAction ==> k == 0)
      && (actions[k] == UpdateAction ==> k == 0 || (k == 1 && actions[0] == CreateAction))
      && (k >= 2 ==> actions[k] == StatusAction)
  {
    hide Ready, RoundRun;
    RankAt(w, p, rounds, k);
    RankAt(w, p, rounds, 0);
  }

  /** The cluster can be operated, and its disk size can be compared. */
  predicate WillSettle(w: World)
    requires |w.hist| > 0
  {
    Operable(w) && Comparable(Latest(w).spec)
  }

  /** After any run from a fresh cluster, undisturbed rounds reach the status check exactly for these clusters: then
      they create at most once, first, update at most once, right after that or first, and do nothing but check
      the status from the third round on; for all others no round, however late, ever checks the status. */
  lemma {:induction false} Settles(w: World, events: seq<Event>, p: nat, rounds: seq<Round>, k: nat)
    requires Fresh(w) && PassOf(Run(w, events), p) == Idle && k < |rounds|
    ensures |Actions(Run(w, events), p, rounds)| == |rounds|
    ensures var actions := Actions(Run(w, events), p, rounds);
      && (k >= 2 ==> (actions[k] == StatusAction <==> WillSettle(Run(w, events))))
      && (!WillSettle(Run(w, events)) ==> actions[k] != StatusAction)
      && (WillSettle(Run(w, events)) && actions[k] == CreateAction ==> k == 0)
      && (WillSettle(Run(w, events)) && actions[k] == UpdateAction ==>
            k == 0 || (k == 1 && actions[0] == CreateAction))
  {
    hide Sound, Operable, Comparable, Run, Actions;
    ReachableSound(w, events, p);
    var v := Run(w, events);
    ActionsLength(v, p, rounds);
    if WillSettle(v) {
      ReadySettles(v, p, rounds, k);
    } else if Operable(v) {
      HugeDiskNeverSettles(v, p, rounds, k);
    } else {
      HopelessNeverSettles(v, p, rounds, k);
    }
  }

  // ----- Clusters that cannot be operated -----

  /** Operations on such a cluster fail, panic, or are never tried, and leave it so. */
  lemma {:induction false} HopelessRound(w: World, p: nat, r: Round)
    requires |w.hist| > 0 && Sound(w, p) && !Operable(w)
    ensures Sound(AfterRound(w, p, r), p) && !Operable(AfterRound(w, p, r))
    ensures ActionOf(w) != StatusAction
    ensures Latest(AfterRound(w, p, r)).status.gates == Latest(w).status.gates
  {
    hide Inv, GoodDoc, AfterRound, UpToDate;
    RoundKeepsSound(w, p, r);
    ActionNeeds(w);
    match ActionOf(w) {
      case NoAction => GivenUp(w, p, r);
      case CreateAction => CreatePanics(w, p, r);
      case UpdateAction => UpdateFails(w, p, r);
      case StatusAction =>
    }
  }

  lemma GivenUp(w: World, p: nat, r: Round)
    requires |w.hist| > 0 && PassOf(w, p) == Idle && ActionOf(w) == NoAction
    ensures var w' := AfterRound(w, p, r);
      PassOf(w', p) == Idle && w'.hist == w.hist && w'.doc == w.doc
  {
    hide NextAction;
    var w2 := Opened(w, p, r);
    assert DecideStep(w2, p, false) == SetPass(w2, p, Idle);
  }

  lemma CreatePanics(w: World, p: nat, r: Round)
    requires |w.hist| > 0 && Sound(w, p) && ActionOf(w) == CreateAction
    requires Latest(w).spec.clusterType == Kstone && Latest(w).annotations == map[]
    ensures var w' := AfterRound(w, p, r); PassOf(w', p) == Idle && w'.hist == w.hist
  {
    hide *;
    var c, rv := Latest(w), |w.hist| - 1;
    var w2 := Opened(w, p, r);
    OpenedFacts(w, p, r);
    DecideOp(w2, p, c, rv, CreateOp);
    HandledPanic(w2, p, c, rv, r);
    IdleCloses(Handled(w2, p, r), p, r);
    AfterRoundIs(w, p, r);
  }

  lemma AfterRoundIs(w: World, p: nat, r: Round)
    requires |w.hist| > 0
    ensures AfterRound(w, p, r) == Closed(Handled(Opened(w, p, r), p, r), p, r)
  {
    hide Closed, Handled, Opened;
  }

  lemma OpenedFacts(w: World, p: nat, r: Round)
    requires |w.hist| > 0
    ensures var w2 := Opened(w, p, r);
      && PassOf(w2, p) == Fetched(Latest(w), |w.hist| - 1) && w2.hist == w.hist && w2.doc == w.doc
      && NextAction(Latest(w), w2.doc, false) == ActionOf(w)
  {
    hide NextAction;
  }

  lemma IdleCloses(w: World, p: nat, r: Round)
    requires PassOf(w, p) == Idle
    ensures Closed(w, p, r) == w
  {
  }

  lemma HandledPanic(w: World, p: nat, c: Cluster, rv: nat, r: Round)
    requires PassOf(w, p) == Fetched(c, rv)
    requires DecideStep(w, p, false) == SetPass(w, p, Operating(Started(c, CreateOp, w.now), rv, CreateOp))
    requires c.spec.clusterType == Kstone && c.annotations == map[]
    ensures var w' := Handled(w, p, r); PassOf(w', p) == Idle && w'.hist == w.hist
  {
    hide DecideStep, DocAfter, Ended, Checked, NextConditions;
  }

  lemma PendingUpdate(w: World)
    requires |w.hist| > 0 && ActionOf(w) == UpdateAction && Latest(w).spec.clusterType == Kstone && w.doc.None?
    ensures var cs := Latest(w).status.conditions;
      cs != [] && cs[|cs| - 1].kind == UpdateCondition && cs[|cs| - 1].status == CondFalse
  {
  }

  lemma {:induction false} UpdateFails(w: World, p: nat, r: Round)
    requires |w.hist| > 0 && Sound(w, p) && ActionOf(w) == UpdateAction
    requires Latest(w).spec.clusterType == Kstone && w.doc.None?
    ensures var w' := AfterRound(w, p, r);
      && PassOf(w', p) == Idle && w'.doc.None? && Latest(w').spec == Latest(w).spec
      && !NextIsCreate(Latest(w').status.conditions) && Latest(w').status.gates == Latest(w).status.gates
  {
    hide *;
    var c, rv := Latest(w), |w.hist| - 1;
    var w2 := Opened(w, p, r);
    OpenedFacts(w, p, r);
    PendingUpdate(w);
    DecideOp(w2, p, c, rv, UpdateOp);
    HandledFailure(w2, p, c, rv, r);
    FailureCloses(Handled(w2, p, r), p, rv, r);
    AfterRoundIs(w, p, r);
  }

  /** An update without the operator's document ends in an error and leaves its condition unfinished. */
  lemma HandledFailure(w: World, p: nat, c: Cluster, rv: nat, r: Round)
    requires PassOf(w, p) == Fetched(c, rv) && c.spec.clusterType == Kstone && w.doc.None?
    requires DecideStep(w, p, false) == SetPass(w, p, Operating(Started(c, UpdateOp, w.now), rv, UpdateOp))
    requires var cs := c.status.conditions;
      cs != [] && cs[|cs| - 1].kind == UpdateCondition && cs[|cs| - 1].status == CondFalse
    ensures var w' := Handled(w, p, r);
      && w'.hist == w.hist && w'.doc.None?
      && PassOf(w', p).Saving? && PassOf(w', p).failed && PassOf(w', p).rv == rv
      && var ended := PassOf(w', p).c;
         ended.spec == c.spec && !NextIsCreate(ended.status.conditions) && ended.status.gates == c.status.gates
  {
    hide DecideStep, Checked, CreatedAnnotations;
  }

  lemma FailureCloses(w: World, p: nat, rv: nat, r: Round)
    requires |w.hist| > 0 && Current(w.hist, rv)
    requires PassOf(w, p).Saving? && PassOf(w, p).failed && PassOf(w, p).rv == rv
    ensures var w' := Closed(w, p, r);
      |w'.hist| > 0 && PassOf(w', p) == Idle && w'.doc == w.doc && Latest(w') == PassOf(w, p).c
  {
  }

  /** A kstone cluster without annotations is created, by a panicking worker, in every round. */
  lemma {:induction false} PanicsForever(w: World, p: nat, rounds: seq<Round>, k: nat)
    requires |w.hist| > 0 && Sound(w, p) && k < |rounds|
    requires var c := Latest(w);
      c.spec.clusterType == Kstone && c.annotations == map[] && NextIsCreate(c.status.conditions)
    ensures |Actions(w, p, rounds)| == |rounds|
    ensures Actions(w, p, rounds)[k] == CreateAction
    decreases |rounds|
  {
    hide RoundRun, AfterRound, ActionOf, Inv, GoodDoc;
    ActionsLength(w, p, rounds);
    ActionNeeds(w);
    if k > 0 {
      CreatePanics(w, p, rounds[0]);
      RoundKeepsSound(w, p, rounds[0]);
      SoundRound(w, p, rounds[0]);
      PanicsForever(RoundRun(w, p, rounds[0]), p, rounds[1..], k - 1);
    }
  }

  /** So no round ever checks the status. */
  lemma {:induction false} HopelessNeverSettles(w: World, p: nat, rounds: seq<Round>, k: nat)
    requires |w.hist| > 0 && Sound(w, p) && !Operable(w) && k < |rounds|
    ensures |Actions(w, p, rounds)| == |rounds|
    ensures Actions(w, p, rounds)[k] != StatusAction
    decreases |rounds|
  {
    hide RoundRun, AfterRound, Sound, ActionOf, Operable;
    ActionsLength(w, p, rounds);
    HopelessRound(w, p, rounds[0]);
    SoundRound(w, p, rounds[0]);
    if k > 0 {
      HopelessNeverSettles(RoundRun(w, p, rounds[0]), p, rounds[1..], k - 1);
    }
  }

  /** A kstone cluster whose disk size does not fit a signed number never settles: no round is a status round. */
  lemma {:induction false} HugeDiskNeverSettles(w: World, p: nat, rounds: seq<Round>, k: nat)
    requires |w.hist| > 0 && Ready(w, p) && !Comparable(Latest(w).spec) && k < |rounds|
    ensures |Actions(w, p, rounds)| == |rounds|
    ensures Actions(w, p, rounds)[k] != StatusAction
    decreases |rounds|
  {
    hide RoundRun, AfterRound, ActionOf, Inv, GoodDoc, Operable;
    ActionsLength(w, p, rounds);
    if k == 0 {
      HugeDiskAction(w);
    } else {
      RoundStaysReady(w, p, rounds[0]);
      SoundRound(w, p, rounds[0]);
      HugeDiskNeverSettles(RoundRun(w, p, rounds[0]), p, rounds[1..], k - 1);
    }
  }

  lemma {:induction false} HugeDiskAction(w: World)
    requires |w.hist| > 0 && GoodDoc(w.doc, w.hist)
    requires Latest(w).spec.clusterType == Kstone && !Comparable(Latest(w).spec)
    ensures ActionOf(w) != StatusAction
  {
    hide UpToDate, KstoneSpec.Written;
    if w.doc.Some? {
      var i :| 0 <= i < |w.hist| && Written(w.doc.value, w.hist[i].spec);
      UpToDateExactly(Latest(w).spec, w.hist[i].spec, w.doc.value);
    }
  }

  // ----- A healthy cluster gets its features -----

  /** The check of `c` lists healthy members, as many as the spec asks for. */
  ghost predicate SeesHealthy(c: Cluster, probe: Probe) {
    && probe.configured
    && (c.status.members != [] || "importedAddr" in c.annotations)
    && ListedMembers(c, probe).Some? && ListedMembers(c, probe).value != []
    && AllHealthy(ListedMembers(c, probe).value, probe.health)
    && (c.spec.clusterType == Kstone ==> |ListedMembers(c, probe).value| == Signed(c.spec.size))
  }

  /** The same check again changes nothing. */
  lemma CheckIdempotent(c: Cluster, c': Cluster, probe: Probe)
    requires c.spec.clusterType in {Kstone, Imported} && SeesHealthy(c, probe)
    requires c'.meta == c.meta && c'.spec == c.spec && c'.annotations == c.annotations
    requires c'.status == Checked(c, probe).status.(gates := c'.status.gates)
    ensures SeesHealthy(c', probe) && Checked(c', probe) == c' && c'.status.phase == Running && c'.status.members != []
  {
    var members := ListedMembers(c, probe).value;
    HealthyIsRunning(c, probe, members);
    assert ListedMembers(c', probe) == ListedMembers(c, probe);
    HealthyIsRunning(c', probe, members);
  }

  /** A settled round that sees healthy members stores what it saw. */
  lemma {:induction false} HealthyRound(w: World, p: nat, r: Round)
    requires |w.hist| > 0 && Ready(w, p) && ActionOf(w) == StatusAction && SeesHealthy(Latest(w), r.probe)
    ensures var c, c' := Latest(w), Latest(AfterRound(w, p, r));
      && c'.meta == c.meta && c'.spec == c.spec && c'.annotations == c.annotations
      && c'.status == Checked(c, r.probe).status.(gates := c'.status.gates)
  {
    hide Inv, GoodDoc, DesiredLabels, NextAction, Checked, DecideStep, HooksStep, CheckStep, LabelStep, SyncStep, ListedMembers, AllHealthy;
    var c, rv := Latest(w), |w.hist| - 1;
    var w2 := Opened(w, p, r);
    var checked := Checked(c, r.probe);
    CheckKeeps(c, r.probe);
    HandledCheck(w2, p, c, rv, r);
    var w5 := Handled(w2, p, r);
    Saves(w5, p, checked, rv, Some(r.probe));
    EndKeepsCheck(SaveStep(w5, p, true), p, checked, rv, Some(r.probe), r);
  }

  /** Labels and features change nothing else. */
  lemma EndKeepsCheck(w: World, p: nat, c: Cluster, rv: nat, probe: Option<Probe>, r: Round)
    requires PassOf(w, p) == Saved(c, rv, probe) && |w.hist| > 0 && Latest(w) == c
    ensures var w' := SyncStep(LabelStep(w, p, true), p, r.gates, r.labels, true);
      |w'.hist| > 0 && Latest(w') == c.(labels := Latest(w').labels, status := c.status.(gates := Latest(w').status.gates))
  {
    hide DesiredLabels;
    var w7 := LabelStep(w, p, true);
    assert Latest(w7) == c.(labels := Latest(w7).labels);
  }

  /** Of two undisturbed rounds of a settled cluster that see the same healthy members, the second one hands the
      cluster to the features and its last write is stored: the write of the first round may have made its own
      pass stale, but the second round finds nothing left to change before it. */
  lemma {:induction false} SecondHealthyRoundSyncs(w: World, p: nat, r1: Round, r2: Round)
    requires |w.hist| > 0 && Ready(w, p) && Rank(ActionOf(w)) == 0 && Comparable(Latest(w).spec)
    requires SeesHealthy(Latest(w), r1.probe) && r2.probe == r1.probe
    ensures var w1 := RoundRun(w, p, r1); var w2 := RoundRun(w1, p, r2);
      && |w2.synced| == |w1.synced| + 1
      && Latest(w2).labels == r2.labels && Latest(w2).status.gates == r2.gates
      && Latest(w2).status.phase == Running
  {
    hide RoundRun, AfterRound, Inv, GoodDoc, Checked, NextAction, ListedMembers, AllHealthy;
    NeverStuck(w);
    SoundRound(w, p, r1);
    RoundLowersRank(w, p, r1);
    HealthyRound(w, p, r1);
    var w1 := RoundRun(w, p, r1);
    NeverStuck(w1);
    SoundRound(w1, p, r2);
    CheckIdempotent(Latest(w), Latest(w1), r1.probe);
    QuietRound(w1, p, r2);
  }

  /** A round that finds the stored status unchanged goes on with a current version to the end. */
  lemma {:induction false} QuietRound(w: World, p: nat, r: Round)
    requires |w.hist| > 0 && Ready(w, p) && ActionOf(w) == StatusAction && r.probe.configured
    requires var c := Latest(w); Checked(c, r.probe) == c && c.status.phase == Running && c.status.members != []
    ensures var w' := AfterRound(w, p, r);
      && |w'.synced| == |w.synced| + 1
      && Latest(w').labels == r.labels && Latest(w').status.gates == r.gates && Latest(w').status.phase == Running
  {
    hide Inv, GoodDoc, DesiredLabels, NextAction, Checked, DecideStep, HooksStep, CheckStep, LabelStep, SyncStep;
    var c, rv := Latest(w), |w.hist| - 1;
    var w2 := Opened(w, p, r);
    HandledCheck(w2, p, c, rv, r);
    var w5 := Handled(w2, p, r);
    Saves(w5, p, c, rv, Some(r.probe));
    EndSyncs(SaveStep(w5, p, true), p, c, rv, Some(r.probe), r);
  }

  /** A pass that still holds the current version has both its later writes accepted. */
  lemma EndSyncs(w: World, p: nat, c: Cluster, rv: nat, probe: Option<Probe>, r: Round)
    requires PassOf(w, p) == Saved(c, rv, probe) && Current(w.hist, rv) && |w.hist| > 0 && Latest(w) == c
    requires c.status.phase == Running && c.status.members != []
    ensures var w' := SyncStep(LabelStep(w, p, true), p, r.gates, r.labels, true);
      && |w'.hist| > 0 && |w'.synced| == |w.synced| + 1
      && Latest(w') == c.(labels := r.labels, status := c.status.(gates := r.gates))
  {
    hide DesiredLabels;
    var done := c.(labels := DesiredLabels(c));
    var w7 := LabelStep(w, p, true);
    assert PassOf(w7, p) == Labelled(done, |w7.hist| - 1, probe);
  }

  // ----- When a pass stores its feature states -----

  /** A pass whose version is outdated stores nothing after its handler's write. */
  lemma OutdatedEnd(w: World, p: nat, r: Round)
    requires PassOf(w, p).Saved? && PassOf(w, p).rv < |w.hist| - 1
    ensures SyncStep(LabelStep(w, p, true), p, r.gates, r.labels, true).hist == w.hist
  {
    hide DesiredLabels;
  }

  /** Without members the features are not reached. */
  lemma EmptyEnd(w: World, p: nat, r: Round)
    requires PassOf(w, p).Saved? && PassOf(w, p).c.status.members == []
    requires |w.hist| > 0 && Latest(w) == PassOf(w, p).c
    ensures var w' := SyncStep(LabelStep(w, p, true), p, r.gates, r.labels, true);
      |w'.hist| > 0 && Latest(w').status.gates == Latest(w).status.gates
  {
    hide DesiredLabels;
  }

  /** The stored status is already what this check finds, namely running members. */
  predicate NothingToSave(c: Cluster, probe: Probe) {
    probe.configured && Checked(c, probe) == c && c.status.phase == Running && c.status.members != []
  }

  lemma {:induction false} ChangedRound(w: World, p: nat, r: Round)
    requires |w.hist| > 0 && Ready(w, p) && ActionOf(w) == StatusAction && !NothingToSave(Latest(w), r.probe)
    ensures Latest(AfterRound(w, p, r)).status.gates == Latest(w).status.gates
  {
    hide Inv, GoodDoc, NextAction, Checked, DesiredLabels, DecideStep, HooksStep, CheckStep, LabelStep, SyncStep;
    var c, rv := Latest(w), |w.hist| - 1;
    var w2 := Opened(w, p, r);
    CheckKeeps(c, r.probe);
    HandledCheck(w2, p, c, rv, r);
    var w5 := Handled(w2, p, r);
    if r.probe.configured {
      var checked := Checked(c, r.probe);
      Saves(w5, p, checked, rv, Some(r.probe));
      var w6 := SaveStep(w5, p, true);
      if checked != c {
        OutdatedEnd(w6, p, r);
      } else if c.status.phase != Running {
        StopsUnlessRunning(w6, p, c, rv, Some(r.probe), r);
      } else {
        EmptyEnd(w6, p, r);
      }
    } else {
      FailedEnd(w5, p, c, rv, r);
    }
  }

  lemma FailedEnd(w: World, p: nat, c: Cluster, rv: nat, r: Round)
    requires |w.hist| > 0 && Current(w.hist, rv) && Latest(w) == c && PassOf(w, p) == Saving(c, rv, true, None)
    ensures Closed(w, p, r).hist == w.hist
  {
  }

  /** An undisturbed round stores new feature states exactly when its decision is to check the status and the
      stored status is already what the check finds: the write of a changed status makes the pass itself outdated. */
  lemma {:induction false} FeaturesStoredExactly(w: World, p: nat, r: Round)
    requires |w.hist| > 0 && Sound(w, p) && r.gates != Latest(w).status.gates
    ensures Latest(RoundRun(w, p, r)).status.gates == r.gates
            <==> ActionOf(w) == StatusAction && NothingToSave(Latest(w), r.probe)
  {
    hide RoundRun, AfterRound, Inv, GoodDoc, Operable, NextAction, Checked, KstoneSpec.Written;
    SoundRound(w, p, r);
    if !Operable(w) {
      HopelessRound(w, p, r);
    } else {
      NeverStuck(w);
      match ActionOf(w) {
        case CreateAction => OperationRound(w, p, r, CreateOp);
        case UpdateAction => OperationRound(w, p, r, UpdateOp);
        case StatusAction =>
          if NothingToSave(Latest(w), r.probe) {
            QuietRound(w, p, r);
          } else {
            ChangedRound(w, p, r);
          }
        case NoAction =>
      }
    }
  }

  /** So for a check that finds the members healthy it comes down to whether the status is stored already. */
  lemma {:induction false} HealthyFeaturesStored(w: World, p: nat, r: Round)
    requires |w.hist| > 0 && Ready(w, p) && Rank(ActionOf(w)) == 0 && r.gates != Latest(w).status.gates
    requires SeesHealthy(Latest(w), r.probe)
    ensures Latest(RoundRun(w, p, r)).status.gates == r.gates <==> Checked(Latest(w), r.probe) == Latest(w)
  {
    hide RoundRun, Inv, GoodDoc, NextAction, Checked, AllHealthy;
    NeverStuck(w);
    FeaturesStoredExactly(w, p, r);
    HealthyIsRunning(Latest(w), r.probe, ListedMembers(Latest(w), r.probe).value);
  }
}
