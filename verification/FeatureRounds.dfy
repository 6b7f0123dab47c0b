/** The feature handlers inside a round of the controller: whether the statuses they leave are stored decides
    whether inspection tasks are leaked. */
module FeatureRounds {
  import opened Options
  import opened Cluster
  import opened Controller
  import opened Convergence
  import FeatureSync

  /** The feature states of the object that belong to the given features. */
  function Only(gates: map<string, string>, features: set<string>): map<string, string> {
    map f | f in gates && f in features :: gates[f]
  }

  /** What an undisturbed status round leaves of the feature states: the new ones if nothing else had to be saved,
      and otherwise the old ones. */
  lemma GatesAfterRound(w: World, p: nat, r: Round)
    requires |w.hist| > 0 && Sound(w, p) && ActionOf(w) == StatusAction
    ensures Latest(RoundRun(w, p, r)).status.gates
         == if NothingToSave(Latest(w), r.probe) then r.gates else Latest(w).status.gates
  {
    hide RoundRun, AfterRound, Inv, GoodDoc, NextAction, Checked;
    SoundRound(w, p, r);
    StatusIsOperable(w);
    if NothingToSave(Latest(w), r.probe) {
      QuietRound(w, p, r);
    } else {
      ChangedRound(w, p, r);
    }
  }

  lemma StatusIsOperable(w: World)
    requires |w.hist| > 0 && Inv(w) && ActionOf(w) == StatusAction
    ensures Operable(w)
  {
    hide Inv;
    ActionNeeds(w);
  }

  /** An undisturbed round of a cluster whose members are found healthy, in which the feature handlers take the
      inspection tasks from `s` to `u`: what is stored of it is `t`, and it leaks tasks exactly when the round had
      to save a changed status first and created a task under a status "disabled". */
  lemma {:induction false} RoundLeaksExactly(
    w: World, p: nat, r: Round, features: set<string>, cluster: string, order: seq<string>,
    weather: map<string, FeatureSync.Weather>, s: FeatureSync.State, u: FeatureSync.State)
    requires |w.hist| > 0 && Sound(w, p) && ActionOf(w) == StatusAction && SeesHealthy(Latest(w), r.probe)
    requires s.statuses == Only(Latest(w).status.gates, features) && FeatureSync.Clean(s, cluster)
    requires FeatureSync.PassRelation(s, u, cluster, Latest(w).annotations, order, weather)
    requires u.statuses == Only(r.gates, features)
    ensures var t := FeatureSync.State(u.tasks, Only(Latest(RoundRun(w, p, r)).status.gates, features));
            var round := FeatureSync.Round(Latest(w).annotations, order, weather, NothingToSave(Latest(w), r.probe));
            && FeatureSync.RoundRelation(s, t, cluster, round)
            && (FeatureSync.Clean(t, cluster) <==>
                  NothingToSave(Latest(w), r.probe) || forall f :: !FeatureSync.Creates(s, cluster, round, f))
  {
    hide RoundRun, Sound, ActionOf, NothingToSave, Only, FeatureSync.Clean, FeatureSync.PassRelation, FeatureSync.Creates;
    GatesAfterRound(w, p, r);
    var t := FeatureSync.State(u.tasks, Only(Latest(RoundRun(w, p, r)).status.gates, features));
    var round := FeatureSync.Round(Latest(w).annotations, order, weather, NothingToSave(Latest(w), r.probe));
    assert FeatureSync.RoundBy(s, u, t, cluster, round);
    FeatureSync.CleanExactly(s, t, cluster, round);
  }
}
