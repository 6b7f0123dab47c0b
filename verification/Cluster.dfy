/** The cluster object, the decisions taken on it, and what each handler of the controller makes of it. */
module Cluster {
  import opened Options
  import opened Text
  import opened KstoneSpec
  import ExtClientUrl
  import FeatureGates

  // ----- The object -----

  datatype ConditionKind = CreateCondition | ImportCondition | UpdateCondition | DeleteCondition
  datatype ConditionStatus = CondTrue | CondFalse | CondUnknown

  datatype Condition = Condition(kind: ConditionKind, status: ConditionStatus, start: int, end: Option<int>, reason: string)

  datatype Phase = NoPhase | Initing | Creating | Running | Updating | Deleting | Deleted | Unknown | UnHealthy

  datatype MemberPhase = MemberUnStarted | MemberUnKnown | MemberRunning | MemberUnHealthy

  datatype Member = Member(name: string, clientURL: string, extensionURL: string, phase: MemberPhase)

  datatype Status = Status(
    conditions: seq<Condition>, phase: Phase, members: seq<Member>, gates: map<string, string>, serviceName: string)

  datatype Cluster = Cluster(
    meta: Meta, spec: Spec, labels: map<string, string>, annotations: map<string, string>, status: Status)

  // ----- Conditions -----

  /** `generateConditions`: keep an unfinished last condition; otherwise start a new one, which replaces a
      finished last condition of the same kind. */
  function NextConditions(conditions: seq<Condition>, kind: ConditionKind, now: int): (next: seq<Condition>)
    ensures |next| >= 1 && next[|next| - 1].status != CondTrue
    ensures next != conditions ==> next[|next| - 1] == Condition(kind, CondFalse, now, None, "")
    ensures next[..|next| - 1] <= conditions
    ensures conditions != [] && conditions[|conditions| - 1].status != CondTrue ==> next == conditions
    ensures next != conditions ==>
              |next| == |conditions| + if conditions != [] && conditions[|conditions| - 1].kind == kind then 0 else 1
  {
    var i := |conditions| - 1;
    var started := Condition(kind, CondFalse, now, None, "");
    if i >= 0 && conditions[i].status != CondTrue then conditions
    else if i >= 0 && conditions[i].kind == kind then conditions[..i] + [started]
    else conditions + [started]
  }

  /** The result of a hook: None, or the text of its error. */
  type HookResult = Option<string>

  datatype Hooks = Hooks(before: HookResult, main: HookResult, after: HookResult)

  function FirstError(hooks: Hooks): HookResult {
    if hooks.before.Some? then hooks.before else if hooks.main.Some? then hooks.main else hooks.after
  }

  datatype Operation = CreateOp | UpdateOp

  function OpCondition(op: Operation): ConditionKind {
    if op == CreateOp then CreateCondition else UpdateCondition
  }

  function OpPhase(op: Operation): Phase {
    if op == CreateOp then Creating else Updating
  }

  /** The object before the hooks of an operation run. */
  function Started(c: Cluster, op: Operation, now: int): Cluster {
    c.(status := c.status.(conditions := NextConditions(c.status.conditions, OpCondition(op), now), phase := OpPhase(op)))
  }

  /** The last condition after the hooks. */
  function Finished(condition: Condition, error: HookResult, now: int): Condition {
    if error.Some? then condition.(reason := error.value)
    else condition.(reason := "", end := Some(now), status := CondTrue)
  }

  function WithLast(conditions: seq<Condition>, last: Condition): seq<Condition>
    requires conditions != []
  {
    conditions[|conditions| - 1 := last]
  }

  /** What `AfterCreate` of the provider writes into the annotations. */
  function CreatedAnnotations(c: Cluster): map<string, string> {
    if c.spec.clusterType != Kstone then c.annotations
    else
      var scheme := if "scheme" in c.annotations then c.annotations["scheme"] else "";
      var name, namespace := c.meta.name, c.meta.namespace;
      var certified :=
        if Secure(c.annotations) then c.annotations["certName" := namespace + "/" + name + "-etcd-client-cert"] else c.annotations;
      certified[
        "importedAddr" := scheme + "://" + name + "-etcd." + namespace + ".svc.cluster.local:2379"][
        "extClientURL" := Join(ExtClientUrl.Items(name, namespace, Signed(c.spec.size)), ",")]
  }

  /** A kstone cluster without annotations is read with a nil map. `AfterCreate` inserts into it and panics, after
      the operator's document has been created. */
  predicate Panics(c: Cluster, op: Operation, hooks: Hooks) {
    op == CreateOp && c.spec.clusterType == Kstone && c.annotations == map[] && hooks.before.None? && hooks.main.None?
  }

  /** The object after the hooks of an operation have run, if none of them panics. */
  function Ended(c: Cluster, op: Operation, hooks: Hooks, now: int): Cluster
    requires c.status.conditions != []
  {
    var error := FirstError(hooks);
    var last := c.status.conditions[|c.status.conditions| - 1];
    c.(status := c.status.(conditions := WithLast(c.status.conditions, Finished(last, error, now))),
       annotations := if op == CreateOp && error == None then CreatedAnnotations(c) else c.annotations)
  }

  /** What an operation leaves behind if no hook panics: members and gate states as they were, its phase, and a last condition that is finished, with an end
      and no reason, exactly if no hook failed, and otherwise has the first failure as its reason and no new end. */
  lemma {:induction false} OperationLeaves(c: Cluster, op: Operation, hooks: Hooks, started: int, ended: int)
    ensures var before := Started(c, op, started);
      var after := Ended(before, op, hooks, ended);
      var failed := hooks.before.Some? || hooks.main.Some? || hooks.after.Some?;
      var first, last := before.status.conditions[|before.status.conditions| - 1],
                         after.status.conditions[|before.status.conditions| - 1];
      && before.status.phase == after.status.phase == (if op == CreateOp then Creating else Updating)
      && |after.status.conditions| == |before.status.conditions|
      && last.kind == first.kind && last.start == first.start
      && (last.status == CondTrue <==> !failed)
      && (!failed ==> last.end == Some(ended) && last.reason == "")
      && (failed ==> last.end == first.end && last.status == first.status)
      && (hooks.before.Some? ==> last.reason == hooks.before.value)
      && (hooks.before.None? && hooks.main.Some? ==> last.reason == hooks.main.value)
      && (hooks.before.None? && hooks.main.None? && hooks.after.Some? ==> last.reason == hooks.after.value)
      && after.(status := after.status.(conditions := c.status.conditions, phase := c.status.phase),
                annotations := c.annotations) == c
      && (forall i :: 0 <= i < |before.status.conditions| - 1 ==> after.status.conditions[i] == before.status.conditions[i])
      && (failed || op == UpdateOp ==> after.annotations == c.annotations)
  {
    hide CreatedAnnotations, NextConditions;
  }

  // ----- The decision -----

  datatype Action = CreateAction | UpdateAction | StatusAction | NoAction

  /** `getDesiredAction`; `equal` is None when the comparison fails. */
  function DesiredAction(conditions: seq<Condition>, equal: Option<bool>): Action {
    var i := |conditions| - 1;
    if i < 0 then CreateAction
    else if conditions[i].kind == CreateCondition && conditions[i].status == CondFalse then CreateAction
    else if conditions[i].kind == UpdateCondition && conditions[i].status == CondFalse then UpdateAction
    else match equal
      case None => NoAction
      case Some(e) => if e then StatusAction else UpdateAction
  }

  /** `Equal` of the provider; a failed or empty read is an error, and an unknown provider never gets here. */
  function ProviderEqual(c: Cluster, doc: Option<Json>, readFails: bool): Option<bool> {
    match c.spec.clusterType
    case Kstone => if readFails || doc == None then None else Some(UpToDate(c.spec, doc.value))
    case Imported => Some(true)
    case OtherType(_) => None
  }

  function NextAction(c: Cluster, doc: Option<Json>, readFails: bool): Action {
    if c.spec.clusterType.OtherType? then NoAction
    else DesiredAction(c.status.conditions, ProviderEqual(c, doc, readFails))
  }

  /** When each action is taken: an unfinished operation is taken up again, without a look at the document. After
      that a kstone cluster needs a document that can be read and is updated exactly if it differs, and an imported
      cluster is only checked. */
  lemma {:induction false} ActionsTaken(c: Cluster, doc: Option<Json>, readFails: bool)
    ensures var cs := c.status.conditions;
      var creating := cs == [] || (cs[|cs| - 1].kind == CreateCondition && cs[|cs| - 1].status == CondFalse);
      var updating := cs != [] && cs[|cs| - 1].kind == UpdateCondition && cs[|cs| - 1].status == CondFalse;
      var known := c.spec.clusterType in {Kstone, Imported};
      var readable := !readFails && doc.Some?;
      var action := NextAction(c, doc, readFails);
      && (action == CreateAction <==> known && creating)
      && (action == UpdateAction <==>
            known && (updating || (!creating && c.spec.clusterType == Kstone && readable && !UpToDate(c.spec, doc.value))))
      && (action == StatusAction <==>
            !creating && !updating
            && (c.spec.clusterType == Imported || (c.spec.clusterType == Kstone && readable && UpToDate(c.spec, doc.value))))
  {
    hide UpToDate;
  }

  // ----- Members -----

  /** A member as etcd lists it, and whether its own status could be read. */
  datatype Listed = Listed(name: string, clientURLs: seq<string>, answers: bool)

  datatype Health = Healthy | NotHealthy | CheckFailed

  /** What one status check sees: whether the client configuration can be built, the member list (None when
      it cannot be read), and the health check of each address. */
  datatype Probe = Probe(configured: bool, listed: Option<seq<Listed>>, health: map<string, Health>)

  /** A listed member with the address it is reached at. */
  function RuntimeMember(m: Listed, text: string, urls: map<string, string>): Member
    requires m.clientURLs != []
  {
    Member(m.name, m.clientURLs[0], ExtClientUrl.ExtensionURL(m.clientURLs[0], text, urls),
           if m.answers then MemberRunning else MemberUnStarted)
  }

  /** The members of a list that announce an address, each with the address it is reached at. */
  function RuntimeMembers(listed: seq<Listed>, text: string, urls: map<string, string>): seq<Member> {
    if listed == [] then []
    else
      var m := listed[|listed| - 1];
      RuntimeMembers(listed[..|listed| - 1], text, urls) +
      if m.clientURLs == [] then [] else [RuntimeMember(m, text, urls)]
  }

  /** The places of the listed members that announce an address, all of them, in order. */
  function Announcing(listed: seq<Listed>): (at: seq<nat>)
    ensures forall k :: 0 <= k < |at| ==> at[k] < |listed| && listed[at[k]].clientURLs != []
    ensures forall j, k :: 0 <= j < k < |at| ==> at[j] < at[k]
    ensures forall i: nat :: i < |listed| && listed[i].clientURLs != [] ==> i in at
  {
    if listed == [] then []
    else
      var n := |listed| - 1;
      var init := Announcing(listed[..n]);
      assert forall i: nat :: i < n ==> listed[..n][i] == listed[i];
      if listed[n].clientURLs == [] then init else init + [n]
  }

  /** The runtime members are the listed members that announce an address, all of them, in their order. */
  lemma {:induction false} RuntimeMembersInOrder(listed: seq<Listed>, text: string, urls: map<string, string>)
    ensures var members, at := RuntimeMembers(listed, text, urls), Announcing(listed);
      && |members| == |at|
      && forall k :: 0 <= k < |at| ==> members[k] == RuntimeMember(listed[at[k]], text, urls)
  {
    hide RuntimeMember;
    if listed != [] {
      hide RuntimeMembers, Announcing;
      RuntimeMembersInOrder(listed[..|listed| - 1], text, urls);
      LastInOrder(listed, text, urls);
    }
  }

  lemma LastInOrder(listed: seq<Listed>, text: string, urls: map<string, string>)
    requires listed != []
    ensures var n := |listed| - 1;
            var last := listed[n];
            && RuntimeMembers(listed, text, urls) == RuntimeMembers(listed[..n], text, urls)
                                                     + (if last.clientURLs == [] then [] else [RuntimeMember(last, text, urls)])
            && Announcing(listed) == Announcing(listed[..n]) + if last.clientURLs == [] then [] else [n]
  {
    hide RuntimeMember;
  }

  method GetRuntimeMembers(listed: seq<Listed>, text: string, urls: map<string, string>) returns (members: seq<Member>)
    ensures members == RuntimeMembers(listed, text, urls)
  {
    members := [];
    for i := 0 to |listed|
      invariant members == RuntimeMembers(listed[..i], text, urls)
    {
      assert listed[..i + 1][..i] == listed[..i];
      var m := listed[i];
      if m.clientURLs == [] {
        continue;
      }
      var extensionURL := ExtClientUrl.ExtensionURL(m.clientURLs[0], text, urls);
      var phase := MemberUnStarted;
      if m.answers { phase := MemberRunning; }
      members := members + [Member(m.name, m.clientURLs[0], extensionURL, phase)];
    }
    assert listed[..|listed|] == listed;
  }

  function HealthOf(health: map<string, Health>, url: string): Health {
    if url in health then health[url] else CheckFailed
  }

  function CheckedMember(m: Member, health: map<string, Health>): Member {
    m.(phase := match HealthOf(health, m.extensionURL)
                case Healthy => MemberRunning
                case NotHealthy => MemberUnHealthy
                case CheckFailed => MemberUnKnown)
  }

  function CheckedMembers(members: seq<Member>, health: map<string, Health>): (checked: seq<Member>)
    ensures |checked| == |members|
    ensures forall i :: 0 <= i < |members| ==> checked[i] == CheckedMember(members[i], health)
  {
    if members == [] then [] else [CheckedMember(members[0], health)] + CheckedMembers(members[1..], health)
  }

  predicate AllHealthy(members: seq<Member>, health: map<string, Health>) {
    forall m :: m in members ==> HealthOf(health, m.extensionURL) == Healthy
  }

  function HealthPhase(members: seq<Member>, health: map<string, Health>): Phase {
    if AllHealthy(members, health) then Running else UnHealthy
  }

  /** `GetEtcdClusterMemberStatus`. */
  method GetMemberStatus(members: seq<Member>, health: map<string, Health>) returns (checked: seq<Member>, phase: Phase)
    ensures checked == CheckedMembers(members, health)
    ensures phase == HealthPhase(members, health)
  {
    phase, checked := Running, [];
    for i := 0 to |members|
      invariant |checked| == i
      invariant forall j :: 0 <= j < i ==> checked[j] == CheckedMember(members[j], health)
      invariant phase == HealthPhase(members[..i], health)
    {
      var m := members[i];
      match HealthOf(health, m.extensionURL) {
        case CheckFailed => m := m.(phase := MemberUnKnown);
        case Healthy => m := m.(phase := MemberRunning);
        case NotHealthy => m := m.(phase := MemberUnHealthy);
      }
      assert members[..i + 1] == members[..i] + [members[i]];
      if m.phase != MemberRunning && phase == Running {
        phase := UnHealthy;
      }
      checked := checked + [m];
    }
    assert members[..|members|] == members;
  }

  /** The member list of a check, or None when the list or the annotation cannot be read. */
  function ListedMembers(c: Cluster, probe: Probe): Option<seq<Member>> {
    var text := if "extClientURL" in c.annotations then c.annotations["extClientURL"] else "";
    var urls := ExtClientUrl.Parsed(text);
    if probe.listed == None || urls == None then None
    else Some(RuntimeMembers(probe.listed.value, text, urls.value))
  }

  /** With the annotation printed for `size` members, a listed member that announces the host of member `i` becomes
      a runtime member that is reached at the headless address of member `i`; a host that was not printed is kept. */
  lemma {:induction false} ReachedMember(listed: seq<Listed>, k: nat, name: string, namespace: string, size: nat, i: nat, scheme: string)
    requires size >= 1 && ExtClientUrl.Clean(name) && ExtClientUrl.Clean(namespace) && scheme in {"http://", "https://"}
    requires k < |Announcing(listed)|
    requires listed[Announcing(listed)[k]].clientURLs[0] == scheme + ExtClientUrl.Key(name, i)
    ensures var text := Join(ExtClientUrl.Items(name, namespace, size), ",");
      && ExtClientUrl.Parsed(text).Some?
      && var members := RuntimeMembers(listed, text, ExtClientUrl.Parsed(text).value);
         var m := listed[Announcing(listed)[k]];
         && |members| == |Announcing(listed)|
         && members[k] == Member(m.name, m.clientURLs[0],
                                 scheme + (if i < size then ExtClientUrl.Address(name, namespace, i) else ExtClientUrl.Key(name, i)),
                                 if m.answers then MemberRunning else MemberUnStarted)
  {
    hide Announcing, RuntimeMembers, Join, ExtClientUrl.Items, ExtClientUrl.Parsed, ExtClientUrl.Clean, ExtClientUrl.Key,
      ExtClientUrl.Address;
    ExtClientUrl.Reached(name, namespace, size, i, scheme);
    var text := Join(ExtClientUrl.Items(name, namespace, size), ",");
    RuntimeMembersInOrder(listed, text, ExtClientUrl.Parsed(text).value);
  }

  /** Without an annotation every member is reached at the address it announces. */
  lemma {:induction false} UntranslatedMember(listed: seq<Listed>, k: nat)
    requires k < |Announcing(listed)|
    ensures |RuntimeMembers(listed, "", map[])| == |Announcing(listed)|
    ensures RuntimeMembers(listed, "", map[])[k].extensionURL == listed[Announcing(listed)[k]].clientURLs[0]
  {
    hide Announcing, RuntimeMembers;
    RuntimeMembersInOrder(listed, "", map[]);
  }

  // ----- Status of the two providers -----

  /** `Status` of the kstone provider. */
  function KstoneStatus(c: Cluster, probe: Probe): Status {
    var status := c.status;
    if status.members == [] && "importedAddr" !in c.annotations then status.(phase := Creating)
    else
      var named := if status.members == [] then status.(serviceName := c.annotations["importedAddr"]) else status;
      var members := ListedMembers(c, probe);
      if members == None || members.value == [] || Signed(c.spec.size) != |members.value| then
        if named.phase == Running then named.(phase := Unknown) else named
      else
        named.(members := CheckedMembers(members.value, probe.health), phase := HealthPhase(members.value, probe.health))
  }

  /** `Status` of the imported provider. */
  function ImportedStatus(c: Cluster, probe: Probe): Status {
    var status := c.status;
    if status.members == [] && "importedAddr" !in c.annotations then status.(phase := Unknown)
    else
      var named := if status.members == [] then status.(serviceName := c.annotations["importedAddr"]) else status;
      var members := ListedMembers(c, probe);
      if members == None then named.(phase := Unknown)
      else
        named.(members := CheckedMembers(members.value, probe.health), phase := HealthPhase(members.value, probe.health))
  }

  /** The object after the status handler, when the client configuration could be built. */
  function Checked(c: Cluster, probe: Probe): Cluster {
    c.(status := if c.spec.clusterType == Kstone then KstoneStatus(c, probe) else ImportedStatus(c, probe))
  }

  /** A check reports Running only when every listed member is healthy in this very check; for the kstone
      provider the list also has as many members as the spec asks for and is not empty. */
  ghost predicate FoundHealthy(c: Cluster, probe: Probe) {
    && AllHealthy(c.status.members, probe.health)
    && (forall m :: m in c.status.members ==> m.phase == MemberRunning)
    && (c.spec.clusterType == Kstone ==> c.status.members != [] && |c.status.members| == Signed(c.spec.size))
  }

  lemma RunningIsTruthful(c: Cluster, probe: Probe)
    requires c.spec.clusterType in {Kstone, Imported}
    ensures Checked(c, probe).status.phase == Running ==> FoundHealthy(Checked(c, probe), probe)
  {
    var members := ListedMembers(c, probe);
    if members.Some? {
      var checked := CheckedMembers(members.value, probe.health);
      if AllHealthy(members.value, probe.health) {
        forall m | m in checked
          ensures HealthOf(probe.health, m.extensionURL) == Healthy && m.phase == MemberRunning
        {
          var i :| 0 <= i < |checked| && checked[i] == m;
          assert members.value[i] in members.value;
        }
      }
    }
  }

  /** And it does report Running when the list can be read, has the right size, and all members are healthy. */
  lemma HealthyIsRunning(c: Cluster, probe: Probe, members: seq<Member>)
    requires c.spec.clusterType in {Kstone, Imported}
    requires c.status.members != [] || "importedAddr" in c.annotations
    requires ListedMembers(c, probe) == Some(members) && AllHealthy(members, probe.health)
    requires c.spec.clusterType == Kstone ==> members != [] && |members| == Signed(c.spec.size)
    ensures Checked(c, probe).status.phase == Running
    ensures Checked(c, probe).status.members == CheckedMembers(members, probe.health)
  {
  }

  /** Without an address to name the service by nothing is checked. */
  predicate Nameable(c: Cluster) {
    c.status.members != [] || "importedAddr" in c.annotations
  }

  /** The members a check goes on with: a list that can be read and, for the kstone provider, is not empty and as long
      as the spec asks for. */
  predicate Fits(c: Cluster, members: Option<seq<Member>>) {
    members.Some? && (c.spec.clusterType == Kstone ==> members.value != [] && |members.value| == Signed(c.spec.size))
  }

  /** What a check makes of the status, in each of its cases. A check that cannot go on takes a kstone cluster from
      Running to Unknown and leaves its other phases alone; an imported cluster is always Unknown then. */
  lemma {:induction false} CheckedStatus(c: Cluster, probe: Probe)
    requires c.spec.clusterType in {Kstone, Imported}
    ensures var s, t, members := c.status, Checked(c, probe).status, ListedMembers(c, probe);
      && Checked(c, probe) == c.(status := t) && t.conditions == s.conditions && t.gates == s.gates
      && t.serviceName == (if s.members == [] && Nameable(c) then c.annotations["importedAddr"] else s.serviceName)
      && (!Nameable(c) ==> t.members == s.members && t.phase == if c.spec.clusterType == Kstone then Creating else Unknown)
      && (Nameable(c) && !Fits(c, members) ==>
            t.members == s.members
            && t.phase == if c.spec.clusterType == Kstone && s.phase != Running then s.phase else Unknown)
      && (Nameable(c) && Fits(c, members) ==>
            t.members == CheckedMembers(members.value, probe.health)
            && t.phase == if AllHealthy(members.value, probe.health) then Running else UnHealthy)
  {
    hide CheckedMembers, AllHealthy, ListedMembers;
  }

  /** What a creation adds to the annotations of a kstone cluster, and that the first check afterwards names the
      service by it. */
  lemma {:induction false} CreationNamesService(c: Cluster, probe: Probe)
    requires c.spec.clusterType == Kstone
    ensures var after := CreatedAnnotations(c);
      && (forall k :: k in after <==> k in c.annotations || k in {"importedAddr", "extClientURL"} || (k == "certName" && Secure(c.annotations)))
      && (forall k :: k in c.annotations && k !in {"importedAddr", "extClientURL"} && (k == "certName" ==> !Secure(c.annotations)) ==>
            after[k] == c.annotations[k])
      && (Secure(c.annotations) ==> after["certName"] == c.meta.namespace + "/" + c.meta.name + "-etcd-client-cert")
      && (c.status.members == [] ==>
            Checked(c.(annotations := after), probe).status.serviceName ==
            (if "scheme" in c.annotations then c.annotations["scheme"] else "")
            + "://" + c.meta.name + "-etcd." + c.meta.namespace + ".svc.cluster.local:2379")
  {
    hide Join, ExtClientUrl.Items, ListedMembers, CheckedMembers, HealthPhase;
  }

  /** A cluster carries the annotation that its creation with `size` members wrote. */
  ghost predicate Annotated(c: Cluster, size: nat) {
    && "extClientURL" in c.annotations
    && exists created: Cluster ::
         && created.meta == c.meta && created.spec.clusterType == Kstone && created.spec.size == size
         && c.annotations["extClientURL"] == CreatedAnnotations(created)["extClientURL"]
  }

  lemma PrintedAnnotation(c: Cluster, size: nat)
    requires Annotated(c, size) && size < TWO_63
    ensures "extClientURL" in c.annotations
    ensures c.annotations["extClientURL"] == Join(ExtClientUrl.Items(c.meta.name, c.meta.namespace, size), ",")
  {
    hide Join, ExtClientUrl.Items;
  }

  /** Creation and check together: a kstone cluster that was created with `size` members and whose list has as many
      members as its spec asks for now has each of them checked. A member that announces the host of member `i`, below
      `size`, counts as running exactly when the headless address of member `i` is healthy. */
  lemma {:induction false} CheckedAtOwnAddress(c: Cluster, probe: Probe, size: nat, k: nat, i: nat, scheme: string)
    requires c.spec.clusterType == Kstone && Annotated(c, size) && 1 <= size < TWO_63 && i < size
    requires ExtClientUrl.Clean(c.meta.name) && ExtClientUrl.Clean(c.meta.namespace) && scheme in {"http://", "https://"}
    requires c.status.members != [] || "importedAddr" in c.annotations
    requires probe.listed.Some? && |Announcing(probe.listed.value)| == Signed(c.spec.size)
    requires k < |Announcing(probe.listed.value)|
    requires var m := probe.listed.value[Announcing(probe.listed.value)[k]];
             m.clientURLs[0] == scheme + ExtClientUrl.Key(c.meta.name, i)
    ensures var members := Checked(c, probe).status.members;
      var address := scheme + ExtClientUrl.Address(c.meta.name, c.meta.namespace, i);
      && |members| == Signed(c.spec.size)
      && members[k].name == probe.listed.value[Announcing(probe.listed.value)[k]].name
      && members[k].extensionURL == address
      && (members[k].phase == MemberRunning <==> address in probe.health && probe.health[address] == Healthy)
      && (members[k].phase == MemberUnHealthy <==> address in probe.health && probe.health[address] == NotHealthy)
      && members[k].phase in {MemberRunning, MemberUnHealthy, MemberUnKnown}
  {
    hide Announcing, RuntimeMembers, Join, ExtClientUrl.Items, ExtClientUrl.Parsed, ExtClientUrl.Clean, ExtClientUrl.Key,
      ExtClientUrl.Address, Annotated;
    PrintedAnnotation(c, size);
    ReachedMember(probe.listed.value, k, c.meta.name, c.meta.namespace, size, i, scheme);
  }

  // ----- Labels -----

  const FEATURES: set<string> := {"monitor", "backup", "healthy", "consistency", "request", "alarm", "backupcheck"}

  function TypeName(t: ClusterType): string {
    match t
    case Kstone => "kstone-etcd-operator"
    case Imported => "imported"
    case OtherType(name) => name
  }

  function GateLabels(annotations: map<string, string>, features: set<string>): map<string, string> {
    map f | f in features :: FeatureGates.FormatBool(FeatureGates.GateOn(annotations, f))
  }

  /** The labels of a running cluster, given the registered features. */
  function LabelsWith(c: Cluster, features: set<string>): map<string, string> {
    (c.labels + GateLabels(c.annotations, features))["clusterType" := TypeName(c.spec.clusterType)]["version" := c.spec.version]
  }

  /** The labels the controller puts on a running cluster. */
  function DesiredLabels(c: Cluster): map<string, string> {
    LabelsWith(c, FEATURES)
  }

  /** The labels of a running cluster: the type and the version under their names, the registered features as their
      gates say, and every other label as it was. */
  lemma {:induction false} LabelsRead(c: Cluster, features: set<string>)
    ensures var labels := LabelsWith(c, features);
      && labels.Keys == c.labels.Keys + features + {"clusterType", "version"}
      && labels["version"] == c.spec.version
      && labels["clusterType"] == TypeName(c.spec.clusterType)
      && (forall f :: f in features && f !in {"clusterType", "version"} ==>
            labels[f] == if FeatureGates.GateOn(c.annotations, f) then "true" else "false")
      && (forall k :: k in c.labels && k !in features + {"clusterType", "version"} ==> labels[k] == c.labels[k])
  {
    hide FeatureGates.GateOn, TypeName;
    assert "clusterType"[0] != "version"[0];
  }

  lemma GateLabelsStep(annotations: map<string, string>, features: set<string>, f: string)
    ensures GateLabels(annotations, features + {f}) ==
            GateLabels(annotations, features)[f := FeatureGates.FormatBool(FeatureGates.GateOn(annotations, f))]
  {
    hide FeatureGates.GateOn, FeatureGates.FormatBool;
  }

  // ----- The object as the handlers change it in place -----

  lemma ImportedAnnotations(c: Cluster)
    ensures c.spec.clusterType != Kstone ==> CreatedAnnotations(c) == c.annotations
  {
    hide ExtClientUrl.Items, Join;
  }

  /** How a handler ends: with an error or none, or in a panic. */
  datatype Outcome = Returned(error: HookResult) | Panicked

  class ClusterObject {
    const meta: Meta
    const spec: Spec
    var labels: map<string, string>
    var annotations: map<string, string>
    var conditions: seq<Condition>
    var phase: Phase
    var members: seq<Member>
    var gates: map<string, string>
    var serviceName: string

    constructor (c: Cluster)
      ensures Value() == c
    {
      meta, spec, labels, annotations := c.meta, c.spec, c.labels, c.annotations;
      conditions, phase, members := c.status.conditions, c.status.phase, c.status.members;
      gates, serviceName := c.status.gates, c.status.serviceName;
    }

    function Value(): Cluster
      reads this
    {
      Cluster(meta, spec, labels, annotations, Status(conditions, phase, members, gates, serviceName))
    }

    /** `handleClusterCreate` and `handleClusterUpdate`: the error is that of the first hook that fails, and the
        hooks after it are not called. A panic leaves the object as it was before the hooks. */
    method HandleOperation(op: Operation, hooks: Hooks, started: int, ended: int) returns (outcome: Outcome)
      modifies this
      ensures outcome == if Panics(old(Value()), op, hooks) then Panicked else Returned(FirstError(hooks))
      ensures Value() == var before := Started(old(Value()), op, started);
                         if outcome == Panicked then before else Ended(before, op, hooks, ended)
    {
      hide NextConditions, CreatedAnnotations;
      ghost var c := Value();
      conditions := NextConditions(conditions, OpCondition(op), started);
      phase := OpPhase(op);
      ghost var before := Value();
      assert before == Started(c, op, started);
      ImportedAnnotations(before);
      var i := |conditions| - 1;
      if hooks.before.Some? {
        conditions := conditions[i := conditions[i].(reason := hooks.before.value)];
        return Returned(hooks.before);
      }
      if hooks.main.Some? {
        conditions := conditions[i := conditions[i].(reason := hooks.main.value)];
        return Returned(hooks.main);
      }
      if op == CreateOp && spec.clusterType == Kstone {
        var panicked := AfterCreate(hooks.after);
        if panicked {
          return Panicked;
        }
      }
      if hooks.after.Some? {
        conditions := conditions[i := conditions[i].(reason := hooks.after.value)];
        return Returned(hooks.after);
      }
      conditions := conditions[i := conditions[i].(reason := "")];
      conditions := conditions[i := conditions[i].(end := Some(ended))];
      conditions := conditions[i := conditions[i].(status := CondTrue)];
      return Returned(None);
    }

    /** `AfterCreate` of the kstone provider, which panics on a nil map; an error would come before any insertion. */
    method AfterCreate(error: HookResult) returns (panicked: bool)
      requires spec.clusterType == Kstone
      modifies this`annotations
      ensures panicked <==> old(annotations) == map[]
      ensures annotations == if panicked || error.Some? then old(annotations) else CreatedAnnotations(old(Value()))
    {
      if annotations == map[] {
        return true;
      }
      if error.Some? {
        return false;
      }
      var scheme := if "scheme" in annotations then annotations["scheme"] else "";
      if scheme == "https" {
        annotations := annotations["certName" := meta.namespace + "/" + meta.name + "-etcd-client-cert"];
      }
      annotations := annotations["importedAddr" := scheme + "://" + meta.name + "-etcd." + meta.namespace + ".svc.cluster.local:2379"];
      var url := ExtClientUrl.PrintExtClientURL(meta.name, meta.namespace, Signed(spec.size));
      annotations := annotations["extClientURL" := url];
      return false;
    }

    /** `handleClusterStatus`: an error leaves the object as it was. */
    method HandleStatus(probe: Probe) returns (error: bool)
      modifies this
      ensures error == !probe.configured
      ensures Value() == if error then old(Value()) else Checked(old(Value()), probe)
    {
      if !probe.configured { return true; }
      var status := ProviderStatus(probe);
      conditions, phase, members := status.conditions, status.phase, status.members;
      gates, serviceName := status.gates, status.serviceName;
      return false;
    }

    /** `Status` of the providers, assigned to a copy field by field. */
    method ProviderStatus(probe: Probe) returns (status: Status)
      ensures status == Checked(Value(), probe).status
    {
      status := Status(conditions, phase, members, gates, serviceName);
      if members == [] {
        if "importedAddr" in annotations {
          status := status.(serviceName := annotations["importedAddr"]);
        } else {
          status := status.(phase := if spec.clusterType == Kstone then Creating else Unknown);
          return;
        }
      }
      var text := if "extClientURL" in annotations then annotations["extClientURL"] else "";
      var listed: Option<seq<Member>> := None;
      if probe.listed.Some? {
        var urls, err := ExtClientUrl.PopulateExtensionClientURLMap(text);
        if err == None {
          var runtime := GetRuntimeMembers(probe.listed.value, text, urls);
          listed := Some(runtime);
        }
      }
      assert listed == ListedMembers(Value(), probe);
      if spec.clusterType == Kstone {
        if listed == None || listed.value == [] || Signed(spec.size) != |listed.value| {
          if status.phase == Running { status := status.(phase := Unknown); }
          return;
        }
        var checked, health := GetMemberStatus(listed.value, probe.health);
        status := status.(members := checked);
        if status.phase == Running || health != Unknown { status := status.(phase := health); }
      } else {
        if listed == None {
          status := status.(phase := Unknown);
          return;
        }
        var checked, health := GetMemberStatus(listed.value, probe.health);
        status := status.(members := checked, phase := health);
      }
    }

    /** `handleClusterLabels`. Labels that exist are changed in place, and comparing them with themselves never
        asks for a write; only an object without labels is written here. */
    method HandleLabels(features: set<string>) returns (write: bool)
      modifies this`labels
      ensures labels == LabelsWith(old(Value()), features)
      ensures write <==> old(labels) == map[]
    {
      hide FeatureGates.GateOn, FeatureGates.FormatBool, GateLabels, TypeName;
      var none := labels == map[];
      var todo := features;
      NoGateLabels(annotations);
      while todo != {}
        invariant todo <= features
        invariant labels == old(labels) + GateLabels(annotations, features - todo)
        decreases todo
      {
        var f :| f in todo;
        var on := FeatureGates.IsFeatureGateEnabled(annotations, f);
        GateLabelsStep(annotations, features - todo, f);
        assert features - (todo - {f}) == features - todo + {f};
        labels := labels[f := FeatureGates.FormatBool(on)];
        todo := todo - {f};
      }
      assert features - todo == features;
      labels := labels["clusterType" := TypeName(spec.clusterType)];
      labels := labels["version" := spec.version];
      write := none;
    }
  }

  lemma NoGateLabels(annotations: map<string, string>)
    ensures forall features :: features == {} ==> GateLabels(annotations, features) == map[]
  {
  }
}
