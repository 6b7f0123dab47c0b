/** The user store: every call is a read, a local edit and a conditional write of one versioned config map. */
module UserStore {
  // ----- Calls and their meaning -----

  /** User names with their hashed passwords. */
  type Users = map<string, string>

  datatype ConfigMap = ConfigMap(data: Users, version: nat)

  datatype Request =
    | Get(name: string)
    | Add(name: string, hash: string)
    | Delete(name: string)
    | ChangePassword(name: string, hash: string)

  /** How a call ends. `Unknown` is an error from the write whose cause the caller cannot tell; `Panicked` is
      an insertion into the nil map that an empty config map is read back as. */
  datatype Answer = Found(hash: string) | Missing | Exists | LastUser | Panicked | Done | Conflict | Unknown

  /** The answer the request earns on the given users, if no one else is active. */
  function Judge(request: Request, users: Users): Answer {
    match request
    case Get(name) => if name in users then Found(users[name]) else Missing
    case Add(name, _) => if name in users then Exists else if users == map[] then Panicked else Done
    case Delete(name) => if name !in users then Missing else if |users| == 1 then LastUser else Done
    case ChangePassword(name, _) => if name in users then Done else Missing
  }

  /** The users after a request that is done. */
  function Effect(request: Request, users: Users): Users {
    match request
    case Get(_) => users
    case Add(name, hash) => users[name := hash]
    case Delete(name) => users - {name}
    case ChangePassword(name, hash) => users[name := hash]
  }

  /** What a read of its user finds after a request that is done. */
  function Leaves(request: Request): Answer
    requires !request.Get?
  {
    if request.Delete? then Missing else Found(request.hash)
  }

  ghost predicate SameExcept(before: Users, after: Users, name: string) {
    forall other :: other != name ==> Judge(Get(other), after) == Judge(Get(other), before)
  }

  /** A request that is done is visible to every later read of its user and to no other read. */
  lemma {:induction false} DoneIsVisible(request: Request, users: Users)
    requires Judge(request, users) == Done
    ensures Judge(Get(request.name), Effect(request, users)) == Leaves(request)
    ensures SameExcept(users, Effect(request, users), request.name)
  {
  }

  /** What a read finds decides every other guard: users are added only under new names, and changed and deleted
      only where they exist; what is not deleted then is the only user. */
  lemma {:induction false} GuardsAgree(users: Users, name: string, hash: string)
    ensures Judge(Get(name), users) == Found(hash) <==> name in users && users[name] == hash
    ensures Judge(Add(name, hash), users) == Exists <==> Judge(Get(name), users).Found?
    ensures Judge(Add(name, hash), users) == Panicked <==> forall other :: Judge(Get(other), users) == Missing
    ensures Judge(ChangePassword(name, hash), users) == Done <==> Judge(Get(name), users).Found?
    ensures Judge(ChangePassword(name, hash), users) in {Done, Missing}
    ensures Judge(Delete(name), users) == Missing <==> Judge(Get(name), users) == Missing
    ensures Judge(Delete(name), users) == LastUser <==>
            Judge(Get(name), users).Found? && forall other :: other != name ==> Judge(Get(other), users) == Missing
  {
    assert forall other :: Judge(Get(other), users) == Missing <==> other !in users;
    if users != map[] {
      var some :| some in users;
      assert Judge(Get(some), users).Found?;
    }
    OneUser(users, name);
    if forall other :: other != name ==> Judge(Get(other), users) == Missing {
      forall other | other != name ensures other !in users {
        assert Judge(Get(other), users) == Missing;
      }
    }
  }

  lemma OneUser(users: Users, name: string)
    ensures name in users && |users| == 1 <==> name in users && forall other :: other != name ==> other !in users
  {
    if name in users {
      assert |users| == |users.Keys|;
      if forall other :: other != name ==> other !in users {
        assert users.Keys == {name};
      } else {
        var other :| other in users && other != name;
        assert {name, other} <= users.Keys;
        assert |users.Keys - {name, other}| == |users.Keys| - 2;
      }
    }
  }

  /** The stored map after a submitted one: only the current version is accepted, and a write that changes
      nothing keeps the version. */
  function Stored(stored: ConfigMap, submitted: ConfigMap): ConfigMap {
    if submitted.version != stored.version || submitted.data == stored.data then stored
    else ConfigMap(submitted.data, stored.version + 1)
  }

  // ----- The calls as they are written -----

  /** What a read returns: an object its caller edits in place. */
  class Copy {
    var data: Users
    const version: nat

    constructor (cm: ConfigMap)
      ensures data == cm.data && version == cm.version
    {
      data, version := cm.data, cm.version;
    }
  }

  class ApiServer {
    var stored: ConfigMap

    method Read() returns (cm: Copy)
      ensures fresh(cm) && cm.data == stored.data && cm.version == stored.version
    {
      cm := new Copy(stored);
    }

    method Update(cm: Copy) returns (accepted: bool)
      modifies this
      ensures accepted <==> cm.version == old(stored).version
      ensures stored == Stored(old(stored), ConfigMap(cm.data, cm.version))
    {
      accepted := cm.version == stored.version;
      if accepted && cm.data != stored.data {
        stored := ConfigMap(cm.data, stored.version + 1);
      }
    }
  }

  /** `UserGet` after its read. */
  method UserGet(cm: Copy, name: string) returns (answer: Answer)
    ensures answer == Judge(Get(name), cm.data)
  {
    if name !in cm.data {
      return Missing;
    }
    return Found(cm.data[name]);
  }

  /** `UserAdd` between its read and its write. */
  method UserAdd(cm: Copy, name: string, hash: string) returns (answer: Answer)
    modifies cm
    ensures answer == Judge(Add(name, hash), old(cm.data))
    ensures cm.data == if answer == Done then Effect(Add(name, hash), old(cm.data)) else old(cm.data)
    ensures answer == Done ==> name !in old(cm.data) && name in cm.data && cm.data[name] == hash
    ensures SameExcept(old(cm.data), cm.data, name)
  {
    if name in cm.data {
      return Exists;
    }
    if cm.data == map[] {
      return Panicked;
    }
    cm.data := cm.data[name := hash];
    return Done;
  }

  /** `UserDelete` between its read and its write. */
  method UserDelete(cm: Copy, name: string) returns (answer: Answer)
    modifies cm
    ensures answer == Judge(Delete(name), old(cm.data))
    ensures cm.data == if answer == Done then Effect(Delete(name), old(cm.data)) else old(cm.data)
    ensures answer == Done ==> name in old(cm.data) && name !in cm.data
    ensures SameExcept(old(cm.data), cm.data, name)
  {
    if name !in cm.data {
      return Missing;
    }
    if |cm.data| == 1 {
      return LastUser;
    }
    cm.data := cm.data - {name};
    return Done;
  }

  /** `UserChangePassword` between its read and its write. */
  method UserChangePassword(cm: Copy, name: string, hash: string) returns (answer: Answer)
    modifies cm
    ensures answer == Judge(ChangePassword(name, hash), old(cm.data))
    ensures cm.data == if answer == Done then Effect(ChangePassword(name, hash), old(cm.data)) else old(cm.data)
    ensures answer == Done ==> name in old(cm.data) && name in cm.data && cm.data[name] == hash
    ensures SameExcept(old(cm.data), cm.data, name)
  {
    if name !in cm.data {
      return Missing;
    }
    cm.data := cm.data[name := hash];
    return Done;
  }

  /** A call that runs from its read to its write without company. */
  method RunAlone(server: ApiServer, request: Request) returns (answer: Answer)
    modifies server
    ensures answer == Judge(request, old(server.stored).data)
    ensures server.stored.data ==
            if answer == Done then Effect(request, old(server.stored).data) else old(server.stored).data
    ensures answer == Done ==> Judge(Get(request.name), server.stored.data) == Leaves(request)
    ensures SameExcept(old(server.stored).data, server.stored.data, request.name)
  {
    var cm := server.Read();
    match request {
      case Get(name) => answer := UserGet(cm, name);
      case Add(name, hash) => answer := UserAdd(cm, name, hash);
      case Delete(name) => answer := UserDelete(cm, name);
      case ChangePassword(name, hash) => answer := UserChangePassword(cm, name, hash);
    }
    if answer == Done {
      var accepted := server.Update(cm);
    }
  }

  // ----- Any number of calls at once -----

  /** A call that has read version `read.version` when `since` writes were committed, and edited its copy into
      `edited`. */
  datatype Pending = Pending(request: Request, since: nat, read: ConfigMap, edited: Users)

  /** A committed write. */
  datatype Entry = Entry(id: nat, request: Request)

  /** The end of a call, with the numbers of writes that were committed when it began and when it took effect. */
  datatype Result = Result(request: Request, answer: Answer, since: nat, at: nat)

  datatype World = World(
    stored: ConfigMap,
    pending: map<nat, Pending>,
    log: seq<Entry>,
    results: map<nat, Result>)

  /** A call reads; or its write arrives and is answered, arrives but the answer is lost, or never arrives. */
  datatype Event =
    | Start(id: nat, request: Request)
    | Write(id: nat, answered: bool)
    | WriteLost(id: nat)

  function Begin(w: World, id: nat, request: Request): World {
    var answer := Judge(request, w.stored.data);
    if answer == Done
    then w.(pending := w.pending[id := Pending(request, |w.log|, w.stored, Effect(request, w.stored.data))])
    else w.(results := w.results[id := Result(request, answer, |w.log|, |w.log|)])
  }

  function Finish(w: World, id: nat, answered: bool): World
    requires id in w.pending
  {
    var p := w.pending[id];
    var accepted := p.read.version == w.stored.version;
    var log := if accepted then w.log + [Entry(id, p.request)] else w.log;
    var answer := if !answered then Unknown else if accepted then Done else Conflict;
    World(Stored(w.stored, ConfigMap(p.edited, p.read.version)), w.pending - {id}, log,
          w.results[id := Result(p.request, answer, p.since, |log|)])
  }

  function Lose(w: World, id: nat): World
    requires id in w.pending
  {
    var p := w.pending[id];
    w.(pending := w.pending - {id}, results := w.results[id := Result(p.request, Unknown, p.since, |w.log|)])
  }

  /** Events that cannot happen in `w` leave it alone. */
  function Step(w: World, e: Event): World {
    match e
    case Start(id, request) => if id in w.pending || id in w.results then w else Begin(w, id, request)
    case Write(id, answered) => if id in w.pending then Finish(w, id, answered) else w
    case WriteLost(id) => if id in w.pending then Lose(w, id) else w
  }

  function Run(w: World, events: seq<Event>): World {
    if events == [] then w else Step(Run(w, events[..|events| - 1]), events[|events| - 1])
  }

  function Initial(stored: ConfigMap): World {
    World(stored, map[], [], map[])
  }

  // ----- The sequential meaning of a log -----

  /** The users after the committed writes, one after the other. */
  function Replay(users: Users, log: seq<Entry>): Users {
    if log == [] then users else Effect(log[|log| - 1].request, Replay(users, log[..|log| - 1]))
  }

  /** Every committed write would have been done on the users its predecessors left. */
  ghost predicate Legal(users: Users, log: seq<Entry>) {
    forall i :: 0 <= i < |log| ==> Judge(log[i].request, Replay(users, log[..i])) == Done
  }

  /** No call is committed twice. */
  ghost predicate Once(log: seq<Entry>) {
    forall i, j :: 0 <= i < j < |log| ==> log[i].id != log[j].id
  }

  predicate Committed(log: seq<Entry>, id: nat) {
    exists i :: 0 <= i < |log| && log[i].id == id
  }

  /** The answer of a call is the one it earns at some moment of the sequential run, not before the call began: a
      done call is the write committed at that moment, a conflict has no effect, any other answer is judged there. */
  ghost predicate Explained(users: Users, log: seq<Entry>, id: nat, r: Result) {
    && r.since <= r.at <= |log|
    && match r.answer
       case Done => r.since < r.at && log[r.at - 1] == Entry(id, r.request)
       case Conflict => !Committed(log, id)
       case Unknown => Committed(log, id) ==> r.since < r.at && log[r.at - 1] == Entry(id, r.request)
       case _ => !Committed(log, id) && Judge(r.request, Replay(users, log[..r.at])) == r.answer
  }

  ghost predicate AllExplained(users: Users, log: seq<Entry>, results: map<nat, Result>) {
    forall id :: id in results ==> Explained(users, log, id, results[id])
  }

  /** A pending call still holds what it read, and is done if nothing was stored since. */
  ghost predicate Consistent(stored: ConfigMap, p: Pending) {
    && p.edited == Effect(p.request, p.read.data)
    && Judge(p.request, p.read.data) == Done
    && p.read.version <= stored.version
    && (p.read.version == stored.version ==> p.read.data == stored.data)
  }

  ghost predicate Inv(users: Users, w: World) {
    && w.stored.data == Replay(users, w.log)
    && Legal(users, w.log)
    && Once(w.log)
    && (forall id :: id in w.pending ==> Consistent(w.stored, w.pending[id]) && w.pending[id].since <= |w.log|)
    && (forall id :: id in w.pending ==> id !in w.results)
    && (forall i :: 0 <= i < |w.log| ==> w.log[i].id in w.results)
    && AllExplained(users, w.log, w.results)
  }

  lemma AppendKeepsExplained(users: Users, log: seq<Entry>, e: Entry, id: nat, r: Result)
    requires Explained(users, log, id, r) && id != e.id
    ensures Explained(users, log + [e], id, r)
  {
    assert (log + [e])[..r.at] == log[..r.at];
    assert Committed(log + [e], id) ==> Committed(log, id);
  }

  lemma {:induction false} AppendKeepsLegal(users: Users, log: seq<Entry>, e: Entry)
    requires Legal(users, log) && Judge(e.request, Replay(users, log)) == Done
    ensures Legal(users, log + [e])
    ensures Replay(users, log + [e]) == Effect(e.request, Replay(users, log))
  {
    var more := log + [e];
    assert more[..|log|] == log;
    forall i | 0 <= i < |more|
      ensures Judge(more[i].request, Replay(users, more[..i])) == Done
    {
      if i < |log| {
        assert more[..i] == log[..i];
      }
    }
  }

  lemma {:induction false} BeginKeepsInv(users: Users, w: World, id: nat, request: Request)
    requires Inv(users, w) && id !in w.pending && id !in w.results
    ensures Inv(users, Begin(w, id, request))
  {
    hide Effect, Replay, Legal, Once;
    var v := Begin(w, id, request);
    assert w.log[..|w.log|] == w.log;
    assert !Committed(w.log, id);
    forall other | other in v.results
      ensures Explained(users, v.log, other, v.results[other])
    {
      assert other in w.results || other == id;
    }
  }

  lemma {:induction false} LoseKeepsInv(users: Users, w: World, id: nat)
    requires Inv(users, w) && id in w.pending
    ensures Inv(users, Lose(w, id))
  {
    var v := Lose(w, id);
    assert !Committed(w.log, id);
    forall other | other in v.results
      ensures Explained(users, v.log, other, v.results[other])
    {
      assert other in w.results || other == id;
    }
  }

  lemma RejectedKeepsInv(users: Users, w: World, id: nat, answered: bool)
    requires Inv(users, w) && id in w.pending && w.pending[id].read.version != w.stored.version
    ensures Inv(users, Finish(w, id, answered))
  {
    var v := Finish(w, id, answered);
    assert !Committed(w.log, id);
    forall other | other in v.results
      ensures Explained(users, v.log, other, v.results[other])
    {
      assert other in w.results || other == id;
    }
  }

  lemma {:induction false} AcceptedKeepsInv(users: Users, w: World, id: nat, answered: bool)
    requires Inv(users, w) && id in w.pending && w.pending[id].read.version == w.stored.version
    ensures Inv(users, Finish(w, id, answered))
  {
    hide Judge, Effect, Replay, Legal, Once, Consistent, Explained, Stored;
    var v := Finish(w, id, answered);
    var p := w.pending[id];
    AcceptedKeepsPending(users, w, id, answered);
    AcceptedKeepsResults(users, w, id, answered);
    AcceptedKeepsOnce(users, w, id);
  }

  lemma {:induction false} AcceptedKeepsOnce(users: Users, w: World, id: nat)
    requires Inv(users, w) && id in w.pending && w.pending[id].read.version == w.stored.version
    ensures var log := w.log + [Entry(id, w.pending[id].request)];
      && Once(log) && Legal(users, log)
      && Stored(w.stored, ConfigMap(w.pending[id].edited, w.stored.version)).data == Replay(users, log)
  {
    hide Judge, Effect, Replay, Legal, Explained;
    var p := w.pending[id];
    assert Consistent(w.stored, p);
    AppendKeepsLegal(users, w.log, Entry(id, p.request));
  }

  lemma AcceptedKeepsPending(users: Users, w: World, id: nat, answered: bool)
    requires Inv(users, w) && id in w.pending && w.pending[id].read.version == w.stored.version
    ensures var v := Finish(w, id, answered);
            forall other :: other in v.pending ==>
              other in w.pending && other != id && v.pending[other] == w.pending[other]
              && Consistent(v.stored, v.pending[other])
  {
    hide Judge, Effect, Replay, Legal, Once, Explained;
    var v := Finish(w, id, answered);
    forall other | other in v.pending
      ensures Consistent(v.stored, v.pending[other])
    {
      assert Consistent(w.stored, w.pending[other]);
    }
  }

  lemma {:induction false} AcceptedKeepsResults(users: Users, w: World, id: nat, answered: bool)
    requires Inv(users, w) && id in w.pending && w.pending[id].read.version == w.stored.version
    ensures AllExplained(users, Finish(w, id, answered).log, Finish(w, id, answered).results)
  {
    hide Judge, Effect, Replay, Legal, Once, Stored, Consistent;
    var v := Finish(w, id, answered);
    forall other | other in v.results
      ensures Explained(users, v.log, other, v.results[other])
    {
      if other != id {
        AppendKeepsExplained(users, w.log, Entry(id, w.pending[id].request), other, w.results[other]);
      }
    }
  }

  lemma {:induction false} StepKeepsInv(users: Users, w: World, e: Event)
    requires Inv(users, w)
    ensures Inv(users, Step(w, e))
  {
    hide *;
    StepCases(w, e);
    match e {
      case Start(id, request) =>
        if id !in w.pending && id !in w.results {
          BeginKeepsInv(users, w, id, request);
        }
      case Write(id, answered) =>
        if id in w.pending {
          if w.pending[id].read.version == w.stored.version {
            AcceptedKeepsInv(users, w, id, answered);
          } else {
            RejectedKeepsInv(users, w, id, answered);
          }
        }
      case WriteLost(id) =>
        if id in w.pending {
          LoseKeepsInv(users, w, id);
        }
    }
  }

  lemma StepCases(w: World, e: Event)
    ensures e.Start? ==>
              Step(w, e) == if e.id in w.pending || e.id in w.results then w else Begin(w, e.id, e.request)
    ensures e.Write? ==> Step(w, e) == if e.id in w.pending then Finish(w, e.id, e.answered) else w
    ensures e.WriteLost? ==> Step(w, e) == if e.id in w.pending then Lose(w, e.id) else w
  {
  }

  lemma {:induction false} EveryRun(stored: ConfigMap, events: seq<Event>)
    ensures Inv(stored.data, Run(Initial(stored), events))
  {
    if events == [] {
      assert Replay(stored.data, []) == stored.data;
    } else {
      EveryRun(stored, events[..|events| - 1]);
      StepKeepsInv(stored.data, Run(Initial(stored), events[..|events| - 1]), events[|events| - 1]);
    }
  }

  /** Every interleaving of any number of calls leaves in the store what the committed writes give when they run
      one after the other in the order of their commits. */
  lemma Linearizable(stored: ConfigMap, events: seq<Event>)
    ensures var w := Run(Initial(stored), events);
            w.stored.data == Replay(stored.data, w.log)
  {
    EveryRun(stored, events);
  }

  /** And every committed write was allowed when its turn came. */
  lemma {:induction false} CommitsAreLegal(stored: ConfigMap, events: seq<Event>)
    ensures Legal(stored.data, Run(Initial(stored), events).log)
  {
    EveryRun(stored, events);
  }

  /** No call is committed twice, and every answer was right at one moment of the sequential run. */
  lemma {:induction false} AnswersExplained(stored: ConfigMap, events: seq<Event>)
    ensures var w := Run(Initial(stored), events);
            Once(w.log) && AllExplained(stored.data, w.log, w.results)
  {
    EveryRun(stored, events);
  }

  /** What came after a moment of a run: calls that had not begun by then began no earlier, and ended calls are
      left alone. */
  ghost predicate After(w: World, v: World) {
    && w.log <= v.log
    && (forall id :: id in v.pending && id !in w.pending ==> v.pending[id].since >= |w.log|)
    && (forall id :: id in v.results && id !in w.pending && id !in w.results ==> v.results[id].since >= |w.log|)
    && (forall id :: id in w.results ==> id in v.results && v.results[id] == w.results[id])
  }

  lemma {:induction false} RunIsAfter(w: World, events: seq<Event>)
    requires forall id :: id in w.pending ==> id !in w.results
    ensures After(w, Run(w, events))
    ensures var v := Run(w, events);
            forall id :: id in v.pending ==> id !in v.results
  {
    hide After, Step;
    if events == [] {
      AfterItself(w);
    } else {
      RunIsAfter(w, events[..|events| - 1]);
      StepIsAfter(w, Run(w, events[..|events| - 1]), events[|events| - 1]);
    }
  }

  lemma AfterItself(w: World)
    requires forall id :: id in w.pending ==> id !in w.results
    ensures After(w, w)
  {
  }

  lemma StepIsAfter(w: World, v: World, e: Event)
    requires After(w, v)
    requires forall id :: id in v.pending ==> id !in v.results
    ensures After(w, Step(v, e))
    ensures forall id :: id in Step(v, e).pending ==> id !in Step(v, e).results
  {
    hide Judge, Effect, Stored;
  }

  /** The sequential order respects real time: a call that ended before another one began comes first. */
  lemma {:induction false} RealTimeOrder(stored: ConfigMap, before: seq<Event>, events: seq<Event>, first: nat, second: nat)
    requires var w := Run(Initial(stored), before); first in w.results && second !in w.results && second !in w.pending
    requires second in Run(Run(Initial(stored), before), events).results
    ensures var v := Run(Run(Initial(stored), before), events);
            first in v.results && v.results[first].at <= v.results[second].since
  {
    hide Run;
    var w := Run(Initial(stored), before);
    EveryRun(stored, before);
    assert Explained(stored.data, w.log, first, w.results[first]);
    RunIsAfter(w, events);
  }

  // ----- What legal logs keep -----

  lemma {:induction false} LegalPrefix(users: Users, log: seq<Entry>, n: nat)
    requires Legal(users, log) && n <= |log|
    ensures Legal(users, log[..n])
  {
    forall i | 0 <= i < n
      ensures Judge(log[..n][i].request, Replay(users, log[..n][..i])) == Done
    {
      assert log[..n][..i] == log[..i];
    }
  }

  /** The difference a done request makes to the number of users. */
  function Growth(request: Request): int {
    match request
    case Add(_, _) => 1
    case Delete(_) => -1
    case _ => 0
  }

  function TotalGrowth(log: seq<Entry>): int {
    if log == [] then 0 else TotalGrowth(log[..|log| - 1]) + Growth(log[|log| - 1].request)
  }

  lemma DoneChangesSize(request: Request, users: Users)
    requires Judge(request, users) == Done
    ensures |Effect(request, users)| == |users| + Growth(request)
    ensures users != map[] && Effect(request, users) != map[]
  {
    var after := Effect(request, users);
    match request {
      case Add(name, _) => assert after.Keys == users.Keys + {name};
      case Delete(name) => assert after.Keys == users.Keys - {name};
      case ChangePassword(name, _) => assert after.Keys == users.Keys;
    }
    assert |after| == |after.Keys| && |users| == |users.Keys|;
  }

  /** The number of users is conserved: the initial ones, plus the additions, minus the deletions. */
  lemma {:induction false} LegalCounts(users: Users, log: seq<Entry>)
    requires Legal(users, log)
    ensures |Replay(users, log)| == |users| + TotalGrowth(log)
    ensures users != map[] ==> Replay(users, log) != map[]
    ensures users == map[] ==> log == []
  {
    if log != [] {
      var n := |log| - 1;
      LegalPrefix(users, log, n);
      LegalCounts(users, log[..n]);
      DoneChangesSize(log[n].request, Replay(users, log[..n]));
    }
  }

  /** A store with a user never loses its last one, counts its users right, and makes no call panic. */
  lemma {:induction false} NeverEmptied(stored: ConfigMap, events: seq<Event>)
    requires stored.data != map[]
    ensures var w := Run(Initial(stored), events);
            && w.stored.data != map[]
            && |w.stored.data| == |stored.data| + TotalGrowth(w.log)
            && forall id :: id in w.results ==> w.results[id].answer != Panicked
  {
    hide Run, Explained, Legal, Replay, TotalGrowth;
    var w := Run(Initial(stored), events);
    EveryRun(stored, events);
    LegalCounts(stored.data, w.log);
    forall id | id in w.results
      ensures w.results[id].answer != Panicked
    {
      NoPanic(stored.data, w.log, id, w.results[id]);
    }
  }

  lemma NoPanic(users: Users, log: seq<Entry>, id: nat, r: Result)
    requires users != map[] && Legal(users, log) && Explained(users, log, id, r)
    ensures r.answer != Panicked
  {
    hide Legal, Replay;
    LegalPrefix(users, log, r.at);
    LegalCounts(users, log[..r.at]);
  }

  /** A world of an empty store in which nothing has been written. */
  predicate Barren(stored: ConfigMap, w: World) {
    && w.stored == stored && w.pending == map[] && w.log == []
    && forall id :: id in w.results && w.results[id].request.Add? ==> w.results[id].answer == Panicked
  }

  /** A store without users stays so: no write is ever committed and every call to add a user panics. */
  lemma {:induction false} EmptyStaysEmpty(stored: ConfigMap, events: seq<Event>)
    requires stored.data == map[]
    ensures Barren(stored, Run(Initial(stored), events))
  {
    if events != [] {
      var e := events[|events| - 1];
      EmptyStaysEmpty(stored, events[..|events| - 1]);
      StepCases(Run(Initial(stored), events[..|events| - 1]), e);
      assert e.Start? ==> Judge(e.request, stored.data) == if e.request.Add? then Panicked else Missing;
    }
  }

  // ----- What a read finds -----

  /** Entry `i` is the last committed write that concerns `name`. */
  ghost predicate LastAbout(log: seq<Entry>, name: string, i: nat) {
    && i < |log| && log[i].request.name == name
    && forall j :: i < j < |log| ==> log[j].request.name != name
  }

  ghost predicate NoneAbout(log: seq<Entry>, name: string) {
    forall i :: 0 <= i < |log| ==> log[i].request.name != name
  }

  lemma {:induction false} ReplayKeepsLast(users: Users, log: seq<Entry>, name: string)
    requires Legal(users, log)
    ensures forall i: nat :: LastAbout(log, name, i) ==>
              !log[i].request.Get? && Judge(Get(name), Replay(users, log)) == Leaves(log[i].request)
    ensures NoneAbout(log, name) ==> Judge(Get(name), Replay(users, log)) == Judge(Get(name), users)
  {
    hide Judge, Effect, Legal;
    if log != [] {
      var n := |log| - 1;
      var init, last := log[..n], log[n].request;
      LegalPrefix(users, log, n);
      ReplayKeepsLast(users, init, name);
      LegalLast(users, log);
      DoneIsVisible(last, Replay(users, init));
      forall i: nat | LastAbout(log, name, i)
        ensures !log[i].request.Get? && Judge(Get(name), Replay(users, log)) == Leaves(log[i].request)
      {
        if i < n {
          assert LastAbout(init, name, i) && init[i] == log[i];
          assert last.name != name;
        }
      }
      if NoneAbout(log, name) {
        assert NoneAbout(init, name) && last.name != name;
      }
    }
  }

  lemma LegalLast(users: Users, log: seq<Entry>)
    requires Legal(users, log) && log != []
    ensures var n := |log| - 1;
            Judge(log[n].request, Replay(users, log[..n])) == Done && !log[n].request.Get?
  {
  }

  /** After every run, a read of a name finds the password of the last committed write that concerns the name, or
      nothing if that was a deletion; without such a write it finds what was there at first. */
  lemma {:induction false} LastWriteIsRead(stored: ConfigMap, events: seq<Event>, name: string)
    ensures var w := Run(Initial(stored), events);
            && (forall i: nat :: LastAbout(w.log, name, i) ==>
                  !w.log[i].request.Get? && Judge(Get(name), w.stored.data) == Leaves(w.log[i].request))
            && (NoneAbout(w.log, name) ==> Judge(Get(name), w.stored.data) == Judge(Get(name), stored.data))
  {
    hide Run, Judge, Legal, Replay, LastAbout, NoneAbout;
    CommitsAreLegal(stored, events);
    Linearizable(stored, events);
    ReplayKeepsLast(stored.data, Run(Initial(stored), events).log, name);
  }

  // ----- Competing calls -----

  lemma {:induction false} VersionGrows(w: World, events: seq<Event>)
    ensures w.stored.version <= Run(w, events).stored.version
  {
    if events != [] {
      VersionGrows(w, events[..|events| - 1]);
    }
  }

  /** Once a write has changed the users, every call that read before it ends without effect. */
  lemma LaterWriteConflicts(w: World, id: nat, events: seq<Event>, answered: bool)
    requires id in w.pending
    requires var v := Run(w, events); id in v.pending && v.pending[id] == w.pending[id]
    requires w.pending[id].read.version < w.stored.version
    ensures var v := Run(w, events); Finish(v, id, answered).stored == v.stored && Finish(v, id, answered).log == v.log
  {
    VersionGrows(w, events);
  }

  /** Two calls read the same version and both writes are accepted: then the first left the users as they
      were, so the second still replaces exactly what it read. */
  lemma BothAcceptedOnlyIfIdle(users: Users, w: World, first: nat, second: nat)
    requires Inv(users, w) && first in w.pending && second in w.pending && first != second
    requires w.pending[first].read == w.stored && w.pending[second].read == w.stored
    ensures var v := Finish(w, first, true);
            (Finish(v, second, true).results[second].answer == Done
             <==> Effect(w.pending[first].request, w.stored.data) == w.stored.data)
  {
    assert Consistent(w.stored, w.pending[first]);
  }
}
