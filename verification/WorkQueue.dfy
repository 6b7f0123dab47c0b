/** The controller's work queue under any number of workers. The queue itself follows client-go's rate limiting
    work queue: an item is queued at most once, is never handed to two workers, and an item that is added while
    a worker holds it is queued again when the worker is done. */
module WorkQueue {
  import opened Options

  /** Work items are keys; anything else in the queue is a programming error. */
  datatype Item = Key(name: string) | Alien(id: nat)

  // ----- The queue -----

  datatype State = State(
    queue: seq<Item>,
    dirty: set<Item>,
    processing: set<Item>,
    waiting: set<Item>,
    failures: map<Item, nat>)

  const EMPTY := State([], {}, {}, {}, map[])

  function Count(counts: map<Item, nat>, item: Item): nat {
    if item in counts then counts[item] else 0
  }

  function Added(s: State, item: Item): State {
    if item in s.dirty then s
    else if item in s.processing then s.(dirty := s.dirty + {item})
    else s.(dirty := s.dirty + {item}, queue := s.queue + [item])
  }

  function Taken(s: State): State
    requires s.queue != []
  {
    s.(queue := s.queue[1..], processing := s.processing + {s.queue[0]}, dirty := s.dirty - {s.queue[0]})
  }

  function Finished(s: State, item: Item): State {
    var left := s.(processing := s.processing - {item});
    if item in s.dirty then left.(queue := s.queue + [item]) else left
  }

  /** The item will be added when its delay, which grows with its failures, is over. */
  function Delayed(s: State, item: Item): State {
    s.(waiting := s.waiting + {item}, failures := s.failures[item := Count(s.failures, item) + 1])
  }

  function Released(s: State, item: Item): State {
    if item in s.waiting then Added(s.(waiting := s.waiting - {item}), item) else s
  }

  function Forgotten(s: State, item: Item): State {
    s.(failures := s.failures - {item})
  }

  /** What the worker does to the queue after the sync handler has returned and before it is done. */
  function Settled(s: State, item: Item, ok: bool): State {
    if item.Key? && !ok then Delayed(s, item) else Forgotten(s, item)
  }

  class Queue {
    var queue: seq<Item>
    var dirty: set<Item>
    var processing: set<Item>
    var waiting: set<Item>
    var failures: map<Item, nat>

    constructor ()
      ensures Value() == EMPTY
    {
      queue, dirty, processing, waiting, failures := [], {}, {}, {}, map[];
    }

    ghost function Value(): State
      reads this
    {
      State(queue, dirty, processing, waiting, failures)
    }

    method Add(item: Item)
      modifies this
      ensures Value() == Added(old(Value()), item)
    {
      if item in dirty {
        return;
      }
      dirty := dirty + {item};
      if item in processing {
        return;
      }
      queue := queue + [item];
    }

    method Get() returns (item: Item)
      requires queue != []
      modifies this
      ensures item == old(queue)[0] && Value() == Taken(old(Value()))
    {
      item := queue[0];
      queue := queue[1..];
      processing := processing + {item};
      dirty := dirty - {item};
    }

    method Done(item: Item)
      modifies this
      ensures Value() == Finished(old(Value()), item)
    {
      processing := processing - {item};
      if item in dirty {
        queue := queue + [item];
      }
    }

    method AddRateLimited(item: Item)
      modifies this
      ensures Value() == Delayed(old(Value()), item)
    {
      failures := failures[item := (if item in failures then failures[item] else 0) + 1];
      waiting := waiting + {item};
    }

    method Forget(item: Item)
      modifies this
      ensures Value() == Forgotten(old(Value()), item)
    {
      failures := failures - {item};
    }
  }

  /** `ProcessWorkQueue`, with the answer of the sync handler for `None` as success; `Done` is deferred. */
  method ProcessWorkQueue(queue: Queue, item: Item, answer: Option<string>) returns (error: Option<string>)
    modifies queue
    ensures queue.Value() == Finished(Settled(old(queue.Value()), item, answer.None?), item)
    ensures error.Some? <==> item.Key? && answer.Some?
  {
    if !item.Key? {
      queue.Forget(item);
      queue.Done(item);
      return None;
    }
    if answer.Some? {
      queue.AddRateLimited(item);
      error := Some("error syncing '" + item.name + "': " + answer.value + ", requeuing");
      queue.Done(item);
      return;
    }
    queue.Forget(item);
    queue.Done(item);
    return None;
  }

  // ----- Any number of workers -----

  /** A worker with an item: the handler is running, or has returned and `Done` is still to come. */
  datatype Task = Task(item: Item, returned: bool)

  /** `requested` are the items that someone asked for since a worker last took them: by an add, by a delay that
      ended, or by a sync that failed. `clean` are the items whose last sync succeeded. */
  datatype World = World(
    s: State,
    workers: map<nat, Task>,
    gets: map<Item, nat>,
    dones: map<Item, nat>,
    requested: set<Item>,
    clean: set<Item>)

  datatype Event =
    | Request(item: Item)
    | Release(item: Item)
    | Take(worker: nat)
    | Return(worker: nat, ok: bool)
    | Finish(worker: nat)

  const INITIAL := World(EMPTY, map[], map[], map[], {}, {})

  function TakeStep(w: World, worker: nat): World
    requires w.s.queue != []
  {
    var item := w.s.queue[0];
    w.(s := Taken(w.s), workers := w.workers[worker := Task(item, false)],
       gets := w.gets[item := Count(w.gets, item) + 1], requested := w.requested - {item})
  }

  function ReturnStep(w: World, worker: nat, ok: bool): World
    requires worker in w.workers
  {
    var item := w.workers[worker].item;
    var failed := item.Key? && !ok;
    w.(s := Settled(w.s, item, ok), workers := w.workers[worker := Task(item, true)],
       requested := if failed then w.requested + {item} else w.requested,
       clean := if failed then w.clean - {item} else w.clean + {item})
  }

  function FinishStep(w: World, worker: nat): World
    requires worker in w.workers
  {
    var item := w.workers[worker].item;
    w.(s := Finished(w.s, item), workers := w.workers - {worker},
       dones := w.dones[item := Count(w.dones, item) + 1])
  }

  predicate CanTake(w: World, worker: nat) {
    w.s.queue != [] && worker !in w.workers
  }

  /** Events that cannot happen leave the world alone. */
  function Step(w: World, e: Event): World {
    match e
    case Request(item) => w.(s := Added(w.s, item), requested := w.requested + {item})
    case Release(item) =>
      if item in w.s.waiting then w.(s := Released(w.s, item), requested := w.requested + {item}) else w
    case Take(worker) => if CanTake(w, worker) then TakeStep(w, worker) else w
    case Return(worker, ok) =>
      if worker in w.workers && !w.workers[worker].returned then ReturnStep(w, worker, ok) else w
    case Finish(worker) =>
      if worker in w.workers && w.workers[worker].returned then FinishStep(w, worker) else w
  }

  function Run(w: World, events: seq<Event>): World {
    if events == [] then w else Step(Run(w, events[..|events| - 1]), events[|events| - 1])
  }

  // ----- What every run keeps -----

  predicate NoRepeats(queue: seq<Item>) {
    forall i, j :: 0 <= i < j < |queue| ==> queue[i] != queue[j]
  }

  /** Dirty items are queued unless a worker holds them. */
  ghost predicate QueueInv(s: State) {
    && NoRepeats(s.queue)
    && forall x :: x in s.queue <==> x in s.dirty && x !in s.processing
  }

  predicate Held(workers: map<nat, Task>, x: Item) {
    exists k :: k in workers && workers[k].item == x
  }

  /** Exactly the items in processing are held, each by one worker. */
  ghost predicate HeldInv(s: State, workers: map<nat, Task>) {
    && (forall x :: x in s.processing <==> Held(workers, x))
    && forall j, k :: j in workers && k in workers && j != k ==> workers[j].item != workers[k].item
  }

  /** Every `Get` has been, or is still to be, matched by one `Done`. */
  ghost predicate Matched(w: World) {
    forall x :: Count(w.gets, x) == Count(w.dones, x) + if x in w.s.processing then 1 else 0
  }

  /** What was requested is pending. */
  ghost predicate NothingLost(w: World) {
    w.s.dirty <= w.requested <= w.s.dirty + w.s.waiting
  }

  /** An item without a pending request was synced successfully, or is being synced. */
  ghost predicate Synced(w: World) {
    forall x :: Count(w.gets, x) > 0 && x !in w.requested && x !in w.clean ==>
      exists k :: k in w.workers && w.workers[k] == Task(x, false)
  }

  ghost predicate Inv(w: World) {
    QueueInv(w.s) && HeldInv(w.s, w.workers) && Matched(w) && NothingLost(w)
  }

  lemma AddKeepsInv(w: World, v: World, item: Item, waiting: set<Item>)
    requires Inv(w)
    requires w.s.waiting - {item} <= waiting
    requires v == w.(s := Added(w.s.(waiting := waiting), item), requested := w.requested + {item})
    ensures Inv(v)
  {
    if item !in w.s.dirty && item !in w.s.processing {
      assert v.s.queue == w.s.queue + [item];
    }
  }

  lemma TakeKeepsInv(w: World, worker: nat)
    requires Inv(w) && CanTake(w, worker)
    ensures Inv(TakeStep(w, worker))
  {
    var item := w.s.queue[0];
    var v := TakeStep(w, worker);
    assert w.s.queue == [item] + v.s.queue;
    assert item in w.s.queue;
    assert item !in v.s.queue;
    forall x
      ensures x in v.s.processing <==> Held(v.workers, x)
    {
      TakeHeld(w.workers, worker, item, x);
    }
    assert HeldInv(v.s, v.workers) by {
      forall j | j in w.workers
        ensures w.workers[j].item != item
      {
        assert Held(w.workers, w.workers[j].item);
      }
    }
  }

  lemma TakeHeld(workers: map<nat, Task>, worker: nat, item: Item, x: Item)
    requires worker !in workers
    ensures Held(workers[worker := Task(item, false)], x) <==> x == item || Held(workers, x)
  {
    var more := workers[worker := Task(item, false)];
    if x == item {
      assert more[worker].item == x;
    } else if Held(workers, x) {
      var k :| k in workers && workers[k].item == x;
      assert k in more && more[k].item == x;
    }
  }

  lemma ReturnHeld(workers: map<nat, Task>, worker: nat, x: Item)
    requires worker in workers
    ensures Held(workers[worker := Task(workers[worker].item, true)], x) <==> Held(workers, x)
  {
    var more := workers[worker := Task(workers[worker].item, true)];
    if Held(workers, x) {
      var k :| k in workers && workers[k].item == x;
      assert k in more && more[k].item == x;
    }
  }

  lemma FinishHeld(workers: map<nat, Task>, worker: nat, x: Item)
    requires worker in workers
    requires forall k :: k in workers && k != worker ==> workers[k].item != workers[worker].item
    ensures Held(workers - {worker}, x) <==> Held(workers, x) && x != workers[worker].item
  {
    if Held(workers, x) && x != workers[worker].item {
      var k :| k in workers && workers[k].item == x;
      assert k in workers - {worker} && (workers - {worker})[k].item == x;
    }
  }

  lemma ReturnKeepsInv(w: World, worker: nat, ok: bool)
    requires Inv(w) && worker in w.workers
    ensures Inv(ReturnStep(w, worker, ok))
  {
    var v := ReturnStep(w, worker, ok);
    forall x
      ensures x in v.s.processing <==> Held(v.workers, x)
    {
      ReturnHeld(w.workers, worker, x);
    }
  }

  lemma FinishKeepsInv(w: World, worker: nat)
    requires Inv(w) && worker in w.workers
    ensures Inv(FinishStep(w, worker))
  {
    var item := w.workers[worker].item;
    var v := FinishStep(w, worker);
    assert Held(w.workers, item);
    forall x
      ensures x in v.s.processing <==> Held(v.workers, x)
    {
      FinishHeld(w.workers, worker, x);
    }
    if item in w.s.dirty {
      assert v.s.queue == w.s.queue + [item];
    }
  }

  lemma {:induction false} StepKeepsInv(w: World, e: Event)
    requires Inv(w)
    ensures Inv(Step(w, e))
  {
    hide Inv, Added, Settled, Finished, Taken;
    match e {
      case Request(item) => AddKeepsInv(w, Step(w, e), item, w.s.waiting);
      case Release(item) =>
        if item in w.s.waiting {
          AddKeepsInv(w, Step(w, e), item, w.s.waiting - {item});
        }
      case Take(worker) =>
        if CanTake(w, worker) {
          TakeKeepsInv(w, worker);
        }
      case Return(worker, ok) =>
        if worker in w.workers && !w.workers[worker].returned {
          ReturnKeepsInv(w, worker, ok);
        }
      case Finish(worker) =>
        if worker in w.workers && w.workers[worker].returned {
          FinishKeepsInv(w, worker);
        }
    }
  }

  /** In every run no item is queued twice, no item is held by two workers, every get is matched by one done, and
      whatever was requested, by an add during the processing or by a failed sync too, is still pending until a
      worker takes it. */
  lemma {:induction false} EveryRun(events: seq<Event>)
    ensures Inv(Run(INITIAL, events))
  {
    if events != [] {
      EveryRun(events[..|events| - 1]);
      StepKeepsInv(Run(INITIAL, events[..|events| - 1]), events[|events| - 1]);
    }
  }

  // ----- When all is quiet -----

  lemma SyncedStep(w: World, e: Event)
    requires Synced(w)
    ensures Synced(Step(w, e))
  {
    hide Added, Settled, Finished, Released;
    var v := Step(w, e);
    forall x | Count(v.gets, x) > 0 && x !in v.requested && x !in v.clean
      ensures exists k :: k in v.workers && v.workers[k] == Task(x, false)
    {
      if e.Take? && CanTake(w, e.worker) && x == w.s.queue[0] {
        assert v.workers[e.worker] == Task(x, false);
      } else {
        var k :| k in w.workers && w.workers[k] == Task(x, false);
        assert k in v.workers && v.workers[k] == Task(x, false);
      }
    }
  }

  /** When nothing is pending and no worker is busy, every item that was ever requested has been synced, and the
      last sync of each item succeeded and began after the last request for it. */
  lemma {:induction false} QuietMeansSynced(events: seq<Event>)
    ensures var w := Run(INITIAL, events);
            && Synced(w)
            && (w.s.queue == [] && w.s.waiting == {} && w.workers == map[] ==>
                  w.requested == {} && forall x :: Count(w.gets, x) > 0 ==> x in w.clean)
  {
    EveryRun(events);
    if events != [] {
      EveryRun(events[..|events| - 1]);
      QuietMeansSynced(events[..|events| - 1]);
      SyncedStep(Run(INITIAL, events[..|events| - 1]), events[|events| - 1]);
    }
    QuietNow(Run(INITIAL, events));
  }

  lemma QuietNow(w: World)
    requires Inv(w)
    ensures w.s.queue == [] && w.s.waiting == {} && w.workers == map[] ==> w.requested == {}
  {
    if w.s.queue == [] && w.s.waiting == {} && w.workers == map[] {
      assert forall x :: x in w.s.processing ==> Held(w.workers, x);
      assert w.s.processing == {};
      assert forall x :: x in w.s.dirty ==> x in w.s.queue;
      assert w.s.dirty == {};
    }
  }

  // ----- The same told by the events -----

  /** The worker returns from its handler for the item. */
  predicate Returns(w: World, worker: nat, item: Item) {
    worker in w.workers && w.workers[worker] == Task(item, false)
  }

  /** How the last sync of an item ended. */
  function LastReturn(events: seq<Event>, item: Item): Option<bool> {
    if events == [] then None
    else
      var last := |events| - 1;
      match events[last]
      case Return(worker, ok) =>
        if Returns(Run(INITIAL, events[..last]), worker, item) then Some(ok) else LastReturn(events[..last], item)
      case _ => LastReturn(events[..last], item)
  }

  /** How many syncs of an item have failed since the last one that succeeded. */
  function FailedInARow(events: seq<Event>, item: Item): nat {
    if events == [] then 0
    else
      var last := |events| - 1;
      var before := FailedInARow(events[..last], item);
      match events[last]
      case Return(worker, ok) =>
        if !Returns(Run(INITIAL, events[..last]), worker, item) then before else if ok then 0 else before + 1
      case _ => before
  }

  /** The queue's record of an item is what its syncs did: it is clean exactly if the last one succeeded, and its delay
      counts the failures since then. */
  lemma {:induction false} RecordsAreTrue(events: seq<Event>, name: string)
    ensures var w, item := Run(INITIAL, events), Key(name);
            && (item in w.clean <==> LastReturn(events, item) == Some(true))
            && Count(w.s.failures, item) == FailedInARow(events, item)
  {
    if events != [] {
      var last := |events| - 1;
      RecordsAreTrue(events[..last], name);
      RecordStep(Run(INITIAL, events[..last]), events[last], name);
    }
  }

  lemma RecordStep(w: World, e: Event, name: string)
    ensures var v, item := Step(w, e), Key(name);
            if e.Return? && Returns(w, e.worker, item)
            then (item in v.clean <==> e.ok) && Count(v.s.failures, item) == (if e.ok then 0 else Count(w.s.failures, item) + 1)
            else (item in v.clean <==> item in w.clean) && Count(v.s.failures, item) == Count(w.s.failures, item)
  {
  }

  /** A quiet queue, told by the events: the last sync of every item that was ever taken succeeded. */
  lemma {:induction false} QuietReturns(events: seq<Event>, name: string)
    requires var w := Run(INITIAL, events);
             w.s.queue == [] && w.s.waiting == {} && w.workers == map[] && Count(w.gets, Key(name)) > 0
    ensures LastReturn(events, Key(name)) == Some(true)
  {
    hide Run, LastReturn, FailedInARow, Synced;
    QuietMeansSynced(events);
    RecordsAreTrue(events, name);
  }

  predicate Pending(w: World, item: Item) {
    item in w.s.dirty || item in w.s.waiting
  }

  /** What makes an item pending: a request, and a sync of it that fails. */
  lemma {:induction false} BecomesPending(w: World, e: Event, item: Item)
    requires e == Request(item) || (e.Return? && !e.ok && item.Key? && Returns(w, e.worker, item))
    ensures Pending(Step(w, e), item)
  {
  }

  /** And it stays so until a worker takes it, whatever happens in between. */
  lemma {:induction false} StaysPending(w: World, events: seq<Event>, item: Item)
    requires Pending(w, item)
    ensures var v := Run(w, events);
            Count(v.gets, item) >= Count(w.gets, item) && (Pending(v, item) || Count(v.gets, item) > Count(w.gets, item))
  {
    hide Step, Pending;
    if events != [] {
      StaysPending(w, events[..|events| - 1], item);
      PendingStep(Run(w, events[..|events| - 1]), events[|events| - 1], item);
    }
  }

  lemma PendingStep(w: World, e: Event, item: Item)
    ensures var v := Step(w, e);
            && Count(v.gets, item) >= Count(w.gets, item)
            && (Pending(w, item) ==> Pending(v, item) || Count(v.gets, item) > Count(w.gets, item))
  {
  }

  // ----- First in, first out -----

  /** The number of items that workers take during a run. */
  function Takes(w: World, events: seq<Event>): nat {
    if events == [] then 0
    else
      var last := |events| - 1;
      Takes(w, events[..last])
      + if events[last].Take? && CanTake(Run(w, events[..last]), events[last].worker) then 1 else 0
  }

  /** A queued item waits for no more than the items before it, whatever else happens. */
  lemma {:induction false} ServedInTurn(w: World, events: seq<Event>, x: Item, p: nat)
    requires p < |w.s.queue| && w.s.queue[p] == x
    ensures var v := Run(w, events);
            var n := Takes(w, events);
            Count(v.gets, x) >= Count(w.gets, x) + (if n > p then 1 else 0)
            && (Count(v.gets, x) > Count(w.gets, x) || (n <= p && p - n < |v.s.queue| && v.s.queue[p - n] == x))
  {
    hide Step;
    if events != [] {
      var last := |events| - 1;
      ServedInTurn(w, events[..last], x, p);
      TurnStep(Run(w, events[..last]), events[last], x);
    }
  }

  lemma TurnStep(w: World, e: Event, x: Item)
    ensures var v := Step(w, e);
            && Count(v.gets, x) >= Count(w.gets, x)
            && if e.Take? && CanTake(w, e.worker)
               then v.s.queue == w.s.queue[1..] && (w.s.queue[0] == x ==> Count(v.gets, x) == Count(w.gets, x) + 1)
               else w.s.queue <= v.s.queue
  {
  }
}
