/** cloud_work_queue.cpp: the queue's shared state and its critical sections, each proved to be a step of
    the state machine. Worker threads are slots; what a slot holds is the thread's local item. */
module WorkQueue {
  import opened WorkQueueModel
  import opened WorkQueueSafety
  import opened WorkQueueRuns

  class Queue {
    const fingerprint: Bytes -> int
    var queue: seq<Node>
    var nextId: nat
    var index: map<Path, nat>
    var active: map<Path, int>
    var activeBestEffort: map<Path, int>
    var activeDeletes: map<Path, int>
    var activeWorkers: int
    var failedPaths: set<Path>
    var failed: map<Path, Item>
    var recent: map<Path, int>
    var workers: seq<Worker>
    var cloud: map<Path, Bytes>

    ghost function Abs(): State
      reads this
    {
      State(queue, nextId, index, active, activeBestEffort, activeDeletes, activeWorkers, failedPaths, failed, recent,
            workers, cloud)
    }

    ghost predicate Valid()
      reads this
    {
      Inv(Abs())
    }

    constructor (threads: nat, cloud: map<Path, Bytes>, fingerprint: Bytes -> int)
      ensures Valid() && Abs() == Initial(threads, cloud) && this.fingerprint == fingerprint
    {
      queue, nextId, index, active, activeBestEffort, activeDeletes := [], 0, map[], map[], map[], map[];
      activeWorkers, failedPaths, failed, recent := 0, {}, map[], map[];
      workers, this.cloud, this.fingerprint := seq(threads, _ => Idle), cloud, fingerprint;
      new;
      assert Abs() == Initial(threads, cloud);
    }

    method PushBack(item: Item)
      modifies this`queue, this`nextId, this`index
      ensures Abs() == Push(old(Abs()), item)
    {
      queue := queue + [Node(nextId, item)];
      if item.kind == Upload {
        index := index[item.path := nextId];
      }
      nextId := nextId + 1;
    }

    method HasQueuedDelete(p: Path) returns (queued: bool)
      ensures queued == QueuedDelete(queue, p)
    {
      var i := 0;
      while i < |queue|
        invariant 0 <= i <= |queue| && forall k :: 0 <= k < i ==>
                    !(queue[k].item.kind == Delete && queue[k].item.path == p)
      {
        if queue[i].item.kind == Delete && queue[i].item.path == p {
          return true;
        }
        i := i + 1;
      }
      queued := false;
    }

    /** EnqueueWork */
    method EnqueueWork(item: Item, expired: set<Path>)
      requires Valid() && Queueable(item)
      modifies this
      ensures Valid() && Abs() == Enqueue(old(Abs()), item, expired, fingerprint)
    {
      EnqueueKeeps(Abs(), item, expired, fingerprint);
      hide Inv, Queueable, Enqueue;
      AddWork(item, expired);
    }

    /** An identical recent upload, with no delete queued or running for the path. */
    method IsDuplicate(item: Item) returns (duplicate: bool)
      requires item.kind == Upload
      ensures duplicate == Duplicate(Abs(), item, fingerprint)
    {
      var queuedDelete := HasQueuedDelete(item.path);
      duplicate :=
        !(queuedDelete || item.path in activeDeletes) && item.path in recent
        && recent[item.path] == fingerprint(item.data);
    }

    method AddWork(item: Item, expired: set<Path>)
      requires IndexLive(Abs())
      modifies this
      ensures Abs() == Enqueue(old(Abs()), item, expired, fingerprint)
    {
      hide Replace, Push, Duplicate, WorkersSame;
      failedPaths, failed := failedPaths - {item.path}, failed - {item.path};
      if item.kind == Delete {
        recent := recent - {item.path};
        PushBack(item);
      } else {
        recent := recent - expired;
        var duplicate := IsDuplicate(item);
        if duplicate {
          return;
        }
        if item.path in index {
          ReplaceQueued(item);
        } else {
          PushBack(item);
        }
      }
    }

    method ReplaceQueued(item: Item)
      requires IndexLive(Abs()) && item.path in index
      modifies this`queue, this`nextId, this`index
      ensures Abs() == Replace(old(Abs()), item)
    {
      var existing := queue[Lookup(queue, index[item.path])].item;
      queue := Without(queue, index[item.path]);
      index := index - {item.path};
      if item.skipIfExists && !existing.skipIfExists {
        PushBack(existing);
      } else {
        PushBack(item);
      }
    }

    /** The picking critical section of the worker loop: the first item whose path is free and whose time has come. */
    method PickWork(w: nat, due: set<nat>) returns (picked: bool)
      requires Valid() && w < |workers| && workers[w] == Idle
      modifies this
      ensures Valid() && Abs() == Pick(old(Abs()), w, due)
              && (picked <==> old(FirstEligible(queue, active, due)) < |old(queue)|)
    {
      PickKeeps(Abs(), w, due);
      hide Inv, Pick;
      var i := FindEligible(due);
      picked := i < |queue|;
      if picked {
        TakeNode(w, i, due);
      } else {
        NonePicked(Abs(), w, due);
      }
    }

    method FindEligible(due: set<nat>) returns (i: nat)
      ensures i == FirstEligible(queue, active, due)
    {
      i := 0;
      while i < |queue| && !(queue[i].item.path !in active && queue[i].id in due)
        invariant 0 <= i <= |queue| && forall k :: 0 <= k < i ==> queue[k].item.path in active || queue[k].id !in due
      {
        i := i + 1;
      }
    }

    method TakeNode(w: nat, i: nat, ghost due: set<nat>)
      requires w < |workers| && workers[w] == Idle && i < |queue| && i == FirstEligible(queue, active, due)
      modifies this
      ensures Abs() == Pick(old(Abs()), w, due)
    {
      hide FirstEligible, Bump;
      var item := queue[i].item;
      if item.kind == Upload {
        index := index - {item.path};
      }
      queue := queue[..i] + queue[i + 1..];
      CountIn(item);
      workers := workers[w := Picked(item)];
    }

    method CountIn(item: Item)
      modifies this`activeWorkers, this`active, this`activeBestEffort, this`activeDeletes
      ensures activeWorkers == old(activeWorkers) + 1 && active == Bump(old(active), item.path)
      ensures activeBestEffort == if item.bestEffort then Bump(old(activeBestEffort), item.path)
              else old(activeBestEffort)
      ensures activeDeletes == if item.kind == Delete then Bump(old(activeDeletes), item.path) else old(activeDeletes)
    {
      hide Bump;
      activeWorkers := activeWorkers + 1;
      active := Bump(active, item.path);
      if item.bestEffort {
        activeBestEffort := Bump(activeBestEffort, item.path);
      }
      if item.kind == Delete {
        activeDeletes := Bump(activeDeletes, item.path);
      }
    }

    /** What the answers make of the item, and whether the provider changed. */
    method Answer(given: Item, found: Exists, ok: bool, fault: bool, applied: bool)
      returns (item: Item, outcome: Outcome, touched: bool)
      ensures (item, outcome) == Process(given, found, ok, fault)
      ensures touched == Touches(given, found, ok, fault, applied)
    {
      item, outcome, touched := given, Failed, false;
      if fault {
        outcome, touched := Faulted, applied;
      } else if item.kind == Upload && item.skipIfExists && found == Present {
        outcome := Success(false);
      } else if item.kind == Upload && item.skipIfExists && found == ExistsError {
        if item.existsRetries < MAX_RETRIES {
          outcome := Retry;
        }
        item := item.(existsRetries := item.existsRetries + 1);
      } else if ok {
        outcome, touched := Success(item.kind == Upload), true;
      } else {
        touched := applied;
        if item.transferRetries < MAX_RETRIES {
          outcome := Retry;
        }
        item := item.(transferRetries := item.transferRetries + 1);
      }
    }

    /** The provider calls between the critical sections. */
    method CallProvider(w: nat, found: Exists, ok: bool, fault: bool, applied: bool)
      requires Valid() && w < |workers| && workers[w].Picked?
      modifies this`workers, this`cloud
      ensures Valid() && Abs() == Act(old(Abs()), w, found, ok, fault, applied)
    {
      ActKeeps(Abs(), w, found, ok, fault, applied);
      hide Inv, Act;
      Transfer(w, found, ok, fault, applied);
    }

    method Transfer(w: nat, found: Exists, ok: bool, fault: bool, applied: bool)
      requires w < |workers| && workers[w].Picked?
      modifies this`workers, this`cloud
      ensures Abs() == Act(old(Abs()), w, found, ok, fault, applied)
    {
      hide Process, Touches;
      var given := workers[w].item;
      var item, outcome, touched := Answer(given, found, ok, fault, applied);
      if touched {
        cloud := if given.kind == Upload then cloud[given.path := given.data] else cloud - {given.path};
      }
      workers := workers[w := Acted(item, outcome)];
    }

    /** RequeueFromWorker */
    method RequeueFromWorker(w: nat) returns (requeued: bool)
      requires Valid() && w < |workers| && workers[w].Acted? && workers[w].outcome == Retry
      modifies this
      ensures Valid() && Abs() == Requeue(old(Abs()), w) && requeued == (old(workers[w].item.path) !in old(index))
    {
      RequeueKeeps(Abs(), w);
      hide Inv, Requeue;
      requeued := PutBack(w);
    }

    method PutBack(w: nat) returns (requeued: bool)
      requires w < |workers| && workers[w].Acted? && workers[w].outcome == Retry
      modifies this
      ensures Abs() == Requeue(old(Abs()), w) && requeued == (old(workers[w].item.path) !in old(index))
    {
      hide Push, WorkersSame;
      var item := workers[w].item;
      if item.kind == Delete {
        recent := recent - {item.path};
      }
      failedPaths, failed := failedPaths - {item.path}, failed - {item.path};
      requeued := item.path !in index;
      workers := workers[w := Acted(item, if requeued then Requeued else Stale)];
      if requeued {
        PushBack(item);
      }
    }

    method LetGo(w: nat, item: Item)
      requires w < |workers|
      modifies this
      ensures Abs() == Release(old(Abs()), w, item)
    {
      active := Drop(active, item.path);
      if item.bestEffort {
        activeBestEffort := Drop(activeBestEffort, item.path);
      }
      if item.kind == Delete {
        activeDeletes := Drop(activeDeletes, item.path);
      }
      activeWorkers := activeWorkers - 1;
      workers := workers[w := Idle];
    }

    /** The closing critical section of the worker loop. */
    method FinishWork(w: nat)
      requires Valid() && w < |workers| && workers[w].Acted? && workers[w].outcome != Retry
      modifies this
      ensures Valid() && Abs() == Finish(old(Abs()), w, fingerprint)
    {
      hide Inv, Release, FirstEligible, Push;
      FinishKeeps(Abs(), w, fingerprint);
      var item, outcome := workers[w].item, workers[w].outcome;
      LetGo(w, item);
      if outcome.Success? {
        failedPaths, failed := failedPaths - {item.path}, failed - {item.path};
        if outcome.uploaded {
          recent := recent[item.path := fingerprint(item.data)];
        } else if item.kind == Delete {
          recent := recent - {item.path};
        }
      } else if outcome == Failed {
        failedPaths, failed := failedPaths + {item.path}, failed[item.path := item];
      }
    }

    /** No provider, or shutting down: the item is dropped. */
    method AbandonWork(w: nat)
      requires Valid() && w < |workers| && workers[w].Picked?
      modifies this
      ensures Valid() && Abs() == Abandon(old(Abs()), w)
    {
      AbandonKeeps(Abs(), w);
      hide Inv, Release;
      LetGo(w, workers[w].item);
    }

    method ClearFailedWorkForPrefix(prefix: Path)
      requires Valid()
      modifies this`failedPaths
      ensures Valid() && Abs() == ClearFailed(old(Abs()), prefix)
    {
      ClearFailedKeeps(Abs(), prefix);
      failedPaths := set p | p in failedPaths && !Under(prefix, p);
    }

    // ---- draining ----

    /** One failed item, in the drain's round over the failure map. */
    method RequeueOne(prefix: Path, p: Path)
      requires p in failed
      modifies this
      ensures Abs() == RequeueFailed(old(Abs()), prefix, p)
    {
      hide Push, WorkersSame;
      if !Under(prefix, p) || failed[p].bestEffort {
        return;
      }
      var item := failed[p];
      failed := failed - {p};
      failedPaths := failedPaths - {p};
      if item.drainRequeues >= MAX_DRAIN_REQUEUES {
        return;
      }
      item := item.(existsRetries := 0, transferRetries := 0);
      if item.path !in active {
        PushBack(item.(drainRequeues := item.drainRequeues + 1));
      } else {
        failed := failed[p := item];
        failedPaths := failedPaths + {p};
      }
    }

    /** RequeueFailedWorkForPrefixLocked: every failure record is visited once, in no particular order. */
    method RequeueFailedWorkForPrefix(prefix: Path) returns (ghost order: seq<Path>)
      requires Valid()
      modifies this
      ensures Valid() && Abs() == RequeueAll(old(Abs()), prefix, order)
      ensures (forall p :: p in order <==> p in old(failed)) && forall i, j :: 0 <= i < j < |order| ==>
                order[i] != order[j]
    {
      hide Inv, RequeueFailed;
      ghost var s := Abs();
      var todo := failed.Keys;
      order := [];
      while todo != {}
        invariant todo <= s.failed.Keys && Abs() == RequeueAll(s, prefix, order)
        invariant (forall p :: p in order <==> p in s.failed && p !in todo) && forall i, j :: 0 <= i < j < |order| ==>
                    order[i] != order[j]
        decreases |todo|
      {
        var p :| p in todo;
        AfterRequeue(s, prefix, order, p);
        RequeueOne(prefix, p);
        assert (order + [p])[..|order|] == order;
        order := order + [p];
        todo := todo - {p};
      }
      RequeueAllKeeps(s, prefix, order);
    }

    /** HasPendingCommitWorkForPrefixLocked */
    method HasPendingCommitWork(prefix: Path) returns (pending: bool)
      ensures pending == PendingCommit(Abs(), prefix)
    {
      var i := 0;
      while i < |queue|
        invariant 0 <= i <= |queue| && forall k :: 0 <= k < i ==>
                    queue[k].item.bestEffort || !Under(prefix, queue[k].item.path)
      {
        if !queue[i].item.bestEffort && Under(prefix, queue[i].item.path) {
          return true;
        }
        i := i + 1;
      }
      var todo := active.Keys;
      while todo != {}
        invariant todo <= active.Keys
        invariant forall p :: p in active && p !in todo ==> !(active[p] > 0 && Under(prefix, p) &&
                                                              active[p] > (if p in activeBestEffort
                                                                           then activeBestEffort[p] else 0))
        decreases |todo|
      {
        var p :| p in todo;
        if active[p] > 0 && Under(prefix, p) {
          var bestEffort := if p in activeBestEffort then activeBestEffort[p] else 0;
          if active[p] > bestEffort {
            return true;
          }
        }
        todo := todo - {p};
      }
      pending := false;
    }

    /** HasFailedCommitWorkForPrefix */
    method HasFailedCommitWork(prefix: Path) returns (found: bool)
      ensures found == FailedCommit(Abs(), prefix)
    {
      var todo := failed.Keys;
      while todo != {}
        invariant todo <= failed.Keys && forall p :: p in failed && p !in todo ==>
                    failed[p].bestEffort || !Under(prefix, p)
        decreases |todo|
      {
        var p :| p in todo;
        if !failed[p].bestEffort && Under(prefix, p) {
          return true;
        }
        todo := todo - {p};
      }
      found := false;
    }

    /** One step of some other thread: an enqueue, a worker's next step, a drain's requeueing, or clearing failures. */
    method OneStep()
      requires Valid()
      modifies this
      ensures Valid()
    {
      hide Inv, Enqueue, Pick, Act, Requeue, Finish, RequeueAll, ClearFailed;
      var choice: int, w: nat := *, *;
      if choice == 2 {
        var prefix: Path := *;
        var order := RequeueFailedWorkForPrefix(prefix);
      } else if choice == 3 {
        var prefix: Path := *;
        ClearFailedWorkForPrefix(prefix);
      } else if choice == 0 {
        var kind: Kind, path: Path, data: Bytes, skip: bool, bestEffort: bool, expired: set<Path> := *, *, *, *, *, *;
        EnqueueWork(NewItem(kind, path, data, skip, bestEffort), expired);
      } else if w < |workers| && workers[w] == Idle {
        var due: set<nat> := *;
        var picked := PickWork(w, due);
      } else if w < |workers| && workers[w].Picked? {
        var found: Exists, ok: bool, fault: bool, applied: bool := *, *, *, *;
        if choice == 1 {
          AbandonWork(w);
        } else {
          CallProvider(w, found, ok, fault, applied);
        }
      } else if w < |workers| && workers[w].Acted? {
        if workers[w].outcome == Retry {
          var requeued := RequeueFromWorker(w);
        } else {
          FinishWork(w);
        }
      }
    }

    /** What other threads may do while the lock is not held. */
    method Interfere()
      requires Valid()
      modifies this
      ensures Valid()
    {
      var n: nat := *;
      while n > 0
        invariant Valid()
      {
        OneStep();
        n := n - 1;
      }
    }

    /** DrainQueueForApp; polls is how often it looks before its deadline. True means that at that moment nothing
        the commit has to wait for is queued, being worked on, or recorded as failed. */
    method DrainQueueForApp(prefix: Path, hasProvider: bool, polls: nat) returns (drained: bool)
      requires Valid()
      modifies this
      ensures Valid()
      ensures drained && hasProvider ==>
                !QueuedFor(Abs(), prefix) && !HeldFor(Abs(), prefix) && !FailedCommit(Abs(), prefix)
    {
      hide Inv, PendingCommit, QueuedFor, HeldFor, FailedCommit, RequeueAll;
      if !hasProvider {
        return true;
      }
      ghost var order := RequeueFailedWorkForPrefix(prefix);
      var pending := HasPendingCommitWork(prefix);
      var failedNow := HasFailedCommitWork(prefix);
      PendingCommitIs(Abs(), prefix);
      var i := 0;
      while (pending || failedNow) && i < polls
        invariant Valid()
        invariant !pending && !failedNow ==>
                    !QueuedFor(Abs(), prefix) && !HeldFor(Abs(), prefix) && !FailedCommit(Abs(), prefix)
        decreases polls - i
      {
        pending := HasPendingCommitWork(prefix);
        failedNow := HasFailedCommitWork(prefix);
        PendingCommitIs(Abs(), prefix);
        var shuttingDown: bool := *;
        if !pending || failedNow || shuttingDown {
          break;
        }
        Interfere();
        i := i + 1;
      }
      drained := !pending && !failedNow;
    }
  }

  lemma NonePicked(s: State, w: nat, due: set<nat>)
    requires w < |s.workers| && FirstEligible(s.queue, s.active, due) == |s.queue|
    ensures Pick(s, w, due) == s
  {
  }
}
