/** Whole runs of the work queue: safety in every reachable state, what a successful drain means,
    and a bound on the work any run can do. */
module WorkQueueRuns {
  import opened WorkQueueModel
  import opened WorkQueueSafety

  datatype Step =
    | DoEnqueue(kind: Kind, path: Path, data: Bytes, skipIfExists: bool, bestEffort: bool, expired: set<Path>)
    | DoPick(w: nat, due: set<nat>)
    | DoAct(w: nat, found: Exists, ok: bool, fault: bool, applied: bool)
    | DoRequeue(w: nat)
    | DoFinish(w: nat)
    | DoAbandon(w: nat)
    | DoRequeueFailed(prefix: Path, order: seq<Path>)
    | DoClearFailed(prefix: Path)

  function Initial(threads: nat, cloud: map<Path, Bytes>): (s: State)
    ensures Inv(s)
  {
    NobodyBusy(seq(threads, _ => Idle));
    State([], 0, map[], map[], map[], map[], 0, {}, map[], map[], seq(threads, _ => Idle), cloud)
  }

  lemma {:induction false} NobodyBusy(ws: seq<Worker>)
    requires forall i :: 0 <= i < |ws| ==> ws[i] == Idle
    ensures BusyCount(ws) == 0
  {
    if |ws| == 0 {
    } else {
      NobodyBusy(ws[..|ws| - 1]);
    }
  }

  ghost function Apply(s: State, step: Step, fingerprint: Bytes -> int): (t: State)
    requires Inv(s)
    ensures Inv(t)
  {
    StepKeeps(s, step, fingerprint);
    Next(s, step, fingerprint)
  }

  ghost function Next(s: State, step: Step, fingerprint: Bytes -> int): State
    requires Inv(s)
  {
    match step
    case DoEnqueue(kind, path, data, skip, bestEffort, expired) => Enqueue(s,
        NewItem(kind, path, data, skip, bestEffort), expired, fingerprint)
    case DoPick(w, due) => if w < |s.workers| then Pick(s, w, due) else s
    case DoAct(w, e, ok, fault, applied) => if w < |s.workers| then Act(s, w, e, ok, fault, applied) else s
    case DoRequeue(w) => if w < |s.workers| then Requeue(s, w) else s
    case DoFinish(w) => if w < |s.workers| then Finish(s, w, fingerprint) else s
    case DoAbandon(w) => if w < |s.workers| then Abandon(s, w) else s
    case DoRequeueFailed(prefix, order) => RequeueAll(s, prefix, order)
    case DoClearFailed(prefix) => ClearFailed(s, prefix)
  }

  lemma StepKeeps(s: State, step: Step, fingerprint: Bytes -> int)
    requires Inv(s)
    ensures Inv(Next(s, step, fingerprint))
  {
    hide Inv, Enqueue, Pick, Act, Requeue, Finish, Abandon, RequeueAll, ClearFailed;
    match step
    case DoEnqueue(kind, path, data, skip, bestEffort, expired) =>
      EnqueueKeeps(s, NewItem(kind, path, data, skip, bestEffort), expired, fingerprint);
    case DoPick(w, due) => if w < |s.workers| { PickKeeps(s, w, due); }
    case DoAct(w, e, ok, fault, applied) => if w < |s.workers| { ActKeeps(s, w, e, ok, fault, applied); }
    case DoRequeue(w) => if w < |s.workers| { RequeueKeeps(s, w); }
    case DoFinish(w) => if w < |s.workers| { FinishKeeps(s, w, fingerprint); }
    case DoAbandon(w) => if w < |s.workers| { AbandonKeeps(s, w); }
    case DoRequeueFailed(prefix, order) => RequeueAllKeeps(s, prefix, order);
    case DoClearFailed(prefix) => ClearFailedKeeps(s, prefix);
  }

  ghost function Run(threads: nat, cloud: map<Path, Bytes>, steps: seq<Step>, fingerprint: Bytes -> int): (s: State)
    ensures Inv(s)
  {
    if |steps| == 0 then Initial(threads, cloud)
    else Apply(Run(threads, cloud, steps[..|steps| - 1], fingerprint), steps[|steps| - 1], fingerprint)
  }

  // ---- safety in every reachable state ----

  ghost function SumOfCounts(m: map<Path, int>): int {
    if |m| == 0 then 0 else
      var p :| p in m;
      m[p] + SumOfCounts(m - {p})
  }

  lemma {:induction false} SumOfOnes(m: map<Path, int>)
    requires forall p :: p in m ==> m[p] == 1
    ensures SumOfCounts(m) == |m.Keys|
    decreases |m|
  {
    if |m| == 0 {
    } else {
      var p :| p in m && SumOfCounts(m) == m[p] + SumOfCounts(m - {p});
      SumOfOnes(m - {p});
      assert (m - {p}).Keys == m.Keys - {p};
    }
  }

  function HeldPaths(ws: seq<Worker>): set<Path> {
    if |ws| == 0 then {} else HeldPaths(ws[..|ws| - 1]) + if Busy(ws[|ws| - 1]) then {ws[|ws| - 1].item.path} else {}
  }

  lemma {:induction false} HeldPathsOne(ws: seq<Worker>, p: Path)
    ensures p in HeldPaths(ws) <==> Holds(ws, p)
  {
    if |ws| == 0 {
    } else {
      var k := |ws| - 1;
      HeldPathsOne(ws[..k], p);
      if Holds(ws, p) {
        var i :| 0 <= i < |ws| && Busy(ws[i]) && ws[i].item.path == p;
        assert i < k ==> Busy(ws[..k][i]);
      }
    }
  }

  lemma {:induction false} HeldPathsCount(ws: seq<Worker>)
    requires Exclusive(ws)
    ensures |HeldPaths(ws)| == BusyCount(ws)
  {
    if |ws| == 0 {
    } else {
      var k := |ws| - 1;
      HeldPathsCount(ws[..k]);
      if Busy(ws[k]) {
        HeldPathsOne(ws[..k], ws[k].item.path);
      }
    }
  }

  lemma WorkersAreSum(s: State)
    requires Inv(s)
    ensures s.activeWorkers == SumOfCounts(s.active)
  {
    forall p
      ensures p in s.active.Keys <==> p in HeldPaths(s.workers)
    {
      HeldPathsOne(s.workers, p);
    }
    assert s.active.Keys == HeldPaths(s.workers);
    HeldPathsCount(s.workers);
    SumOfOnes(s.active);
  }

  lemma CountsBounded(s: State, p: Path)
    requires Inv(s)
    ensures p in s.activeBestEffort ==> p in s.active && s.activeBestEffort[p] <= s.active[p]
    ensures p in s.activeDeletes ==> p in s.active && s.activeDeletes[p] <= s.active[p]
  {
    if p !in s.active {
      NotHeld(s, p);
    }
  }

  /** In every reachable state: each active path is held by exactly one worker, the best-effort and delete
      counts never exceed the path's count, the number of active workers is the sum of the path counts,
      and every index entry points at a live queued upload for its path. */
  lemma ReachableIsSafe(threads: nat, cloud: map<Path, Bytes>, steps: seq<Step>, fingerprint: Bytes -> int)
    ensures var s := Run(threads, cloud, steps, fingerprint);
            && IndexLive(s) && Exclusive(s.workers)
            && (forall p :: p in s.active <==> Holds(s.workers, p))
            && (forall p :: p in s.activeBestEffort ==> p in s.active && s.activeBestEffort[p] <= s.active[p])
            && (forall p :: p in s.activeDeletes ==> p in s.active && s.activeDeletes[p] <= s.active[p])
            && s.activeWorkers == SumOfCounts(s.active)
  {
    var s := Run(threads, cloud, steps, fingerprint);
    WorkersAreSum(s);
    forall p
      ensures p in s.activeBestEffort ==> p in s.active && s.activeBestEffort[p] <= s.active[p]
      ensures p in s.activeDeletes ==> p in s.active && s.activeDeletes[p] <= s.active[p]
    {
      CountsBounded(s, p);
    }
    hide Run, IndexLive, RecordsOk, DistinctIds, Exclusive, BusyCount, Holds;
  }

  // ---- what a drain waits for ----

  predicate QueuedFor(s: State, prefix: Path) {
    exists i :: 0 <= i < |s.queue| && !s.queue[i].item.bestEffort && Under(prefix, s.queue[i].item.path)
  }

  predicate HeldFor(s: State, prefix: Path) {
    exists i ::
      0 <= i < |s.workers| && Busy(s.workers[i]) && !s.workers[i].item.bestEffort
      && Under(prefix, s.workers[i].item.path)
  }

  /** The counters tell exactly whether an item that is not best-effort is queued or held under the prefix. */
  lemma PendingCommitIs(s: State, prefix: Path)
    requires Inv(s)
    ensures PendingCommit(s, prefix) <==> QueuedFor(s, prefix) || HeldFor(s, prefix)
  {
    hide IndexLive, RecordsOk, DistinctIds, BusyCount;
    if HeldFor(s, prefix) {
      var i :| 0 <= i < |s.workers| && Busy(s.workers[i]) && !s.workers[i].item.bestEffort
          && Under(prefix, s.workers[i].item.path);
      var p := s.workers[i].item.path;
      assert Holds(s.workers, p);
      assert !HoldsBestEffort(s.workers, p);
      assert s.active[p] == 1 && p !in s.activeBestEffort;
    }
    if p :| p in s.active && s.active[p] > 0 && Under(prefix, p) &&
            s.active[p] > (if p in s.activeBestEffort then s.activeBestEffort[p] else 0) {
      assert Holds(s.workers, p);
      var i :| 0 <= i < |s.workers| && Busy(s.workers[i]) && s.workers[i].item.path == p;
      assert s.workers[i].item.bestEffort ==> HoldsBestEffort(s.workers, p);
      assert HeldFor(s, prefix);
    }
  }

  /** What one failed path's round leaves alone. */
  lemma RequeueFailedOthers(s: State, prefix: Path, p: Path, q: Path)
    requires Inv(s) && p != q
    ensures var t := RequeueFailed(s, prefix, p);
            && (q in t.failed <==> q in s.failed) && (q in s.failed ==> t.failed[q] == s.failed[q])
            && t.active == s.active
  {
    hide Inv;
    if p in s.failed {
      FailedRecord(s, p);
    }
  }

  /** Whether a failure record outlives the requeueing of a drain. */
  predicate Stays(s: State, prefix: Path, p: Path) {
    p in s.failed
    && (!Under(prefix, p) || s.failed[p].bestEffort
        || (s.failed[p].drainRequeues < MAX_DRAIN_REQUEUES && p in s.active))
  }

  lemma RequeueFailedOne(s: State, prefix: Path, p: Path)
    requires Inv(s)
    ensures p in RequeueFailed(s, prefix, p).failed <==> Stays(s, prefix, p)
  {
    hide Inv;
    if p in s.failed {
      FailedRecord(s, p);
    }
  }

  /** After a drain has requeued failures, in whatever order: a record is left only for best-effort items, for
      other prefixes, and for paths a worker is busy with. */
  lemma {:induction false} AfterRequeue(s: State, prefix: Path, order: seq<Path>, p: Path)
    requires Inv(s) && forall i, j :: 0 <= i < j < |order| ==> order[i] != order[j]
    ensures var t := RequeueAll(s, prefix, order);
            && t.active == s.active
            && (p in order ==> (p in t.failed <==> Stays(s, prefix, p)))
            && (p !in order ==> (p in t.failed <==> p in s.failed) && (p in s.failed ==> t.failed[p] == s.failed[p]))
  {
    hide Inv, RequeueFailed;
    if |order| == 0 {
    } else {
      var k := |order| - 1;
      AfterRequeue(s, prefix, order[..k], p);
      RequeueAllKeeps(s, prefix, order[..k]);
      var m := RequeueAll(s, prefix, order[..k]);
      if p == order[k] {
        RequeueFailedOne(m, prefix, p);
      } else {
        RequeueFailedOthers(m, prefix, order[k], p);
      }
      RequeueFailedOthers(m, prefix, order[k], if order[k] == [] then ['.'] else []);
    }
  }

  // ---- how much work a run can do ----

  function Left(n: nat): nat {
    if n < MAX_RETRIES then MAX_RETRIES - n else 0
  }

  /** Picks an item can still have in this drain cycle, once it is with a worker. */
  function Retries(item: Item): nat {
    if item.kind == Upload then Left(item.existsRetries) + Left(item.transferRetries) else Left(item.transferRetries)
  }

  /** The most picks an item has in one drain cycle. */
  function PerCycle(item: Item): nat {
    if item.kind == Upload then 7 else 4
  }

  /** Picks an item can have in drain cycles still to come. */
  function Later(item: Item): nat {
    Left(item.drainRequeues) * PerCycle(item)
  }

  function QueueBudget(q: seq<Node>): nat {
    if |q| == 0 then 0 else QueueBudget(q[..|q| - 1]) + Later(q[|q| - 1].item) + Retries(q[|q| - 1].item) + 1
  }

  function WorkerBudget(w: Worker): nat {
    match w
    case Idle => 0
    case Picked(item) => Later(item) + Retries(item)
    case Acted(item, Retry) => Later(item) + Retries(item) + 1
    case Acted(item, Failed) => Later(item)
    case Acted(_, _) => 0
  }

  function WorkersBudget(ws: seq<Worker>): nat {
    if |ws| == 0 then 0 else WorkersBudget(ws[..|ws| - 1]) + WorkerBudget(ws[|ws| - 1])
  }

  ghost function FailedBudget(m: map<Path, Item>): nat {
    if |m| == 0 then 0 else
      var p :| p in m;
      Later(m[p]) + FailedBudget(m - {p})
  }

  /** An upper bound on the picks still possible without new work. */
  ghost function Budget(s: State): nat {
    QueueBudget(s.queue) + WorkersBudget(s.workers) + FailedBudget(s.failed)
  }

  lemma {:induction false} FailedBudgetOf(m: map<Path, Item>, p: Path)
    requires p in m
    ensures FailedBudget(m) == Later(m[p]) + FailedBudget(m - {p})
    decreases |m|
  {
    hide *;
    var q := CountedFirst(m);
    if q != p {
      Smaller(m, q);
      Smaller(m, p);
      FailedBudgetOf(m - {q}, p);
      FailedBudgetOf(m - {p}, q);
      assert m - {q} - {p} == m - {p} - {q};
    }
  }

  lemma CountedFirst(m: map<Path, Item>) returns (q: Path)
    requires m != map[]
    ensures q in m && FailedBudget(m) == Later(m[q]) + FailedBudget(m - {q})
  {
    hide Later;
    q :| q in m && FailedBudget(m) == Later(m[q]) + FailedBudget(m - {q});
  }

  lemma Smaller(m: map<Path, Item>, p: Path)
    requires p in m
    ensures |m - {p}| < |m|
  {
    assert (m - {p}).Keys == m.Keys - {p};
    assert |(m - {p}).Keys| < |m.Keys|;
  }

  lemma FailedBudgetDrop(m: map<Path, Item>, p: Path)
    ensures FailedBudget(m - {p}) + (if p in m then Later(m[p]) else 0) == FailedBudget(m)
  {
    if p in m {
      FailedBudgetOf(m, p);
    } else {
      assert m - {p} == m;
    }
  }

  lemma FailedBudgetSet(m: map<Path, Item>, p: Path, item: Item)
    ensures FailedBudget(m[p := item]) == FailedBudget(m - {p}) + Later(item)
  {
    FailedBudgetOf(m[p := item], p);
    assert m[p := item] - {p} == m - {p};
  }

  lemma {:induction false} WorkersBudgetSet(ws: seq<Worker>, w: nat, x: Worker)
    requires w < |ws|
    ensures WorkersBudget(ws[w := x]) + WorkerBudget(ws[w]) == WorkersBudget(ws) + WorkerBudget(x)
    decreases |ws|
  {
    var k := |ws| - 1;
    if w == k {
      assert ws[w := x][..k] == ws[..k];
    } else {
      WorkersBudgetSet(ws[..k], w, x);
      assert ws[w := x][..k] == ws[..k][w := x];
    }
  }

  lemma {:induction false} QueueBudgetCut(q: seq<Node>, i: nat)
    requires i < |q|
    ensures QueueBudget(q[..i] + q[i + 1..]) + Later(q[i].item) + Retries(q[i].item) + 1 == QueueBudget(q)
    decreases |q|
  {
    var k := |q| - 1;
    if i == k {
      assert q[..i] + q[i + 1..] == q[..k];
    } else {
      QueueBudgetCut(q[..k], i);
      assert (q[..i] + q[i + 1..])[..k - 1] == q[..k][..i] + q[..k][i + 1..];
    }
  }

  lemma PushBudget(s: State, item: Item)
    ensures Budget(Push(s, item)) == Budget(s) + Later(item) + Retries(item) + 1
  {
    assert (s.queue + [Node(s.nextId, item)])[..|s.queue|] == s.queue;
  }

  lemma ForgetBudget(s: State, p: Path)
    ensures Budget(Forget(s, p)) + (if p in s.failed then Later(s.failed[p]) else 0) == Budget(s)
  {
    FailedBudgetDrop(s.failed, p);
  }

  /** What a new item may cost: 28 picks for an upload, 16 for a delete. */
  function Allotment(kind: Kind): nat {
    if kind == Upload then 28 else 16
  }

  lemma EnqueueBudget(s: State, item: Item, expired: set<Path>, fingerprint: Bytes -> int)
    requires Inv(s) && item == NewItem(item.kind, item.path, item.data, item.skipIfExists, item.bestEffort)
    ensures Budget(Enqueue(s, item, expired, fingerprint)) <= Budget(s) + Allotment(item.kind)
  {
    hide Inv, Push, Forget, Budget, DeleteBarrier;
    ForgetBudget(s, item.path);
    var s0 := Forget(s, item.path);
    ForgetInv(s, item.path);
    var sd, su := s0.(recent := s0.recent - {item.path}), s0.(recent := s0.recent - expired);
    RecentBudget(s0, sd.recent);
    RecentBudget(s0, su.recent);
    RecentInv(s0, su.recent);
    NewItemBudget(item);
    PushBudget(sd, item);
    PushBudget(su, item);
    if item.kind == Upload && item.path in su.index {
      ReplaceBudget(su, item);
    }
  }

  lemma NewItemBudget(item: Item)
    requires item.existsRetries == item.transferRetries == item.drainRequeues == 0
    ensures Later(item) + Retries(item) + 1 == Allotment(item.kind)
  {
  }

  lemma RecentBudget(s: State, recent: map<Path, int>)
    ensures Budget(s.(recent := recent)) == Budget(s)
  {
  }

  lemma ReplaceBudget(s: State, item: Item)
    requires Inv(s) && item.path in s.index
    ensures Budget(Replace(s, item)) <= Budget(s) + Later(item) + Retries(item) + 1
  {
    var i := Lookup(s.queue, s.index[item.path]);
    var t := s.(queue := Without(s.queue, s.index[item.path]), index := s.index - {item.path});
    assert DistinctIds(s.queue, s.nextId);
    WithoutIs(s.queue, i);
    QueueBudgetCut(s.queue, i);
    PushBudget(t, item);
    PushBudget(t, s.queue[i].item);
    hide Inv, Lookup, Without, Push, QueueBudget;
  }

  /** Taking an item uses up one pick. */
  lemma PickBudget(s: State, w: nat, due: set<nat>)
    requires w < |s.workers|
    ensures Budget(Pick(s, w, due)) + (if Pick(s, w, due) != s then 1 else 0) <= Budget(s)
  {
    var i := FirstEligible(s.queue, s.active, due);
    if s.workers[w] == Idle && i < |s.queue| {
      QueueBudgetCut(s.queue, i);
      WorkersBudgetSet(s.workers, w, Picked(s.queue[i].item));
      hide FirstEligible, QueueBudget, WorkersBudget, Bump;
    }
  }

  lemma ProcessBudget(item: Item, found: Exists, ok: bool, fault: bool)
    requires Queueable(item)
    ensures var (after, outcome) := Process(item, found, ok, fault);
            WorkerBudget(Acted(after, outcome)) <= Later(item) + Retries(item)
  {
  }

  lemma ActBudget(s: State, w: nat, found: Exists, ok: bool, fault: bool, applied: bool)
    requires Inv(s) && w < |s.workers|
    ensures Budget(Act(s, w, found, ok, fault, applied)) <= Budget(s)
  {
    if s.workers[w].Picked? {
      var item := s.workers[w].item;
      assert WorkerOk(s.workers[w]);
      ProcessBudget(item, found, ok, fault);
      var (after, outcome) := Process(item, found, ok, fault);
      WorkersBudgetSet(s.workers, w, Acted(after, outcome));
      hide Inv, QueueBudget, WorkersBudget, Process, Later, Retries;
    }
  }

  lemma ClearForRetryBudget(s: State, item: Item)
    ensures Budget(ClearForRetry(s, item)) <= Budget(s)
  {
    var r := if item.kind == Delete then s.(recent := s.recent - {item.path}) else s;
    RecentBudget(s, r.recent);
    ForgetBudget(r, item.path);
    hide Budget, Forget;
  }

  lemma WorkerChangeBudget(s: State, w: nat, x: Worker)
    requires w < |s.workers|
    ensures Budget(s.(workers := s.workers[w := x])) + WorkerBudget(s.workers[w]) == Budget(s) + WorkerBudget(x)
  {
    WorkersBudgetSet(s.workers, w, x);
  }

  lemma RequeueBudget(s: State, w: nat)
    requires w < |s.workers|
    ensures Budget(Requeue(s, w)) <= Budget(s)
  {
    hide Budget, ClearForRetry, Push, Later, Retries;
    if s.workers[w].Acted? && s.workers[w].outcome == Retry {
      var item := s.workers[w].item;
      ClearForRetryBudget(s, item);
      var s0 := ClearForRetry(s, item);
      WorkerChangeBudget(s0, w, Acted(item, Stale));
      WorkerChangeBudget(s0, w, Acted(item, Requeued));
      PushBudget(s0.(workers := s0.workers[w := Acted(item, Requeued)]), item);
    }
  }

  lemma ReleaseBudget(s: State, w: nat, item: Item)
    requires w < |s.workers|
    ensures Budget(Release(s, w, item)) + WorkerBudget(s.workers[w]) == Budget(s)
  {
    WorkersBudgetSet(s.workers, w, Idle);
  }

  lemma FailBudget(s: State, paths: set<Path>, p: Path, item: Item)
    ensures Budget(s.(failedPaths := paths, failed := s.failed[p := item])) <= Budget(s) + Later(item)
    ensures p in s.failed && Later(s.failed[p]) == Later(item) ==>
              Budget(s.(failedPaths := paths, failed := s.failed[p := item])) <= Budget(s)
  {
    FailedBudgetSet(s.failed, p, item);
    FailedBudgetDrop(s.failed, p);
  }

  lemma FinishBudget(s: State, w: nat, fingerprint: Bytes -> int)
    requires w < |s.workers|
    ensures Budget(Finish(s, w, fingerprint)) <= Budget(s)
  {
    if s.workers[w].Acted? && s.workers[w].outcome != Retry {
      hide Budget, Release, Forget;
      var item := s.workers[w].item;
      ReleaseBudget(s, w, item);
      var s0 := Release(s, w, item);
      match s.workers[w].outcome
      case Success(uploaded) =>
        ForgetBudget(s0, item.path);
        RecentBudget(Forget(s0, item.path), Finish(s, w, fingerprint).recent);
      case Failed => FailBudget(s0, s0.failedPaths + {item.path}, item.path, item);
      case _ =>
    }
  }

  /** A drain turns what is left of a failed item into its next cycle. */
  lemma RequeueFailedBudget(s: State, prefix: Path, p: Path)
    requires Inv(s)
    ensures Budget(RequeueFailed(s, prefix, p)) <= Budget(s)
  {
    hide Inv, Budget, Forget, Push, Later, Retries;
    if p in s.failed && Under(prefix, p) && !s.failed[p].bestEffort {
      var item := s.failed[p].(existsRetries := 0, transferRetries := 0);
      SameLater(s.failed[p]);
      ForgetBudget(s, p);
      FailBudget(s, s.failedPaths + {p}, p, item);
      var next := item.(drainRequeues := item.drainRequeues + 1);
      PushBudget(Forget(s, p), next);
      NextCycle(item);
    }
  }

  lemma SameLater(item: Item)
    ensures Later(item.(existsRetries := 0, transferRetries := 0)) == Later(item)
  {
  }

  lemma NextCycle(item: Item)
    requires item.existsRetries == item.transferRetries == 0
    ensures var next := item.(drainRequeues := item.drainRequeues + 1);
            item.drainRequeues < MAX_DRAIN_REQUEUES ==> Later(next) + Retries(next) + 1 == Later(item)
  {
  }

  lemma {:induction false} RequeueAllBudget(s: State, prefix: Path, order: seq<Path>)
    requires Inv(s)
    ensures Budget(RequeueAll(s, prefix, order)) <= Budget(s)
  {
    if |order| == 0 {
    } else {
      RequeueAllBudget(s, prefix, order[..|order| - 1]);
      RequeueAllKeeps(s, prefix, order[..|order| - 1]);
      RequeueFailedBudget(RequeueAll(s, prefix, order[..|order| - 1]), prefix, order[|order| - 1]);
    }
  }

  /** The work a step adds, and whether it takes an item. */
  function Added(step: Step): nat {
    if step.DoEnqueue? then Allotment(step.kind) else 0
  }

  ghost function Taking(s: State, step: Step, fingerprint: Bytes -> int): nat
    requires Inv(s)
  {
    if step.DoPick? && Apply(s, step, fingerprint) != s then 1 else 0
  }

  lemma StepBudget(s: State, step: Step, fingerprint: Bytes -> int)
    requires Inv(s)
    ensures Budget(Apply(s, step, fingerprint)) + Taking(s, step, fingerprint) <= Budget(s) + Added(step)
  {
    hide Inv, Budget, Enqueue, Pick, Act, Requeue, Finish, Abandon, RequeueAll, ClearFailed, Allotment;
    match step
    case DoEnqueue(kind, path, data, skip, bestEffort, expired) =>
      EnqueueBudget(s, NewItem(kind, path, data, skip, bestEffort), expired, fingerprint);
    case DoPick(w, due) => if w < |s.workers| { PickBudget(s, w, due); }
    case DoAct(w, e, ok, fault, applied) => if w < |s.workers| { ActBudget(s, w, e, ok, fault, applied); }
    case DoRequeue(w) => if w < |s.workers| { RequeueBudget(s, w); }
    case DoFinish(w) => if w < |s.workers| { FinishBudget(s, w, fingerprint); }
    case DoAbandon(w) => if w < |s.workers| { AbandonBudget(s, w); }
    case DoRequeueFailed(prefix, order) => RequeueAllBudget(s, prefix, order);
    case DoClearFailed(prefix) => ClearFailedBudget(s, prefix);
  }

  lemma AbandonBudget(s: State, w: nat)
    requires w < |s.workers|
    ensures Budget(Abandon(s, w)) <= Budget(s)
  {
    if s.workers[w].Picked? {
      hide Budget, Release;
      ReleaseBudget(s, w, s.workers[w].item);
    }
  }

  lemma ClearFailedBudget(s: State, prefix: Path)
    ensures Budget(ClearFailed(s, prefix)) == Budget(s)
  {
  }

  /** How many items the workers take in a run, and how many picks its enqueues allow. */
  ghost function Picks(threads: nat, cloud: map<Path, Bytes>, steps: seq<Step>, fingerprint: Bytes -> int): nat {
    if |steps| == 0 then 0
    else
      var before := steps[..|steps| - 1];
      Picks(threads, cloud, before, fingerprint) +
        Taking(Run(threads, cloud, before, fingerprint), steps[|steps| - 1], fingerprint)
  }

  function Allowed(steps: seq<Step>): nat {
    if |steps| == 0 then 0 else Allowed(steps[..|steps| - 1]) + Added(steps[|steps| - 1])
  }

  /** No run takes more than 28 picks for each upload and 16 for each delete enqueued, however the provider
      answers and however often it is drained; what is left of that allowance bounds the picks to come. */
  lemma {:induction false} PicksBounded(threads: nat, cloud: map<Path, Bytes>, steps: seq<Step>,
                                        fingerprint: Bytes -> int)
    ensures Picks(threads, cloud, steps, fingerprint) +
              Budget(Run(threads, cloud, steps, fingerprint)) <= Allowed(steps)
  {
    if |steps| == 0 {
      NoWork(Initial(threads, cloud).workers);
    } else {
      var before := steps[..|steps| - 1];
      PicksBounded(threads, cloud, before, fingerprint);
      hide Budget, Inv;
      StepBudget(Run(threads, cloud, before, fingerprint), steps[|steps| - 1], fingerprint);
    }
  }

  lemma {:induction false} NoWork(ws: seq<Worker>)
    requires forall i :: 0 <= i < |ws| ==> ws[i] == Idle
    ensures WorkersBudget(ws) == 0
  {
    if |ws| == 0 {
    } else {
      NoWork(ws[..|ws| - 1]);
    }
  }
}
