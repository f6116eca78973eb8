/** The background work queue as a state machine. One step is one critical section, or one provider
    call made by a worker between two of them. */
module WorkQueueModel {
  type Path = string
  type Bytes = seq<int>

  const MAX_RETRIES: nat := 3
  const MAX_DRAIN_REQUEUES: nat := 3

  datatype Kind = Upload | Delete

  datatype Item = Item(kind: Kind, path: Path, data: Bytes, skipIfExists: bool, bestEffort: bool,
                       existsRetries: nat, transferRetries: nat, drainRequeues: nat)

  /** A list node; its id is what an iterator to it denotes. */
  datatype Node = Node(id: nat, item: Item)

  datatype Outcome = Success(uploaded: bool) | Retry | Failed | Faulted | Requeued | Stale

  /** What a worker thread holds between critical sections. */
  datatype Worker = Idle | Picked(item: Item) | Acted(item: Item, outcome: Outcome)

  datatype State = State(queue: seq<Node>, nextId: nat, index: map<Path, nat>,
                         active: map<Path, int>, activeBestEffort: map<Path, int>, activeDeletes: map<Path, int>,
                         activeWorkers: int, failedPaths: set<Path>, failed: map<Path, Item>,
                         recent: map<Path, int>, workers: seq<Worker>, cloud: map<Path, Bytes>)

  datatype Exists = Present | Missing | ExistsError

  // ---- small operations on the maps ----

  function Bump(m: map<Path, int>, p: Path): map<Path, int> {
    m[p := (if p in m then m[p] else 0) + 1]
  }

  function Drop(m: map<Path, int>, p: Path): map<Path, int> {
    if p !in m then m else if m[p] - 1 <= 0 then m - {p} else m[p := m[p] - 1]
  }

  function Under(prefix: Path, p: Path): bool {
    prefix <= p
  }

  /** The queue without the node with this id. */
  function Without(q: seq<Node>, id: nat): (r: seq<Node>)
    ensures |r| <= |q|
  {
    if |q| == 0 then [] else if q[0].id == id then q[1..] else [q[0]] + Without(q[1..], id)
  }

  /** Nothing about the workers and their counts has changed. */
  predicate WorkersSame(s: State, t: State) {
    && t.workers == s.workers && t.active == s.active && t.activeBestEffort == s.activeBestEffort
    && t.activeDeletes == s.activeDeletes && t.activeWorkers == s.activeWorkers
  }

  function Push(s: State, item: Item): (t: State)
    ensures WorkersSame(s, t)
  {
    s.(queue := s.queue + [Node(s.nextId, item)], nextId := s.nextId + 1,
       index := if item.kind == Upload then s.index[item.path := s.nextId] else s.index)
  }

  predicate QueuedDelete(q: seq<Node>, p: Path) {
    exists i :: 0 <= i < |q| && q[i].item.kind == Delete && q[i].item.path == p
  }

  predicate DeleteBarrier(s: State, p: Path) {
    QueuedDelete(s.queue, p) || p in s.activeDeletes
  }

  function Forget(s: State, p: Path): (t: State)
    ensures WorkersSame(s, t)
  {
    s.(failedPaths := s.failedPaths - {p}, failed := s.failed - {p})
  }

  lemma InTail(q: seq<Node>, id: nat)
    requires (exists k :: 0 <= k < |q| && q[k].id == id) && q[0].id != id
    ensures exists k :: 0 <= k < |q[1..]| && q[1..][k].id == id
  {
    var k :| 0 <= k < |q| && q[k].id == id;
    assert q[1..][k - 1].id == id;
  }

  /** The node an index entry points at. */
  function Lookup(q: seq<Node>, id: nat): (i: nat)
    requires exists k :: 0 <= k < |q| && q[k].id == id
    ensures i < |q| && q[i].id == id
  {
    if q[0].id == id then 0
    else
      InTail(q, id);
      Lookup(q[1..], id) + 1
  }

  // ---- the steps ----

  function NewItem(kind: Kind, path: Path, data: Bytes, skipIfExists: bool, bestEffort: bool): Item {
    Item(kind, path, data, skipIfExists, bestEffort, 0, 0, 0)
  }

  /** An identical upload finished recently and no delete stands in between. */
  predicate Duplicate(s: State, item: Item, fingerprint: Bytes -> int) {
    item.kind == Upload && !DeleteBarrier(s, item.path) && item.path in s.recent
    && s.recent[item.path] == fingerprint(item.data)
  }

  predicate IndexLive(s: State) {
    forall p :: p in s.index ==>
      exists i ::
        0 <= i < |s.queue| && s.queue[i].id == s.index[p] && s.queue[i].item.kind == Upload && s.queue[i].item.path == p
  }

  /** An upload for a path that already has one queued: the newer one takes its place, unless it would
      only upload when nothing is there and the older one is unconditional. */
  function Replace(s: State, item: Item): (t: State)
    requires IndexLive(s) && item.path in s.index
    ensures WorkersSame(s, t)
  {
    var existing := s.queue[Lookup(s.queue, s.index[item.path])].item;
    var s1 := s.(queue := Without(s.queue, s.index[item.path]), index := s.index - {item.path});
    if item.skipIfExists && !existing.skipIfExists then Push(s1, existing) else Push(s1, item)
  }

  /** EnqueueWork. expired are the fingerprints past their time to live. */
  function Enqueue(s: State, item: Item, expired: set<Path>, fingerprint: Bytes -> int): (t: State)
    requires IndexLive(s)
    ensures WorkersSame(s, t)
  {
    var s0 := Forget(s, item.path);
    if item.kind == Delete then Push(s0.(recent := s0.recent - {item.path}), item)
    else
      var s1 := s0.(recent := s0.recent - expired);
      if Duplicate(s1, item, fingerprint) then s1
      else if item.path in s1.index then Replace(s1, item)
      else Push(s1, item)
  }

  /** The first node that is due and whose path nobody is working on. */
  function FirstEligible(q: seq<Node>, active: map<Path, int>, due: set<nat>): (i: nat)
    ensures i <= |q|
    ensures i < |q| ==> q[i].item.path !in active && q[i].id in due
    ensures forall k :: 0 <= k < i ==> q[k].item.path in active || q[k].id !in due
  {
    if |q| == 0 then 0
    else if q[0].item.path !in active && q[0].id in due then 0
    else FirstEligible(q[1..], active, due) + 1
  }

  /** A worker takes the first eligible item, if there is one. */
  function Pick(s: State, w: nat, due: set<nat>): State
    requires w < |s.workers|
  {
    var i := FirstEligible(s.queue, s.active, due);
    if s.workers[w] != Idle || i == |s.queue| then s
    else
      var item := s.queue[i].item;
      s.(queue := s.queue[..i] + s.queue[i + 1..],
         index := if item.kind == Upload then s.index - {item.path} else s.index,
         activeWorkers := s.activeWorkers + 1,
         active := Bump(s.active, item.path),
         activeBestEffort := if item.bestEffort then Bump(s.activeBestEffort, item.path) else s.activeBestEffort,
         activeDeletes := if item.kind == Delete then Bump(s.activeDeletes, item.path) else s.activeDeletes,
         workers := s.workers[w := Picked(item)])
  }

  /** What the provider's answers make of an item: the item with its retry counters, and how it went. */
  function Process(item: Item, found: Exists, ok: bool, fault: bool): (Item, Outcome) {
    if fault then (item, Faulted)
    else if item.kind == Upload && item.skipIfExists && found == Present then (item, Success(false))
    else if item.kind == Upload && item.skipIfExists && found == ExistsError then
      (item.(existsRetries := item.existsRetries + 1), if item.existsRetries < MAX_RETRIES then Retry else Failed)
    else if ok then (item, Success(item.kind == Upload))
    else (item.(transferRetries := item.transferRetries + 1), if item.transferRetries < MAX_RETRIES then Retry
          else Failed)
  }

  /** Whether the provider did what the item asks for. It did if it says so; it may also have if it reports failure
      or a fault comes up, but not if it was never asked. */
  function Touches(item: Item, found: Exists, ok: bool, fault: bool, applied: bool): bool {
    if fault then applied
    else if item.kind == Upload && item.skipIfExists && found != Missing then false
    else ok || applied
  }

  /** A worker talks to the provider. A fault, or a report of failure, may come before or after the provider acted. */
  function Act(s: State, w: nat, found: Exists, ok: bool, fault: bool, applied: bool): State
    requires w < |s.workers|
  {
    if !s.workers[w].Picked? then s
    else
      var item := s.workers[w].item;
      var (after, outcome) := Process(item, found, ok, fault);
      var touched := Touches(item, found, ok, fault, applied);
      s.(workers := s.workers[w := Acted(after, outcome)],
         cloud :=
           if !touched then s.cloud else if item.kind == Upload then s.cloud[item.path := item.data]
              else s.cloud - {item.path})
  }

  /** What a retry clears: the failure record, and for a delete the memory of recent uploads. */
  function ClearForRetry(s: State, item: Item): (t: State)
    ensures WorkersSame(s, t) && t.index == s.index && t.queue == s.queue
  {
    Forget(if item.kind == Delete then s.(recent := s.recent - {item.path}) else s, item.path)
  }

  /** RequeueFromWorker: back into the queue, unless a newer upload for the path is already there. */
  function Requeue(s: State, w: nat): State
    requires w < |s.workers|
  {
    if s.workers[w].Acted? && s.workers[w].outcome == Retry then
      var item := s.workers[w].item;
      var s0 := ClearForRetry(s, item);
      if item.path in s.index then s0.(workers := s.workers[w := Acted(item, Stale)])
      else Push(s0.(workers := s.workers[w := Acted(item, Requeued)]), item)
    else s
  }

  /** The worker lets go of the path. */
  function Release(s: State, w: nat, item: Item): State
    requires w < |s.workers|
  {
    s.(active := Drop(s.active, item.path),
       activeBestEffort := if item.bestEffort then Drop(s.activeBestEffort, item.path) else s.activeBestEffort,
       activeDeletes := if item.kind == Delete then Drop(s.activeDeletes, item.path) else s.activeDeletes,
       activeWorkers := s.activeWorkers - 1,
       workers := s.workers[w := Idle])
  }

  /** How the item went is recorded. */
  function Record(s: State, item: Item, outcome: Outcome, fingerprint: Bytes -> int): State {
    match outcome
    case Success(uploaded) =>
      var s1 := Forget(s, item.path);
      if uploaded then s1.(recent := s1.recent[item.path := fingerprint(item.data)])
      else if item.kind == Delete then s1.(recent := s1.recent - {item.path})
      else s1
    case Failed => s.(failedPaths := s.failedPaths + {item.path}, failed := s.failed[item.path := item])
    case _ => s
  }

  /** The closing critical section of the worker loop. */
  function Finish(s: State, w: nat, fingerprint: Bytes -> int): State
    requires w < |s.workers|
  {
    if s.workers[w].Acted? && s.workers[w].outcome != Retry then
      Record(Release(s, w, s.workers[w].item), s.workers[w].item, s.workers[w].outcome, fingerprint)
    else s
  }

  /** A worker without a provider, or at shutdown: the item is let go of and nothing is recorded. */
  function Abandon(s: State, w: nat): State
    requires w < |s.workers|
  {
    if s.workers[w].Picked? then Release(s, w, s.workers[w].item) else s
  }

  /** One round of RequeueFailedWorkForPrefixLocked, for the failed item of one path. */
  function RequeueFailed(s: State, prefix: Path, p: Path): State {
    if p !in s.failed || !Under(prefix, p) || s.failed[p].bestEffort then s
    else if s.failed[p].drainRequeues >= MAX_DRAIN_REQUEUES then Forget(s, p)
    else
      var item := s.failed[p].(existsRetries := 0, transferRetries := 0);
      if item.path in s.active then s.(failed := s.failed[p := item], failedPaths := s.failedPaths + {p})
      else Push(Forget(s, p), item.(drainRequeues := item.drainRequeues + 1))
  }

  function RequeueAll(s: State, prefix: Path, order: seq<Path>): State
  {
    if |order| == 0 then s else RequeueFailed(RequeueAll(s, prefix, order[..|order| - 1]), prefix, order[|order| - 1])
  }

  function ClearFailed(s: State, prefix: Path): State {
    s.(failedPaths := set p | p in s.failedPaths && !Under(prefix, p))
  }

  // ---- what a commit drain waits for ----

  predicate PendingCommit(s: State, prefix: Path) {
    (exists i :: 0 <= i < |s.queue| && !s.queue[i].item.bestEffort && Under(prefix, s.queue[i].item.path)) ||
    (exists p :: p in s.active && s.active[p] > 0 && Under(prefix, p) &&
                 s.active[p] > (if p in s.activeBestEffort then s.activeBestEffort[p] else 0))
  }

  predicate FailedCommit(s: State, prefix: Path) {
    exists p :: p in s.failed && !s.failed[p].bestEffort && Under(prefix, p)
  }
}
