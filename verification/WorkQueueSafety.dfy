/** What every reachable state of the work queue satisfies, and how much work a run can do. */
module WorkQueueSafety {
  import opened WorkQueueModel

  predicate Busy(w: Worker) {
    !w.Idle?
  }

  /** Every queued node has its own id. */
  predicate DistinctIds(q: seq<Node>, nextId: nat) {
    (forall i :: 0 <= i < |q| ==> q[i].id < nextId) && (forall i, j :: 0 <= i < j < |q| ==> q[i].id != q[j].id)
  }

  /** No two workers hold the same path. */
  predicate Exclusive(ws: seq<Worker>) {
    forall i, j :: 0 <= i < j < |ws| && Busy(ws[i]) && Busy(ws[j]) ==> ws[i].item.path != ws[j].item.path
  }

  predicate Holds(ws: seq<Worker>, p: Path) {
    exists i :: 0 <= i < |ws| && Busy(ws[i]) && ws[i].item.path == p
  }

  predicate HoldsBestEffort(ws: seq<Worker>, p: Path) {
    exists i :: 0 <= i < |ws| && Busy(ws[i]) && ws[i].item.path == p && ws[i].item.bestEffort
  }

  predicate HoldsDelete(ws: seq<Worker>, p: Path) {
    exists i :: 0 <= i < |ws| && Busy(ws[i]) && ws[i].item.path == p && ws[i].item.kind == Delete
  }

  function BusyCount(ws: seq<Worker>): nat {
    if |ws| == 0 then 0 else BusyCount(ws[..|ws| - 1]) + if Busy(ws[|ws| - 1]) then 1 else 0
  }

  /** The counts say exactly what the workers hold: one worker a path. */
  ghost predicate CountsMatch(s: State) {
    && (forall p :: p in s.active <==> Holds(s.workers, p))
    && (forall p :: p in s.activeBestEffort <==> HoldsBestEffort(s.workers, p))
    && (forall p :: p in s.activeDeletes <==> HoldsDelete(s.workers, p))
    && (forall p :: p in s.active ==> s.active[p] == 1)
    && (forall p :: p in s.activeBestEffort ==> s.activeBestEffort[p] == 1)
    && (forall p :: p in s.activeDeletes ==> s.activeDeletes[p] == 1)
    && s.activeWorkers == BusyCount(s.workers)
  }

  predicate Queueable(item: Item) {
    item.existsRetries <= MAX_RETRIES && item.transferRetries <= MAX_RETRIES && item.drainRequeues <= MAX_DRAIN_REQUEUES
  }

  predicate WorkerOk(w: Worker) {
    match w
    case Idle => true
    case Picked(item) => Queueable(item)
    case Acted(item, o) => item.drainRequeues <= MAX_DRAIN_REQUEUES && (o == Retry ==> Queueable(item))
  }

  predicate RecordsOk(s: State) {
    && (forall i :: 0 <= i < |s.queue| ==> Queueable(s.queue[i].item))
    && (forall i :: 0 <= i < |s.workers| ==> WorkerOk(s.workers[i]))
    && s.failedPaths <= s.failed.Keys
    && (forall p :: p in s.failed ==> s.failed[p].path == p && s.failed[p].drainRequeues <= MAX_DRAIN_REQUEUES)
  }

  ghost predicate Inv(s: State) {
    DistinctIds(s.queue, s.nextId) && IndexLive(s) && Exclusive(s.workers) && CountsMatch(s) && RecordsOk(s)
  }

  // ---- queue surgery ----

  lemma {:induction false} WithoutIs(q: seq<Node>, i: nat)
    requires i < |q| && forall k :: 0 <= k < i ==> q[k].id != q[i].id
    ensures Without(q, q[i].id) == q[..i] + q[i + 1..]
  {
    if i == 0 {
      assert q[..0] + q[1..] == q[1..];
    } else {
      WithoutIs(q[1..], i - 1);
      assert [q[0]] + (q[1..][..i - 1] + q[1..][i..]) == q[..i] + q[i + 1..];
    }
  }

  /** Taking a node out keeps ids distinct and every index entry for another path alive. */
  lemma CutNode(s: State, i: nat, index: map<Path, nat>)
    requires i < |s.queue| && DistinctIds(s.queue, s.nextId) && IndexLive(s)
    requires forall p :: p in index ==> p in s.index && index[p] == s.index[p]
    requires forall p :: p in index ==> index[p] != s.queue[i].id
    ensures var t := s.(queue := s.queue[..i] + s.queue[i + 1..], index := index);
            DistinctIds(t.queue, t.nextId) && IndexLive(t)
  {
    var q := s.queue[..i] + s.queue[i + 1..];
    CutIds(s.queue, i, s.nextId);
    forall p | p in index
      ensures exists k :: 0 <= k < |q| && q[k].id == index[p] && q[k].item.kind == Upload && q[k].item.path == p
    {
      var k :| 0 <= k < |s.queue| && s.queue[k].id == s.index[p] && s.queue[k].item.kind == Upload
          && s.queue[k].item.path == p;
      var k' := if k < i then k else k - 1;
      assert q[k'] == s.queue[k];
    }
    hide DistinctIds;
  }

  lemma CutIds(q: seq<Node>, i: nat, nextId: nat)
    requires i < |q| && DistinctIds(q, nextId)
    ensures DistinctIds(q[..i] + q[i + 1..], nextId)
  {
    var r := q[..i] + q[i + 1..];
    forall a, b | 0 <= a < b < |r|
      ensures r[a].id != r[b].id
    {
      assert r[a] == q[if a < i then a else a + 1] && r[b] == q[if b < i then b else b + 1];
    }
  }

  lemma PushKeeps(s: State, item: Item)
    requires DistinctIds(s.queue, s.nextId) && IndexLive(s)
    ensures var t := Push(s, item); DistinctIds(t.queue, t.nextId) && IndexLive(t)
  {
    var t := Push(s, item);
    forall p | p in t.index
      ensures exists k ::
                0 <= k < |t.queue| && t.queue[k].id == t.index[p] && t.queue[k].item.kind == Upload
                && t.queue[k].item.path == p
    {
      if p in s.index && t.index[p] == s.index[p] {
        var k :| 0 <= k < |s.queue| && s.queue[k].id == s.index[p] && s.queue[k].item.kind == Upload
            && s.queue[k].item.path == p;
        assert t.queue[k] == s.queue[k];
      } else {
        assert t.queue[|s.queue|].item == item;
      }
    }
  }

  lemma PushRecords(s: State, item: Item)
    requires RecordsOk(s) && Queueable(item)
    ensures RecordsOk(Push(s, item))
  {
  }

  // ---- the steps keep the invariant ----

  ghost predicate QueueOk(s: State) {
    DistinctIds(s.queue, s.nextId) && IndexLive(s)
  }

  ghost predicate WorkersOk(s: State) {
    Exclusive(s.workers) && CountsMatch(s)
  }

  /** Steps that leave the workers and the counts alone. */
  lemma SameWorkers(s: State, t: State)
    requires WorkersOk(s) && WorkersSame(s, t)
    ensures WorkersOk(t)
  {
  }

  lemma EnqueueKeeps(s: State, item: Item, expired: set<Path>, fingerprint: Bytes -> int)
    requires Inv(s) && Queueable(item)
    ensures Inv(Enqueue(s, item, expired, fingerprint))
  {
    hide DistinctIds, CountsMatch, Exclusive, RecordsOk, IndexLive, Queueable, Duplicate, Replace, Push, Forget,
         WorkersSame;
    ForgetKeeps(s, item.path);
    var s0 := Forget(s, item.path);
    SameWorkers(s, Enqueue(s, item, expired, fingerprint));
    var sd, su := s0.(recent := s0.recent - {item.path}), s0.(recent := s0.recent - expired);
    RecentKeeps(s0, sd.recent);
    RecentKeeps(s0, su.recent);
    if item.kind == Delete {
      PushKeeps(sd, item);
      PushRecords(sd, item);
    } else if !Duplicate(su, item, fingerprint) {
      if item.path in su.index {
        ReplaceKeeps(su, item);
      } else {
        PushKeeps(su, item);
        PushRecords(su, item);
      }
    }
  }

  lemma ForgetKeeps(s: State, p: Path)
    requires QueueOk(s) && RecordsOk(s)
    ensures QueueOk(Forget(s, p)) && RecordsOk(Forget(s, p))
  {
  }

  lemma RecentKeeps(s: State, recent: map<Path, int>)
    requires QueueOk(s) && RecordsOk(s)
    ensures QueueOk(s.(recent := recent)) && RecordsOk(s.(recent := recent))
  {
  }

  lemma ReplaceKeeps(s: State, item: Item)
    requires QueueOk(s) && RecordsOk(s) && Queueable(item) && item.path in s.index
    ensures QueueOk(Replace(s, item)) && RecordsOk(Replace(s, item))
  {
    CutIndexed(s, item.path);
    hide Without, Lookup, DistinctIds, IndexLive, RecordsOk, Push, Queueable;
    var existing := s.queue[Lookup(s.queue, s.index[item.path])].item;
    var t := s.(queue := Without(s.queue, s.index[item.path]), index := s.index - {item.path});
    PushKeeps(t, item);
    PushRecords(t, item);
    PushKeeps(t, existing);
    PushRecords(t, existing);
  }

  lemma CutRecords(s: State, i: nat, index: map<Path, nat>)
    requires RecordsOk(s) && i < |s.queue|
    ensures RecordsOk(s.(queue := s.queue[..i] + s.queue[i + 1..], index := index)) && Queueable(s.queue[i].item)
  {
  }

  /** Taking out the upload queued for p. */
  lemma CutIndexed(s: State, p: Path)
    requires QueueOk(s) && RecordsOk(s) && p in s.index
    ensures var i := Lookup(s.queue, s.index[p]);
            var t := s.(queue := Without(s.queue, s.index[p]), index := s.index - {p});
            QueueOk(t) && RecordsOk(t) && Queueable(s.queue[i].item)
  {
    hide RecordsOk, Queueable, Without;
    var i := Lookup(s.queue, s.index[p]);
    WithoutIs(s.queue, i);
    IndexedApart(s, p);
    hide Lookup, DistinctIds, IndexLive;
    CutNode(s, i, s.index - {p});
    CutRecords(s, i, s.index - {p});
  }

  /** Entries for different paths point at different nodes. */
  lemma IndexedApart(s: State, p: Path)
    requires QueueOk(s) && p in s.index
    ensures forall q :: q in s.index && q != p ==> s.index[q] != s.index[p]
  {
  }

  // ---- workers ----

  lemma {:induction false} BusyCountSet(ws: seq<Worker>, w: nat, x: Worker)
    requires w < |ws|
    ensures BusyCount(ws[w := x]) == BusyCount(ws) - (if Busy(ws[w]) then 1 else 0) + (if Busy(x) then 1 else 0)
    decreases |ws|
  {
    var k := |ws| - 1;
    if w == k {
      assert ws[w := x][..k] == ws[..k];
    } else {
      BusyCountSet(ws[..k], w, x);
      assert ws[w := x][..k] == ws[..k][w := x];
    }
  }

  /** Who holds p after worker w changes from a to x. */
  lemma HoldsSet(ws: seq<Worker>, w: nat, x: Worker, p: Path)
    requires w < |ws| && Exclusive(ws)
    ensures Busy(x) && !Busy(ws[w]) ==>
              (Holds(ws[w := x], p) <==> Holds(ws, p) || x.item.path == p)
    ensures !Busy(x) && Busy(ws[w]) ==>
              (Holds(ws[w := x], p) <==> Holds(ws, p) && ws[w].item.path != p)
  {
    var t := ws[w := x];
    if Holds(ws, p) {
      var i :| 0 <= i < |ws| && Busy(ws[i]) && ws[i].item.path == p;
      assert i != w ==> t[i] == ws[i];
    }
    if Busy(x) && x.item.path == p {
      assert t[w] == x;
    }
    if Holds(t, p) {
      var i :| 0 <= i < |t| && Busy(t[i]) && t[i].item.path == p;
      assert i != w ==> ws[i] == t[i];
    }
  }

  lemma HoldsBestEffortSet(ws: seq<Worker>, w: nat, x: Worker, p: Path)
    requires w < |ws| && Exclusive(ws)
    ensures Busy(x) && !Busy(ws[w]) ==>
              (HoldsBestEffort(ws[w := x], p) <==> HoldsBestEffort(ws, p) || (x.item.path == p && x.item.bestEffort))
    ensures !Busy(x) && Busy(ws[w]) ==>
              (HoldsBestEffort(ws[w := x], p) <==>
                 HoldsBestEffort(ws, p) && !(ws[w].item.path == p && ws[w].item.bestEffort))
  {
    var t := ws[w := x];
    if HoldsBestEffort(ws, p) {
      var i :| 0 <= i < |ws| && Busy(ws[i]) && ws[i].item.path == p && ws[i].item.bestEffort;
      assert i != w ==> t[i] == ws[i];
    }
    if Busy(x) && x.item.path == p {
      assert t[w] == x;
    }
    if HoldsBestEffort(t, p) {
      var i :| 0 <= i < |t| && Busy(t[i]) && t[i].item.path == p && t[i].item.bestEffort;
      assert i != w ==> ws[i] == t[i];
    }
  }

  lemma HoldsDeleteSet(ws: seq<Worker>, w: nat, x: Worker, p: Path)
    requires w < |ws| && Exclusive(ws)
    ensures Busy(x) && !Busy(ws[w]) ==>
              (HoldsDelete(ws[w := x], p) <==> HoldsDelete(ws, p) || (x.item.path == p && x.item.kind == Delete))
    ensures !Busy(x) && Busy(ws[w]) ==>
              (HoldsDelete(ws[w := x], p) <==>
                 HoldsDelete(ws, p) && !(ws[w].item.path == p && ws[w].item.kind == Delete))
  {
    var t := ws[w := x];
    if HoldsDelete(ws, p) {
      var i :| 0 <= i < |ws| && Busy(ws[i]) && ws[i].item.path == p && ws[i].item.kind == Delete;
      assert i != w ==> t[i] == ws[i];
    }
    if Busy(x) && x.item.path == p {
      assert t[w] == x;
    }
    if HoldsDelete(t, p) {
      var i :| 0 <= i < |t| && Busy(t[i]) && t[i].item.path == p && t[i].item.kind == Delete;
      assert i != w ==> ws[i] == t[i];
    }
  }

  lemma ExclusiveSet(ws: seq<Worker>, w: nat, x: Worker)
    requires w < |ws| && Exclusive(ws)
    requires Busy(x) ==> (Busy(ws[w]) && x.item.path == ws[w].item.path) || !Holds(ws, x.item.path)
    ensures Exclusive(ws[w := x])
  {
    var t := ws[w := x];
    forall i, j | 0 <= i < j < |t| && Busy(t[i]) && Busy(t[j])
      ensures t[i].item.path != t[j].item.path
    {
      assert i != w ==> t[i] == ws[i];
      assert j != w ==> t[j] == ws[j];
    }
  }

  ghost predicate Taken(s: State, w: nat, item: Item, t: State) {
    && w < |s.workers| && t.workers == s.workers[w := Picked(item)] && t.activeWorkers == s.activeWorkers + 1
    && t.active == Bump(s.active, item.path)
    && t.activeBestEffort == (if item.bestEffort then Bump(s.activeBestEffort, item.path) else s.activeBestEffort)
    && t.activeDeletes == (if item.kind == Delete then Bump(s.activeDeletes, item.path) else s.activeDeletes)
  }

  lemma TakenHolds(s: State, w: nat, item: Item, t: State, p: Path)
    requires Taken(s, w, item, t) && WorkersOk(s) && !Busy(s.workers[w])
    ensures p in t.active <==> Holds(t.workers, p)
    ensures p in t.activeBestEffort <==> HoldsBestEffort(t.workers, p)
    ensures p in t.activeDeletes <==> HoldsDelete(t.workers, p)
  {
    HoldsSet(s.workers, w, Picked(item), p);
    HoldsBestEffortSet(s.workers, w, Picked(item), p);
    HoldsDeleteSet(s.workers, w, Picked(item), p);
    hide Holds, HoldsBestEffort, HoldsDelete, Exclusive, BusyCount;
  }

  /** A worker takes a path nobody holds. */
  lemma TakeKeeps(s: State, w: nat, item: Item, t: State)
    requires Taken(s, w, item, t) && WorkersOk(s) && !Busy(s.workers[w]) && item.path !in s.active
    ensures WorkersOk(t)
  {
    hide Holds, HoldsBestEffort, HoldsDelete, Exclusive, BusyCount;
    var x := Picked(item);
    ExclusiveSet(s.workers, w, x);
    BusyCountSet(s.workers, w, x);
    NotHeld(s, item.path);
    forall p
      ensures p in t.active <==> Holds(t.workers, p)
      ensures p in t.activeBestEffort <==> HoldsBestEffort(t.workers, p)
      ensures p in t.activeDeletes <==> HoldsDelete(t.workers, p)
    {
      hide WorkersOk, Taken;
      TakenHolds(s, w, item, t, p);
    }
  }

  lemma NotHeld(s: State, p: Path)
    requires WorkersOk(s) && p !in s.active
    ensures p !in s.activeBestEffort && p !in s.activeDeletes
  {
  }

  /** The holder of a path lets go of it. */
  lemma ReleaseKeeps(s: State, w: nat)
    requires w < |s.workers| && WorkersOk(s) && Busy(s.workers[w])
    ensures WorkersOk(Release(s, w, s.workers[w].item))
  {
    hide Holds, HoldsBestEffort, HoldsDelete, Exclusive, BusyCount;
    var t := Release(s, w, s.workers[w].item);
    ExclusiveSet(s.workers, w, Idle);
    BusyCountSet(s.workers, w, Idle);
    HeldBy(s, w);
    forall p
      ensures p in t.active <==> Holds(t.workers, p)
      ensures p in t.activeBestEffort <==> HoldsBestEffort(t.workers, p)
      ensures p in t.activeDeletes <==> HoldsDelete(t.workers, p)
    {
      hide WorkersOk, Release;
      ReleasedHolds(s, w, p);
    }
  }

  lemma ReleasedHolds(s: State, w: nat, p: Path)
    requires w < |s.workers| && WorkersOk(s) && Busy(s.workers[w])
    ensures var t := Release(s, w, s.workers[w].item);
            && (p in t.active <==> Holds(t.workers, p))
            && (p in t.activeBestEffort <==> HoldsBestEffort(t.workers, p))
            && (p in t.activeDeletes <==> HoldsDelete(t.workers, p))
  {
    hide Holds, HoldsBestEffort, HoldsDelete, Exclusive, BusyCount;
    HeldBy(s, w);
    HoldsSet(s.workers, w, Idle, p);
    HoldsBestEffortSet(s.workers, w, Idle, p);
    HoldsDeleteSet(s.workers, w, Idle, p);
  }

  lemma HeldBy(s: State, w: nat)
    requires w < |s.workers| && WorkersOk(s) && Busy(s.workers[w])
    ensures var item := s.workers[w].item;
            && item.path in s.active
            && (item.bestEffort <==> item.path in s.activeBestEffort)
            && (item.kind == Delete <==> item.path in s.activeDeletes)
  {
    var item := s.workers[w].item;
    assert Holds(s.workers, item.path);
    if item.bestEffort {
      assert HoldsBestEffort(s.workers, item.path);
    }
    if item.kind == Delete {
      assert HoldsDelete(s.workers, item.path);
    }
  }

  // ---- the remaining steps ----

  lemma WorkerRecords(s: State, w: nat, x: Worker)
    requires RecordsOk(s) && w < |s.workers| && WorkerOk(x)
    ensures RecordsOk(s.(workers := s.workers[w := x]))
  {
  }

  lemma PickRecords(s: State, w: nat, i: nat, t: State)
    requires RecordsOk(s) && w < |s.workers| && i < |s.queue| && t.queue == s.queue[..i] + s.queue[i + 1..]
    requires t.workers == s.workers[w := Picked(s.queue[i].item)] && t.failed == s.failed
             && t.failedPaths == s.failedPaths
    ensures RecordsOk(t)
  {
  }

  lemma PickKeeps(s: State, w: nat, due: set<nat>)
    requires Inv(s) && w < |s.workers|
    ensures Inv(Pick(s, w, due))
  {
    var i := FirstEligible(s.queue, s.active, due);
    var t := Pick(s, w, due);
    if s.workers[w] == Idle && i < |s.queue| {
      hide DistinctIds, IndexLive, Exclusive, CountsMatch, RecordsOk, Bump, FirstEligible;
      TakeKeeps(s, w, s.queue[i].item, t);
      PickQueue(s, i);
      QueueSame(s.(queue := t.queue, index := t.index), t);
      PickRecords(s, w, i, t);
    }
  }

  /** The index loses its entry for the path taken; entries for other paths stay alive. */
  lemma PickQueue(s: State, i: nat)
    requires QueueOk(s) && i < |s.queue|
    ensures var item := s.queue[i].item;
            QueueOk(s.(queue := s.queue[..i] + s.queue[i + 1..], index := if item.kind == Upload
                       then s.index - {item.path} else s.index))
  {
    var item := s.queue[i].item;
    var index := if item.kind == Upload then s.index - {item.path} else s.index;
    forall p | p in index
      ensures index[p] != s.queue[i].id
    {
      var k :| 0 <= k < |s.queue| && s.queue[k].id == s.index[p] && s.queue[k].item.kind == Upload
          && s.queue[k].item.path == p;
      assert k != i;
    }
    CutNode(s, i, index);
  }

  /** A worker that keeps its path changes nothing about who holds what. */
  lemma SameItemKeeps(s: State, w: nat, x: Worker)
    requires w < |s.workers| && WorkersOk(s) && Busy(s.workers[w]) && Busy(x)
    requires x.item.path == s.workers[w].item.path && x.item.bestEffort == s.workers[w].item.bestEffort
             && x.item.kind == s.workers[w].item.kind
    ensures WorkersOk(s.(workers := s.workers[w := x]))
  {
    hide Exclusive, BusyCount, Holds, HoldsBestEffort, HoldsDelete;
    var t := s.(workers := s.workers[w := x]);
    ExclusiveSet(s.workers, w, x);
    BusyCountSet(s.workers, w, x);
    forall p
      ensures Holds(t.workers, p) <==> Holds(s.workers, p)
      ensures HoldsBestEffort(t.workers, p) <==> HoldsBestEffort(s.workers, p)
      ensures HoldsDelete(t.workers, p) <==> HoldsDelete(s.workers, p)
    {
      SameHolds(s.workers, t.workers, p);
      SameHolds(t.workers, s.workers, p);
    }
  }

  lemma SameHolds(a: seq<Worker>, b: seq<Worker>, p: Path)
    requires |a| == |b|
    requires forall i :: 0 <= i < |a| && Busy(a[i]) ==>
      Busy(b[i]) && b[i].item.path == a[i].item.path && b[i].item.bestEffort == a[i].item.bestEffort
      && b[i].item.kind == a[i].item.kind
    ensures Holds(a, p) ==> Holds(b, p)
    ensures HoldsBestEffort(a, p) ==> HoldsBestEffort(b, p)
    ensures HoldsDelete(a, p) ==> HoldsDelete(b, p)
  {
    if Holds(a, p) {
      var i :| 0 <= i < |a| && Busy(a[i]) && a[i].item.path == p;
      assert Busy(b[i]);
    }
    if HoldsBestEffort(a, p) {
      var i :| 0 <= i < |a| && Busy(a[i]) && a[i].item.path == p && a[i].item.bestEffort;
      assert Busy(b[i]);
    }
    if HoldsDelete(a, p) {
      var i :| 0 <= i < |a| && Busy(a[i]) && a[i].item.path == p && a[i].item.kind == Delete;
      assert Busy(b[i]);
    }
  }

  lemma CloudKeeps(s: State, cloud: map<Path, Bytes>)
    requires Inv(s)
    ensures Inv(s.(cloud := cloud))
  {
  }

  /** Processing keeps what an item is, and its counters within bounds. */
  lemma ProcessKeeps(item: Item, found: Exists, ok: bool, fault: bool)
    requires Queueable(item)
    ensures var (after, outcome) := Process(item, found, ok, fault);
            && after.path == item.path && after.kind == item.kind && after.bestEffort == item.bestEffort
            && after.data == item.data
            && WorkerOk(Acted(after, outcome))
  {
  }

  lemma ActKeeps(s: State, w: nat, found: Exists, ok: bool, fault: bool, applied: bool)
    requires Inv(s) && w < |s.workers|
    ensures Inv(Act(s, w, found, ok, fault, applied))
  {
    if s.workers[w].Picked? {
      var item := s.workers[w].item;
      var (after, outcome) := Process(item, found, ok, fault);
      assert WorkerOk(s.workers[w]);
      ProcessKeeps(item, found, ok, fault);
      var x := Acted(after, outcome);
      hide DistinctIds, IndexLive, Exclusive, CountsMatch, RecordsOk, Process, WorkerOk, Queueable;
      SameItemKeeps(s, w, x);
      WorkerRecords(s, w, x);
      var t := s.(workers := s.workers[w := x]);
      QueueSame(s, t);
      CloudKeeps(t, Act(s, w, found, ok, fault, applied).cloud);
    }
  }

  lemma ChangeWorker(s: State, w: nat, x: Worker)
    requires Inv(s) && w < |s.workers| && Busy(s.workers[w]) && Busy(x) && WorkerOk(x)
    requires x.item.path == s.workers[w].item.path && x.item.bestEffort == s.workers[w].item.bestEffort
             && x.item.kind == s.workers[w].item.kind
    ensures Inv(s.(workers := s.workers[w := x]))
  {
    hide DistinctIds, IndexLive, Exclusive, CountsMatch, RecordsOk, WorkerOk;
    SameItemKeeps(s, w, x);
    WorkerRecords(s, w, x);
    QueueSame(s, s.(workers := s.workers[w := x]));
  }

  lemma PushInv(s: State, item: Item)
    requires Inv(s) && Queueable(item)
    ensures Inv(Push(s, item))
  {
    hide DistinctIds, IndexLive, Exclusive, CountsMatch, RecordsOk, Push, WorkersSame, Queueable;
    PushKeeps(s, item);
    PushRecords(s, item);
    SameWorkers(s, Push(s, item));
  }

  lemma ClearForRetryInv(s: State, item: Item)
    requires Inv(s)
    ensures Inv(ClearForRetry(s, item))
  {
    var r := if item.kind == Delete then s.(recent := s.recent - {item.path}) else s;
    RecentInv(s, r.recent);
    hide Inv;
    ForgetInv(r, item.path);
  }

  lemma RetryIsQueueable(s: State, w: nat)
    requires Inv(s) && w < |s.workers| && s.workers[w].Acted? && s.workers[w].outcome == Retry
    ensures Queueable(s.workers[w].item)
    ensures WorkerOk(Acted(s.workers[w].item, Stale)) && WorkerOk(Acted(s.workers[w].item, Requeued))
  {
    assert WorkerOk(s.workers[w]);
  }

  lemma RequeueKeeps(s: State, w: nat)
    requires Inv(s) && w < |s.workers|
    ensures Inv(Requeue(s, w))
  {
    if s.workers[w].Acted? && s.workers[w].outcome == Retry {
      hide Inv, Push, WorkerOk, Queueable, ClearForRetry;
      var item := s.workers[w].item;
      RetryIsQueueable(s, w);
      ClearForRetryInv(s, item);
      var s0 := ClearForRetry(s, item);
      if item.path in s.index {
        ChangeWorker(s0, w, Acted(item, Stale));
      } else {
        ChangeWorker(s0, w, Acted(item, Requeued));
        PushInv(s0.(workers := s0.workers[w := Acted(item, Requeued)]), item);
      }
    }
  }

  lemma QueueSame(s: State, t: State)
    requires QueueOk(s) && t.queue == s.queue && t.index == s.index && t.nextId == s.nextId
    ensures QueueOk(t)
  {
  }

  lemma ReleaseInv(s: State, w: nat)
    requires Inv(s) && w < |s.workers| && Busy(s.workers[w])
    ensures Inv(Release(s, w, s.workers[w].item))
  {
    ReleaseKeeps(s, w);
    QueueSame(s, Release(s, w, s.workers[w].item));
    WorkerRecords(s, w, Idle);
    hide DistinctIds, IndexLive, Exclusive, CountsMatch, Drop;
  }

  lemma AbandonKeeps(s: State, w: nat)
    requires Inv(s) && w < |s.workers|
    ensures Inv(Abandon(s, w))
  {
    if s.workers[w].Picked? {
      ReleaseInv(s, w);
    }
  }

  lemma FailKeeps(s: State, item: Item)
    requires Inv(s) && item.drainRequeues <= MAX_DRAIN_REQUEUES
    ensures Inv(s.(failedPaths := s.failedPaths + {item.path}, failed := s.failed[item.path := item]))
  {
    var t := s.(failedPaths := s.failedPaths + {item.path}, failed := s.failed[item.path := item]);
    QueueSame(s, t);
    SameWorkers(s, t);
    hide DistinctIds, IndexLive, Exclusive, CountsMatch;
  }

  lemma FinishKeeps(s: State, w: nat, fingerprint: Bytes -> int)
    requires Inv(s) && w < |s.workers|
    ensures Inv(Finish(s, w, fingerprint))
  {
    if s.workers[w].Acted? && s.workers[w].outcome != Retry {
      var item := s.workers[w].item;
      assert WorkerOk(s.workers[w]);
      ReleaseInv(s, w);
      var s0 := Release(s, w, item);
      ForgetInv(s0, item.path);
      hide DistinctIds, IndexLive, Exclusive, CountsMatch, RecordsOk, Forget, Release, WorkersSame;
      var s1 := Forget(s0, item.path);
      match s.workers[w].outcome
      case Success(uploaded) => RecentInv(s1, Finish(s, w, fingerprint).recent);
      case Failed => FailKeeps(s0, item);
      case _ =>
    }
  }

  lemma ForgetInv(s: State, p: Path)
    requires Inv(s)
    ensures Inv(Forget(s, p))
  {
    ForgetKeeps(s, p);
    SameWorkers(s, Forget(s, p));
  }

  lemma RecentInv(s: State, recent: map<Path, int>)
    requires Inv(s)
    ensures Inv(s.(recent := recent))
  {
    RecentKeeps(s, recent);
    SameWorkers(s, s.(recent := recent));
  }

  lemma FailedRecord(s: State, p: Path)
    requires Inv(s) && p in s.failed
    ensures s.failed[p].path == p && s.failed[p].drainRequeues <= MAX_DRAIN_REQUEUES
  {
  }

  lemma RequeueFailedKeeps(s: State, prefix: Path, p: Path)
    requires Inv(s)
    ensures Inv(RequeueFailed(s, prefix, p))
  {
    hide Inv, Push, Forget;
    if p in s.failed && Under(prefix, p) && !s.failed[p].bestEffort {
      FailedRecord(s, p);
      var item := s.failed[p].(existsRetries := 0, transferRetries := 0);
      ForgetInv(s, p);
      if s.failed[p].drainRequeues < MAX_DRAIN_REQUEUES {
        if item.path in s.active {
          FailKeeps(s, item);
        } else {
          PushInv(Forget(s, p), item.(drainRequeues := item.drainRequeues + 1));
        }
      }
    }
  }

  lemma {:induction false} RequeueAllKeeps(s: State, prefix: Path, order: seq<Path>)
    requires Inv(s)
    ensures Inv(RequeueAll(s, prefix, order))
  {
    if |order| == 0 {
    } else {
      RequeueAllKeeps(s, prefix, order[..|order| - 1]);
      RequeueFailedKeeps(RequeueAll(s, prefix, order[..|order| - 1]), prefix, order[|order| - 1]);
    }
  }

  lemma ClearFailedKeeps(s: State, prefix: Path)
    requires Inv(s)
    ensures Inv(ClearFailed(s, prefix))
  {
    QueueSame(s, ClearFailed(s, prefix));
    SameWorkers(s, ClearFailed(s, prefix));
    hide DistinctIds, IndexLive, Exclusive, CountsMatch;
  }
}
