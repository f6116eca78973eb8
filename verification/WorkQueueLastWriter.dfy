/** When the last writer wins. What the queue, the workers, the provider and the failure records say about one path is
    its view; the newest work on the path stays on track until one of a few named steps loses it. */
module WorkQueueLastWriter {
  import opened Options
  import opened WorkQueueModel
  import opened WorkQueueSafety
  import opened WorkQueueRuns

  /** What a path holds at the provider: nothing, or these bytes. */
  type Content = Option<Bytes>

  /** Carrying out the item leaves the path with this content, whatever it held before. */
  predicate Does(item: Item, want: Content) {
    if item.kind == Delete then want == None else !item.skipIfExists && want == Some(item.data)
  }

  /** The last item queued for a path. */
  function LastItem(q: seq<Node>, p: Path): (r: Option<Item>)
    ensures r.Some? ==> r.value.path == p
  {
    if |q| == 0 then None
    else if q[|q| - 1].item.path == p then Some(q[|q| - 1].item)
    else LastItem(q[..|q| - 1], p)
  }

  /** The worker that holds a path, or an idle one. */
  function HolderOf(ws: seq<Worker>, p: Path): (h: Worker)
    ensures Busy(h) ==> h.item.path == p
  {
    if |ws| == 0 then Idle
    else if Busy(ws[|ws| - 1]) && ws[|ws| - 1].item.path == p then ws[|ws| - 1]
    else HolderOf(ws[..|ws| - 1], p)
  }

  datatype View = View(queued: Option<Item>, held: Worker, stored: Content, failed: Option<Item>)

  function ViewOf(s: State, p: Path): View {
    View(LastItem(s.queue, p), HolderOf(s.workers, p), if p in s.cloud then Some(s.cloud[p]) else None,
         if p in s.failed then Some(s.failed[p]) else None)
  }

  /** The newest copy of the path, queued, held by a worker or stored, is the wanted one. */
  predicate Newest(v: View, want: Content) {
    if v.queued.Some? then Does(v.queued.value, want)
    else match v.held
         case Idle => v.stored == want
         case Picked(item) => Does(item, want)
         case Acted(item, o) => if o == Retry || o == Failed then Does(item, want) else v.stored == want
  }

  /** The same, or the work has failed and is on record. */
  predicate OnTrack(v: View, want: Content) {
    Newest(v, want) || (v.queued.None? && v.held == Idle && v.failed.Some? && Does(v.failed.value, want))
  }

  // ---- finding the last item and the holder ----

  lemma {:induction false} LastItemJoin(a: seq<Node>, b: seq<Node>, p: Path)
    ensures LastItem(a + b, p) == if LastItem(b, p).Some? then LastItem(b, p) else LastItem(a, p)
  {
    if |b| == 0 {
      assert a + b == a;
    } else {
      LastItemJoin(a, b[..|b| - 1], p);
      assert (a + b)[..|a + b| - 1] == a + b[..|b| - 1];
    }
  }

  lemma LastItemAt(q: seq<Node>, i: nat, p: Path)
    requires i < |q|
    ensures LastItem(q, p) == if LastItem(q[i + 1..], p).Some? then LastItem(q[i + 1..], p)
                              else if q[i].item.path == p then Some(q[i].item) else LastItem(q[..i], p)
    ensures LastItem(q[..i] + q[i + 1..], p) == if LastItem(q[i + 1..], p).Some? then LastItem(q[i + 1..], p)
            else LastItem(q[..i], p)
  {
    LastItemJoin(q[..i], q[i + 1..], p);
    LastItemJoin(q[..i + 1], q[i + 1..], p);
    assert q[..i + 1] + q[i + 1..] == q;
    assert q[..i + 1][..i] == q[..i];
  }

  lemma {:induction false} NoneQueued(q: seq<Node>, p: Path)
    ensures LastItem(q, p).None? <==> forall i :: 0 <= i < |q| ==> q[i].item.path != p
  {
    if |q| == 0 {
    } else {
      NoneQueued(q[..|q| - 1], p);
      assert forall i :: 0 <= i < |q| - 1 ==> q[..|q| - 1][i] == q[i];
    }
  }

  lemma {:induction false} HolderIs(ws: seq<Worker>, w: nat, p: Path)
    requires w < |ws| && Exclusive(ws) && Busy(ws[w]) && ws[w].item.path == p
    ensures HolderOf(ws, p) == ws[w]
  {
    if w < |ws| - 1 {
      HolderIs(ws[..|ws| - 1], w, p);
    }
  }

  lemma {:induction false} NoHolder(ws: seq<Worker>, p: Path)
    ensures HolderOf(ws, p) == Idle <==> !Holds(ws, p)
  {
    if |ws| == 0 {
    } else {
      var k := |ws| - 1;
      NoHolder(ws[..k], p);
      if Holds(ws[..k], p) {
        var i :| 0 <= i < k && Busy(ws[..k][i]) && ws[..k][i].item.path == p;
        assert Busy(ws[i]) && ws[i].item.path == p;
      }
      if Holds(ws, p) && !(Busy(ws[k]) && ws[k].item.path == p) {
        var i :| 0 <= i < |ws| && Busy(ws[i]) && ws[i].item.path == p;
        assert Busy(ws[..k][i]) && ws[..k][i].item.path == p;
      }
    }
  }

  lemma {:induction false} HolderElsewhere(ws: seq<Worker>, w: nat, x: Worker, p: Path)
    requires w < |ws| && (Busy(ws[w]) ==> ws[w].item.path != p) && (Busy(x) ==> x.item.path != p)
    ensures HolderOf(ws[w := x], p) == HolderOf(ws, p)
  {
    var k := |ws| - 1;
    if w < k {
      HolderElsewhere(ws[..k], w, x, p);
      assert ws[w := x][..k] == ws[..k][w := x];
    } else {
      assert ws[w := x][..k] == ws[..k];
    }
  }

  /** When nobody else holds the path, the worker that changes is the holder. */
  lemma {:induction false} HolderBecomes(ws: seq<Worker>, w: nat, x: Worker, p: Path)
    requires w < |ws| && (Busy(x) ==> x.item.path == p)
    requires forall i :: 0 <= i < |ws| && i != w && Busy(ws[i]) ==> ws[i].item.path != p
    ensures HolderOf(ws[w := x], p) == x
  {
    var k := |ws| - 1;
    if w < k {
      HolderBecomes(ws[..k], w, x, p);
      assert ws[w := x][..k] == ws[..k][w := x];
    } else {
      assert ws[w := x][..k] == ws[..k];
      assert forall i :: 0 <= i < k ==> ws[..k][i] == ws[i];
      NoHolder(ws[..k], p);
    }
  }

  lemma OnlyHolder(ws: seq<Worker>, w: nat, p: Path)
    requires w < |ws| && Exclusive(ws) && Busy(ws[w]) && ws[w].item.path == p
    ensures forall i :: 0 <= i < |ws| && i != w && Busy(ws[i]) ==> ws[i].item.path != p
  {
  }

  // ---- what each step does to the view ----

  lemma PushView(s: State, item: Item, p: Path)
    ensures ViewOf(Push(s, item), p) == if item.path == p then ViewOf(s, p).(queued := Some(item)) else ViewOf(s, p)
  {
    var q := s.queue + [Node(s.nextId, item)];
    assert q[..|q| - 1] == s.queue;
  }

  lemma ForgetView(s: State, r: Path, p: Path)
    ensures ViewOf(Forget(s, r), p) == if r == p then ViewOf(s, p).(failed := None) else ViewOf(s, p)
  {
  }

  lemma ReplaceView(s: State, item: Item, p: Path)
    requires Inv(s) && item.path in s.index
    ensures item.path != p ==> ViewOf(Replace(s, item), p) == ViewOf(s, p)
    ensures item.path == p && !item.skipIfExists ==> ViewOf(Replace(s, item), p) == ViewOf(s, p).(queued := Some(item))
  {
    var i := Lookup(s.queue, s.index[item.path]);
    IndexedNode(s, item.path);
    var s1 := s.(queue := Without(s.queue, s.index[item.path]), index := s.index - {item.path});
    var existing := s.queue[i].item;
    LastItemAt(s.queue, i, p);
    hide Inv, Push, Lookup, Without, LastItem;
    PushView(s1, item, p);
    PushView(s1, existing, p);
  }

  /** The node the index points at: it is for the path, and taking it out leaves the others. */
  lemma IndexedNode(s: State, p: Path)
    requires Inv(s) && p in s.index
    ensures IndexLive(s) && var i := Lookup(s.queue, s.index[p]);
            && s.queue[i].item.path == p && s.queue[i].item.kind == Upload
            && Without(s.queue, s.index[p]) == s.queue[..i] + s.queue[i + 1..]
            && forall k :: 0 <= k < |s.queue| && s.queue[k].id == s.index[p] ==> k == i
  {
    var i := Lookup(s.queue, s.index[p]);
    assert DistinctIds(s.queue, s.nextId);
    WithoutIs(s.queue, i);
  }

  /** The upload would be dropped as a repetition of one that finished recently. */
  predicate Repeats(s: State, item: Item, expired: set<Path>, fingerprint: Bytes -> int) {
    item.kind == Upload && Duplicate(s.(recent := s.recent - expired), item, fingerprint)
  }

  /** What the state is when the item is about to be queued. */
  function Cleared(s: State, item: Item, expired: set<Path>): State {
    var s0 := Forget(s, item.path);
    s0.(recent := s0.recent - if item.kind == Delete then {item.path} else expired)
  }

  lemma EnqueueIs(s: State, item: Item, expired: set<Path>, fingerprint: Bytes -> int)
    requires Inv(s)
    ensures var s1 := Cleared(s, item, expired);
            && IndexLive(s) && IndexLive(s1)
            && Enqueue(s, item, expired, fingerprint) ==
               if Repeats(s, item, expired, fingerprint) then s1
               else if item.kind == Upload && item.path in s1.index then Replace(s1, item)
               else Push(s1, item)
  {
    hide Replace, Push, DistinctIds, Exclusive, CountsMatch, RecordsOk, QueuedDelete;
  }

  lemma ClearedOk(s: State, item: Item, expired: set<Path>, p: Path)
    requires Inv(s)
    ensures Inv(Cleared(s, item, expired))
    ensures ViewOf(Cleared(s, item, expired), p) == if item.path == p then ViewOf(s, p).(failed := None)
            else ViewOf(s, p)
  {
    ForgetInv(s, item.path);
    RecentInv(Forget(s, item.path), Cleared(s, item, expired).recent);
    hide Inv, LastItem, HolderOf;
  }

  lemma EnqueueView(s: State, item: Item, expired: set<Path>, fingerprint: Bytes -> int, p: Path)
    requires Inv(s)
    ensures IndexLive(s)
    ensures var v, t := ViewOf(s, p), ViewOf(Enqueue(s, item, expired, fingerprint), p);
            && (item.path != p ==> t == v)
            && (item.path == p && Repeats(s, item, expired, fingerprint) ==> t == v.(failed := None))
            && (item.path == p && !Repeats(s, item, expired, fingerprint)
                && (item.kind == Delete || !item.skipIfExists) ==>
                  t == v.(queued := Some(item), failed := None))
  {
    hide *;
    EnqueueIs(s, item, expired, fingerprint);
    ClearedOk(s, item, expired, p);
    var s1 := Cleared(s, item, expired);
    if item.path in s1.index {
      ReplaceView(s1, item, p);
    }
    PushView(s1, item, p);
  }

  lemma PickIs(s: State, w: nat, due: set<nat>)
    requires w < |s.workers|
    ensures var t, i := Pick(s, w, due), FirstEligible(s.queue, s.active, due);
            if s.workers[w] != Idle || i == |s.queue| then t == s
            else t.queue == s.queue[..i] + s.queue[i + 1..] && t.workers == s.workers[w := Picked(s.queue[i].item)]
                 && t.cloud == s.cloud && t.failed == s.failed
  {
    hide FirstEligible, Bump;
  }

  lemma PickView(s: State, w: nat, due: set<nat>, p: Path)
    requires Inv(s) && w < |s.workers|
    ensures var v, t, i := ViewOf(s, p), ViewOf(Pick(s, w, due), p), FirstEligible(s.queue, s.active, due);
            if s.workers[w] != Idle || i == |s.queue| || s.queue[i].item.path != p then t == v
            else
              && v.held == Idle
              && v.queued == (if LastItem(s.queue[i + 1..], p).Some? then LastItem(s.queue[i + 1..], p)
                              else Some(s.queue[i].item))
              && t == v.(held := Picked(s.queue[i].item),
                         queued := if LastItem(s.queue[i + 1..], p).Some? then v.queued else LastItem(s.queue[..i], p))
  {
    hide Inv, FirstEligible, LastItem, HolderOf, Pick;
    var i := FirstEligible(s.queue, s.active, due);
    PickIs(s, w, due);
    if s.workers[w] == Idle && i < |s.queue| {
      LastItemAt(s.queue, i, p);
      PickedHolder(s, w, s.queue[i].item, p);
    }
  }

  lemma PickedHolder(s: State, w: nat, item: Item, p: Path)
    requires Inv(s) && w < |s.workers| && s.workers[w] == Idle && item.path !in s.active
    ensures HolderOf(s.workers[w := Picked(item)], p) == if item.path == p then Picked(item) else HolderOf(s.workers, p)
    ensures item.path == p ==> HolderOf(s.workers, p) == Idle
  {
    assert !Holds(s.workers, item.path);
    hide Inv, HolderOf;
    if item.path == p {
      NoHolder(s.workers, p);
      NobodyElse(s.workers, p);
      HolderBecomes(s.workers, w, Picked(item), p);
    } else {
      HolderElsewhere(s.workers, w, Picked(item), p);
    }
  }

  lemma NobodyElse(ws: seq<Worker>, p: Path)
    requires !Holds(ws, p)
    ensures forall i :: 0 <= i < |ws| && Busy(ws[i]) ==> ws[i].item.path != p
  {
  }

  /** A worker changes and keeps, or lets go of, its path. */
  lemma WorkerView(s: State, t: State, w: nat, x: Worker, p: Path)
    requires Inv(s) && w < |s.workers| && Busy(s.workers[w]) && (Busy(x) ==> x.item.path == s.workers[w].item.path)
    requires t.workers == s.workers[w := x] && t.queue == s.queue
    ensures s.workers[w].item.path == p ==> HolderOf(s.workers, p) == s.workers[w]
    ensures ViewOf(t, p).queued == ViewOf(s, p).queued
    ensures ViewOf(t, p).held == if s.workers[w].item.path == p then x else ViewOf(s, p).held
  {
    if s.workers[w].item.path == p {
      OnlyHolder(s.workers, w, p);
      HolderIs(s.workers, w, p);
      HolderBecomes(s.workers, w, x, p);
    } else {
      HolderElsewhere(s.workers, w, x, p);
    }
    hide Inv, HolderOf, LastItem;
  }

  function ContentOf(item: Item): Content {
    if item.kind == Upload then Some(item.data) else None
  }

  lemma ActView(s: State, w: nat, found: Exists, ok: bool, fault: bool, applied: bool, p: Path)
    requires Inv(s) && w < |s.workers|
    ensures var v, t := ViewOf(s, p), ViewOf(Act(s, w, found, ok, fault, applied), p);
            if !s.workers[w].Picked? || s.workers[w].item.path != p then t == v
            else
              var item := s.workers[w].item;
              var (after, outcome) := Process(item, found, ok, fault);
              && v.held == Picked(item)
              && t == v.(held := Acted(after, outcome),
                         stored := if Touches(item, found, ok, fault, applied) then ContentOf(item) else v.stored)
  {
    hide Inv, LastItem, HolderOf, Process, Touches;
    if s.workers[w].Picked? {
      var item := s.workers[w].item;
      var (after, outcome) := Process(item, found, ok, fault);
      SamePath(item, found, ok, fault);
      WorkerView(s, Act(s, w, found, ok, fault, applied), w, Acted(after, outcome), p);
    }
  }

  lemma SamePath(item: Item, found: Exists, ok: bool, fault: bool)
    ensures Process(item, found, ok, fault).0.path == item.path
  {
  }

  lemma RequeueView(s: State, w: nat, p: Path)
    requires Inv(s) && w < |s.workers|
    ensures var v, t := ViewOf(s, p), ViewOf(Requeue(s, w), p);
            if !s.workers[w].Acted? || s.workers[w].outcome != Retry || s.workers[w].item.path != p then t == v
            else
              var item := s.workers[w].item;
              && v.held == Acted(item, Retry)
              && t == if p in s.index then v.(held := Acted(item, Stale), failed := None)
                      else v.(queued := Some(item), held := Acted(item, Requeued), failed := None)
  {
    hide Inv, Push, LastItem, HolderOf, ClearForRetry;
    if s.workers[w].Acted? && s.workers[w].outcome == Retry {
      var item := s.workers[w].item;
      var x := Acted(item, if item.path in s.index then Stale else Requeued);
      var t := ClearForRetry(s, item).(workers := s.workers[w := x]);
      RetryCleared(s, item);
      WorkerView(s, t, w, x, p);
      PushView(t, item, p);
    }
  }

  lemma RetryCleared(s: State, item: Item)
    ensures var t := ClearForRetry(s, item);
            t.queue == s.queue && t.workers == s.workers && t.cloud == s.cloud && t.failed == s.failed - {item.path}
  {
  }

  lemma FinishView(s: State, w: nat, fingerprint: Bytes -> int, p: Path)
    requires Inv(s) && w < |s.workers|
    ensures var v, t := ViewOf(s, p), ViewOf(Finish(s, w, fingerprint), p);
            if !s.workers[w].Acted? || s.workers[w].outcome == Retry || s.workers[w].item.path != p then t == v
            else
              && v.held == s.workers[w]
              && t == v.(held := Idle,
                         failed := if s.workers[w].outcome.Success? then None
                                   else if s.workers[w].outcome == Failed then Some(s.workers[w].item)
                                   else v.failed)
  {
    hide Inv, LastItem, HolderOf, Finish;
    FinishIs(s, w, fingerprint);
    if s.workers[w].Acted? && s.workers[w].outcome != Retry {
      WorkerView(s, Finish(s, w, fingerprint), w, Idle, p);
    }
  }

  lemma FinishIs(s: State, w: nat, fingerprint: Bytes -> int)
    requires w < |s.workers|
    ensures !s.workers[w].Acted? || s.workers[w].outcome == Retry ==> Finish(s, w, fingerprint) == s
    ensures s.workers[w].Acted? && s.workers[w].outcome != Retry ==>
            var t, item := Finish(s, w, fingerprint), s.workers[w].item;
            && t.workers == s.workers[w := Idle] && t.queue == s.queue && t.index == s.index
            && t.nextId == s.nextId && t.cloud == s.cloud
            && t.failed == if s.workers[w].outcome.Success? then s.failed - {item.path}
                           else if s.workers[w].outcome == Failed then s.failed[item.path := item] else s.failed
  {
    hide Release, Record;
    if s.workers[w].Acted? {
      ReleaseIs(s, w, s.workers[w].item);
      RecordIs(Release(s, w, s.workers[w].item), s.workers[w].item, s.workers[w].outcome, fingerprint);
    }
  }

  lemma RecordIs(s: State, item: Item, outcome: Outcome, fingerprint: Bytes -> int)
    ensures var t := Record(s, item, outcome, fingerprint);
            && t.workers == s.workers && t.queue == s.queue && t.index == s.index && t.nextId == s.nextId
            && t.cloud == s.cloud
            && t.failed == if outcome.Success? then s.failed - {item.path}
                           else if outcome == Failed then s.failed[item.path := item] else s.failed
  {
    match outcome
    case Success(uploaded) =>
      if uploaded {
      } else if item.kind == Delete {
      }
    case Failed =>
    case _ =>
  }

  lemma ReleaseIs(s: State, w: nat, item: Item)
    requires w < |s.workers|
    ensures var t := Release(s, w, item);
            && t.workers == s.workers[w := Idle] && t.queue == s.queue && t.index == s.index
            && t.nextId == s.nextId && t.cloud == s.cloud && t.failed == s.failed
  {
    hide Drop;
  }

  lemma AbandonView(s: State, w: nat, p: Path)
    requires Inv(s) && w < |s.workers|
    ensures var v, t := ViewOf(s, p), ViewOf(Abandon(s, w), p);
            if !s.workers[w].Picked? || s.workers[w].item.path != p then t == v
            else v.held == s.workers[w] && t == v.(held := Idle)
  {
    hide Inv, LastItem, HolderOf, Drop;
    if s.workers[w].Picked? {
      WorkerView(s, Abandon(s, w), w, Idle, p);
    }
  }

  // ---- a drain ----

  /** A drain of the prefix looks at the failure record of p. */
  predicate DrainSees(s: State, prefix: Path, p: Path) {
    p in s.failed && Under(prefix, p) && !s.failed[p].bestEffort
  }

  /** It drops the record, its requeues being used up. */
  predicate DrainDrops(s: State, prefix: Path, p: Path) {
    DrainSees(s, prefix, p) && s.failed[p].drainRequeues >= MAX_DRAIN_REQUEUES
  }

  /** It puts the recorded item back into the queue. */
  predicate DrainRequeues(s: State, prefix: Path, p: Path) {
    DrainSees(s, prefix, p) && s.failed[p].drainRequeues < MAX_DRAIN_REQUEUES && p !in s.active
  }

  function Again(item: Item): Item {
    item.(existsRetries := 0, transferRetries := 0, drainRequeues := item.drainRequeues + 1)
  }

  /** What one round for r does to the view of p. */
  function Drained(s: State, prefix: Path, p: Path): View {
    var v := ViewOf(s, p);
    if DrainDrops(s, prefix, p) then v.(failed := None)
    else if DrainRequeues(s, prefix, p) then v.(queued := Some(Again(s.failed[p])), failed := None)
    else if DrainSees(s, prefix, p) then v.(failed := Some(s.failed[p].(existsRetries := 0, transferRetries := 0)))
    else v
  }

  lemma RequeueFailedView(s: State, prefix: Path, r: Path, p: Path)
    requires Inv(s)
    ensures ViewOf(RequeueFailed(s, prefix, r), p) == if r == p then Drained(s, prefix, p) else ViewOf(s, p)
    ensures (p in RequeueFailed(s, prefix, r).active <==> p in s.active)
  {
    hide Inv, Push, LastItem, HolderOf, Forget;
    if r in s.failed {
      RecordedPath(s, r);
      ForgetView(s, r, p);
      PushView(Forget(s, r), Again(s.failed[r]), p);
    }
  }

  lemma RecordedPath(s: State, r: Path)
    requires Inv(s) && r in s.failed
    ensures s.failed[r].path == r
  {
  }

  /** The whole loop does to p what its own round does. */
  lemma {:induction false} RequeueAllView(s: State, prefix: Path, order: seq<Path>, p: Path)
    requires Inv(s)
    ensures var t := RequeueAll(s, prefix, order);
            && Inv(t) && (p in t.active <==> p in s.active)
            && ViewOf(t, p) == if p in order then Drained(s, prefix, p) else ViewOf(s, p)
  {
    if |order| == 0 {
    } else {
      var k := |order| - 1;
      var t := RequeueAll(s, prefix, order[..k]);
      RequeueAllView(s, prefix, order[..k], p);
      RequeueFailedView(t, prefix, order[k], p);
      RequeueAllKeeps(s, prefix, order);
      InFront(order, p);
      hide Inv, RequeueFailed, LastItem, HolderOf;
      if order[k] == p {
        DrainedOnce(s, t, prefix, p, p in order[..k]);
      }
    }
  }

  lemma InFront(order: seq<Path>, p: Path)
    requires |order| > 0
    ensures p in order <==> p in order[..|order| - 1] || p == order[|order| - 1]
  {
    assert order == order[..|order| - 1] + [order[|order| - 1]];
  }

  lemma DrainedOnce(s: State, t: State, prefix: Path, p: Path, done: bool)
    requires (p in t.active <==> p in s.active) && ViewOf(t, p) == if done then Drained(s, prefix, p) else ViewOf(s, p)
    ensures Drained(t, prefix, p) == Drained(s, prefix, p)
  {
    hide LastItem, HolderOf;
    assert (p in t.failed <==> ViewOf(t, p).failed.Some?) && (p in s.failed <==> ViewOf(s, p).failed.Some?);
  }

  // ---- the steps that lose the newest work on a path ----

  /** The path's content once the work enqueued last is done. */
  function Wanted(step: Step, p: Path, want: Content): Content {
    if step.DoEnqueue? && step.path == p then (if step.kind == Upload then Some(step.data) else None) else want
  }

  /** Work for the path is unconditional: uploads that only happen when nothing is there are not. */
  predicate Unconditional(step: Step, p: Path) {
    step.DoEnqueue? && step.path == p ==> step.kind == Delete || !step.skipIfExists
  }

  /** The upload looks like a repetition, but the newest copy is another one. */
  predicate DropsNew(s: State, item: Item, expired: set<Path>, fingerprint: Bytes -> int) {
    Repeats(s, item, expired, fingerprint) && !Newest(ViewOf(s, item.path), ContentOf(item))
  }

  /** The node taken is the last for p, and one before it, which is not due, does something else. */
  predicate Overtakes(s: State, w: nat, due: set<nat>, p: Path, want: Content)
    requires w < |s.workers|
  {
    var i := FirstEligible(s.queue, s.active, due);
    && s.workers[w] == Idle && i < |s.queue| && s.queue[i].item.path == p && LastItem(s.queue[i + 1..], p).None?
    && LastItem(s.queue[..i], p).Some? && !Does(LastItem(s.queue[..i], p).value, want)
  }

  /** A fault, without effect, ends the attempt at the newest item. */
  predicate FaultEnds(s: State, w: nat, fault: bool, applied: bool, p: Path, want: Content)
    requires w < |s.workers|
  {
    && s.workers[w].Picked? && s.workers[w].item.path == p && fault && !applied
    && LastItem(s.queue, p).None? && ViewOf(s, p).stored != want
  }

  /** A retry goes behind newer work that does something else. */
  predicate RetriesLate(s: State, w: nat, p: Path, want: Content)
    requires w < |s.workers|
  {
    && s.workers[w].Acted? && s.workers[w].outcome == Retry && s.workers[w].item.path == p && p !in s.index
    && LastItem(s.queue, p).Some? && !Does(s.workers[w].item, want)
  }

  /** A worker without a provider lets go of the newest item. */
  predicate LetsGo(s: State, w: nat, p: Path, want: Content)
    requires w < |s.workers|
  {
    && s.workers[w].Picked? && s.workers[w].item.path == p && LastItem(s.queue, p).None?
    && !OnTrack(ViewOf(s, p).(held := Idle), want)
  }

  /** A drain drops the record of the newest item, or puts an older item behind it. */
  predicate DrainLoses(s: State, prefix: Path, order: seq<Path>, p: Path, want: Content) {
    p in order
    && ((DrainDrops(s, prefix, p) && !Newest(ViewOf(s, p), want))
        || (DrainRequeues(s, prefix, p) && !Does(s.failed[p], want)))
  }

  predicate Loses(s: State, step: Step, fingerprint: Bytes -> int, p: Path, want: Content) {
    match step
    case DoEnqueue(kind, path, data, skip, bestEffort, expired) =>
      path == p && DropsNew(s, NewItem(kind, path, data, skip, bestEffort), expired, fingerprint)
    case DoPick(w, due) => w < |s.workers| && Overtakes(s, w, due, p, want)
    case DoAct(w, _, _, fault, applied) => w < |s.workers| && FaultEnds(s, w, fault, applied, p, want)
    case DoRequeue(w) => w < |s.workers| && RetriesLate(s, w, p, want)
    case DoFinish(_) => false
    case DoAbandon(w) => w < |s.workers| && LetsGo(s, w, p, want)
    case DoRequeueFailed(prefix, order) => DrainLoses(s, prefix, order, p, want)
    case DoClearFailed(_) => false
  }

  // ---- the branches that reorder ----

  /** The last work in line for the path does what is wanted. */
  predicate LineEnds(q: seq<Node>, p: Path, want: Content) {
    LastItem(q, p).Some? && Does(LastItem(q, p).value, want)
  }

  /** An unconditional upload ends up last in line unless it is taken for a repetition while something else is last. */
  lemma EnqueuedIsLast(s: State, item: Item, expired: set<Path>, fingerprint: Bytes -> int)
    requires Inv(s) && item.kind == Upload && !item.skipIfExists
    ensures IndexLive(s)
    ensures LineEnds(Enqueue(s, item, expired, fingerprint).queue, item.path, ContentOf(item)) <==>
            !Repeats(s, item, expired, fingerprint) || LineEnds(s.queue, item.path, ContentOf(item))
  {
    EnqueueView(s, item, expired, fingerprint, item.path);
    hide Inv, IndexLive, Enqueue, Repeats, LastItem, HolderOf;
  }

  /** A pick leaves an earlier node for its path behind exactly if there is one that is not due. */
  lemma PickOvertakes(s: State, due: set<nat>)
    ensures var i := FirstEligible(s.queue, s.active, due);
            i < |s.queue| ==>
              (LastItem(s.queue[..i], s.queue[i].item.path).Some? <==>
               exists k :: 0 <= k < i && s.queue[k].item.path == s.queue[i].item.path && s.queue[k].id !in due)
  {
    var i := FirstEligible(s.queue, s.active, due);
    if i < |s.queue| {
      var p := s.queue[i].item.path;
      NoneQueued(s.queue[..i], p);
      hide FirstEligible, LastItem;
      if k :| 0 <= k < i && s.queue[k].item.path == p {
        assert s.queue[..i][k].item.path == p;
      }
    }
  }

  /** A drain puts a recorded item at the end of the queue exactly if it is not best-effort, has requeues left and
      nobody is working on its path; otherwise the queue stays as it is. */
  lemma DrainAppends(s: State, prefix: Path, p: Path)
    requires Inv(s)
    ensures var q, t := s.queue, RequeueFailed(s, prefix, p).queue;
            && (DrainRequeues(s, prefix, p) <==> t != q)
            && (DrainRequeues(s, prefix, p) ==> t == q + [Node(s.nextId, Again(s.failed[p]))])
  {
    hide Inv, Push, Forget;
    if p in s.failed {
      RecordedPath(s, p);
      PushedQueue(Forget(s, p), Again(s.failed[p]));
      ForgotQueue(s, p);
    }
  }

  lemma PushedQueue(s: State, item: Item)
    ensures Push(s, item).queue == s.queue + [Node(s.nextId, item)] != s.queue
  {
    assert |s.queue + [Node(s.nextId, item)]| == |s.queue| + 1;
  }

  lemma ForgotQueue(s: State, p: Path)
    ensures Forget(s, p).queue == s.queue && Forget(s, p).nextId == s.nextId
  {
  }

  // ---- they lose it, and no others do ----

  lemma EnqueueTracks(s: State, item: Item, expired: set<Path>, fingerprint: Bytes -> int, p: Path, want: Content)
    requires Inv(s) && (item.kind == Delete || !item.skipIfExists || item.path != p)
    requires if item.path == p then want == ContentOf(item) else OnTrack(ViewOf(s, p), want)
    ensures IndexLive(s)
    ensures OnTrack(ViewOf(Enqueue(s, item, expired, fingerprint), p), want) <==>
              !(item.path == p && DropsNew(s, item, expired, fingerprint))
  {
    EnqueueView(s, item, expired, fingerprint, p);
    hide Inv, IndexLive, Enqueue, ViewOf, Duplicate;
  }

  lemma PickTracks(s: State, w: nat, due: set<nat>, p: Path, want: Content)
    requires Inv(s) && w < |s.workers| && OnTrack(ViewOf(s, p), want)
    ensures OnTrack(ViewOf(Pick(s, w, due), p), want) <==> !Overtakes(s, w, due, p, want)
  {
    hide Inv, Pick, FirstEligible, LastItem, HolderOf;
    PickView(s, w, due, p);
  }

  lemma ActTracks(s: State, w: nat, found: Exists, ok: bool, fault: bool, applied: bool, p: Path, want: Content)
    requires Inv(s) && w < |s.workers| && OnTrack(ViewOf(s, p), want)
    ensures OnTrack(ViewOf(Act(s, w, found, ok, fault, applied), p), want) <==>
              !FaultEnds(s, w, fault, applied, p, want)
  {
    hide Inv, Act, LastItem, HolderOf;
    ActView(s, w, found, ok, fault, applied, p);
  }

  lemma RequeueTracks(s: State, w: nat, p: Path, want: Content)
    requires Inv(s) && w < |s.workers| && OnTrack(ViewOf(s, p), want)
    ensures OnTrack(ViewOf(Requeue(s, w), p), want) <==> !RetriesLate(s, w, p, want)
  {
    IndexedQueued(s, p);
    hide Inv, Requeue, LastItem, HolderOf;
    RequeueView(s, w, p);
  }

  lemma IndexedQueued(s: State, p: Path)
    requires Inv(s)
    ensures p in s.index ==> LastItem(s.queue, p).Some?
  {
    NoneQueued(s.queue, p);
    hide LastItem;
  }

  lemma FinishTracks(s: State, w: nat, fingerprint: Bytes -> int, p: Path, want: Content)
    requires Inv(s) && w < |s.workers| && OnTrack(ViewOf(s, p), want)
    ensures OnTrack(ViewOf(Finish(s, w, fingerprint), p), want)
  {
    hide Inv, Finish, LastItem, HolderOf;
    FinishView(s, w, fingerprint, p);
  }

  lemma AbandonTracks(s: State, w: nat, p: Path, want: Content)
    requires Inv(s) && w < |s.workers| && OnTrack(ViewOf(s, p), want)
    ensures OnTrack(ViewOf(Abandon(s, w), p), want) <==> !LetsGo(s, w, p, want)
  {
    hide Inv, Abandon, LastItem, HolderOf;
    AbandonView(s, w, p);
  }

  lemma DrainTracks(s: State, prefix: Path, order: seq<Path>, p: Path, want: Content)
    requires Inv(s) && OnTrack(ViewOf(s, p), want)
    ensures OnTrack(ViewOf(RequeueAll(s, prefix, order), p), want) <==> !DrainLoses(s, prefix, order, p, want)
  {
    hide Inv, RequeueAll, LastItem, HolderOf;
    RequeueAllView(s, prefix, order, p);
    IdleIsInactive(s, p);
  }

  lemma IdleIsInactive(s: State, p: Path)
    requires Inv(s)
    ensures HolderOf(s.workers, p) == Idle <==> p !in s.active
  {
    NoHolder(s.workers, p);
    hide HolderOf;
  }

  /** The newest work on a path stays on track exactly through the steps that do not lose it. */
  lemma StaysOnTrack(s: State, step: Step, fingerprint: Bytes -> int, p: Path, want: Content)
    requires Inv(s) && Unconditional(step, p) && want == Wanted(step, p, want)
    requires (step.DoEnqueue? && step.path == p) || OnTrack(ViewOf(s, p), want)
    ensures OnTrack(ViewOf(Next(s, step, fingerprint), p), want) <==> !Loses(s, step, fingerprint, p, want)
  {
    match step
    case DoEnqueue(kind, path, data, skip, bestEffort, expired) =>
      EnqueueTracks(s, NewItem(kind, path, data, skip, bestEffort), expired, fingerprint, p, want);
    case DoPick(w, due) => if w < |s.workers| { PickTracks(s, w, due, p, want); }
    case DoAct(w, e, ok, fault, applied) => if w < |s.workers| { ActTracks(s, w, e, ok, fault, applied, p, want); }
    case DoRequeue(w) => if w < |s.workers| { RequeueTracks(s, w, p, want); }
    case DoFinish(w) => if w < |s.workers| { FinishTracks(s, w, fingerprint, p, want); }
    case DoAbandon(w) => if w < |s.workers| { AbandonTracks(s, w, p, want); }
    case DoRequeueFailed(prefix, order) => DrainTracks(s, prefix, order, p, want);
    case DoClearFailed(prefix) => assert ViewOf(ClearFailed(s, prefix), p) == ViewOf(s, p);
    hide Inv, Enqueue, Pick, Act, Requeue, Finish, Abandon, RequeueAll, ClearFailed, ViewOf, OnTrack;
    hide DropsNew, Overtakes, FaultEnds, RetriesLate, LetsGo, DrainLoses;
  }

  // ---- whole runs ----

  ghost function RunFrom(s: State, steps: seq<Step>, fingerprint: Bytes -> int): (t: State)
    requires Inv(s)
    ensures Inv(t)
    decreases |steps|
  {
    if |steps| == 0 then s else RunFrom(Apply(s, steps[0], fingerprint), steps[1..], fingerprint)
  }

  function WantedAfter(steps: seq<Step>, p: Path, want: Content): Content
    decreases |steps|
  {
    if |steps| == 0 then want else WantedAfter(steps[1..], p, Wanted(steps[0], p, want))
  }

  ghost predicate NeverLost(s: State, steps: seq<Step>, fingerprint: Bytes -> int, p: Path, want: Content)
    requires Inv(s)
    decreases |steps|
  {
    |steps| == 0 ||
    (Unconditional(steps[0], p) && !Loses(s, steps[0], fingerprint, p, Wanted(steps[0], p, want))
     && NeverLost(Apply(s, steps[0], fingerprint), steps[1..], fingerprint, p, Wanted(steps[0], p, want)))
  }

  /** Nothing for the path is queued or held by a worker. */
  predicate Quiet(v: View) {
    v.queued == None && v.held == Idle
  }

  /** The last writer wins in every run without a losing step, whatever fails, is retried or requeued on the way: once
      the path is quiet, the provider holds what the work enqueued last for it asks for, or that work is on record as
      failed. */
  lemma {:induction false} LastWriterWins(s: State, steps: seq<Step>, fingerprint: Bytes -> int, p: Path, want: Content)
    requires Inv(s) && OnTrack(ViewOf(s, p), want) && NeverLost(s, steps, fingerprint, p, want)
    ensures var v, last := ViewOf(RunFrom(s, steps, fingerprint), p), WantedAfter(steps, p, want);
            && OnTrack(v, last)
            && (Quiet(v) ==> v.stored == last || (v.failed.Some? && Does(v.failed.value, last)))
    decreases |steps|
  {
    hide Inv, Loses, Next, ViewOf, Unconditional;
    if |steps| == 0 {
    } else {
      var w := Wanted(steps[0], p, want);
      assert w == Wanted(steps[0], p, w);
      StaysOnTrack(s, steps[0], fingerprint, p, w);
      LastWriterWins(Apply(s, steps[0], fingerprint), steps[1..], fingerprint, p, w);
    }
  }
}
