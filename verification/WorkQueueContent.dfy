/** A content-addressed path: every upload for it carries the same bytes, and uploads may be conditional on nothing
    being there. Order does not matter then, and only a few named steps give the upload up. */
module WorkQueueContent {
  import opened Options
  import opened WorkQueueModel
  import opened WorkQueueSafety
  import opened WorkQueueRuns
  import opened WorkQueueLastWriter
  import WorkQueueUploads

  /** An upload of these bytes, unconditional or not. */
  predicate Carries(item: Item, d: Bytes) {
    item.kind == Upload && item.data == d
  }

  predicate AllCarry(q: seq<Node>, p: Path, d: Bytes) {
    forall i :: 0 <= i < |q| && q[i].item.path == p ==> Carries(q[i].item, d)
  }

  /** So does what a worker holds and what is on record as failed; the provider has nothing or these bytes, and it has
      them once an upload has succeeded. */
  predicate Uniform(v: View, d: Bytes) {
    && (Busy(v.held) ==> Carries(v.held.item, d)) && (v.failed.Some? ==> Carries(v.failed.value, d))
    && (v.stored == None || v.stored == Some(d))
    && (v.held.Acted? && v.held.outcome == Success(true) ==> v.stored == Some(d))
  }

  /** Only these bytes are about for the path, and a recent upload of it did arrive. */
  predicate Addressed(s: State, p: Path, d: Bytes) {
    && AllCarry(s.queue, p, d) && Uniform(ViewOf(s, p), d)
    && (p in s.recent ==> ViewOf(s, p).stored == Some(d))
  }

  /** The bytes are there, or some work that will bring them is at hand, or its failure is on record. */
  predicate Safe(v: View) {
    || v.stored.Some? || v.queued.Some? || v.held.Picked?
    || (v.held.Acted? && (v.held.outcome == Retry || v.held.outcome == Failed))
    || (v.failed.Some? && WorkQueueUploads.Settled(v.held))
  }

  // ---- the queue ----

  lemma PushCarries(s: State, item: Item, p: Path, d: Bytes)
    requires AllCarry(s.queue, p, d) && (item.path == p ==> Carries(item, d))
    ensures AllCarry(Push(s, item).queue, p, d)
  {
  }

  lemma CutCarries(q: seq<Node>, i: nat, p: Path, d: Bytes)
    requires AllCarry(q, p, d) && i < |q|
    ensures AllCarry(q[..i] + q[i + 1..], p, d)
  {
    var t := q[..i] + q[i + 1..];
    forall k | 0 <= k < |t| && t[k].item.path == p
      ensures Carries(t[k].item, d)
    {
      assert t[k] == q[if k < i then k else k + 1];
    }
  }

  /** Whichever of the two uploads stays queued, it goes to the end. */
  function Kept(s: State, item: Item): Item
    requires IndexLive(s) && item.path in s.index
  {
    var existing := s.queue[Lookup(s.queue, s.index[item.path])].item;
    if item.skipIfExists && !existing.skipIfExists then existing else item
  }

  lemma ReplaceIs(s: State, item: Item)
    requires Inv(s) && item.path in s.index
    ensures IndexLive(s)
    ensures var i := Lookup(s.queue, s.index[item.path]);
            && (Kept(s, item) == item || Kept(s, item) == s.queue[i].item) && s.queue[i].item.path == item.path
            && Replace(s, item) ==
               Push(s.(queue := s.queue[..i] + s.queue[i + 1..], index := s.index - {item.path}), Kept(s, item))
  {
    IndexedNode(s, item.path);
    hide Inv, IndexLive, Lookup, Without, Push;
  }

  lemma ReplaceCarries(s: State, item: Item, p: Path, d: Bytes)
    requires Inv(s) && item.path in s.index && AllCarry(s.queue, p, d) && (item.path == p ==> Carries(item, d))
    ensures IndexLive(s)
    ensures AllCarry(Replace(s, item).queue, p, d) && (item.path == p ==> ViewOf(Replace(s, item), p).queued.Some?)
    ensures var t := Replace(s, item);
            t.recent == s.recent && t.workers == s.workers && t.cloud == s.cloud && t.failed == s.failed
  {
    hide *;
    ReplaceIs(s, item);
    var i := Lookup(s.queue, s.index[item.path]);
    var s1 := s.(queue := s.queue[..i] + s.queue[i + 1..], index := s.index - {item.path});
    CutCarries(s.queue, i, p, d);
    if item.path == p {
      Carried(s.queue, i, p, d);
    }
    PushCarries(s1, Kept(s, item), p, d);
    PushView(s1, Kept(s, item), p);
    PushIs(s1, Kept(s, item));
  }

  lemma PushIs(s: State, item: Item)
    ensures var t := Push(s, item);
            t.recent == s.recent && t.workers == s.workers && t.cloud == s.cloud && t.failed == s.failed
  {
  }

  lemma Carried(q: seq<Node>, i: nat, p: Path, d: Bytes)
    requires AllCarry(q, p, d) && i < |q| && q[i].item.path == p
    ensures Carries(q[i].item, d)
  {
  }

  // ---- one step ----

  lemma ClearedContent(s: State, item: Item, expired: set<Path>, p: Path, d: Bytes)
    requires Inv(s) && Addressed(s, p, d)
    ensures var t := Cleared(s, item, expired);
            Inv(t) && Addressed(t, p, d) && t.queue == s.queue && t.recent.Keys <= s.recent.Keys
  {
    ClearedOk(s, item, expired, p);
    hide Inv, LastItem, HolderOf, AllCarry, Carries;
  }

  lemma EnqueueContent(s: State, item: Item, expired: set<Path>, fingerprint: Bytes -> int, p: Path, d: Bytes)
    requires Inv(s) && Addressed(s, p, d) && (item.path == p ==> Carries(item, d))
    ensures IndexLive(s)
    ensures var t := Enqueue(s, item, expired, fingerprint);
            Addressed(t, p, d) && if item.path == p then Safe(ViewOf(t, p)) else ViewOf(t, p) == ViewOf(s, p)
  {
    hide *;
    var s1 := Cleared(s, item, expired);
    EnqueueIs(s, item, expired, fingerprint);
    EnqueueView(s, item, expired, fingerprint, p);
    ClearedContent(s, item, expired, p, d);
    if Repeats(s, item, expired, fingerprint) {
      RepeatsArrived(s, item, expired, fingerprint, p, d);
    } else if item.kind == Upload && item.path in s1.index {
      ReplaceContent(s1, item, p, d);
    } else {
      PushContent(s1, item, p, d);
    }
  }

  lemma RepeatsArrived(s: State, item: Item, expired: set<Path>, fingerprint: Bytes -> int, p: Path, d: Bytes)
    requires Repeats(s, item, expired, fingerprint) && Addressed(Cleared(s, item, expired), p, d)
    ensures item.path == p ==> Safe(ViewOf(Cleared(s, item, expired), p))
  {
    hide LastItem, HolderOf, AllCarry, Uniform;
  }

  lemma ReplaceContent(s: State, item: Item, p: Path, d: Bytes)
    requires Inv(s) && IndexLive(s) && item.path in s.index && Addressed(s, p, d)
             && (item.path == p ==> Carries(item, d))
    ensures Addressed(Replace(s, item), p, d) && (item.path == p ==> Safe(ViewOf(Replace(s, item), p)))
  {
    ReplaceCarries(s, item, p, d);
    ReplaceView(s, item, p);
    hide Inv, IndexLive, Replace, LastItem, HolderOf, AllCarry, Carries;
  }

  lemma PushContent(s: State, item: Item, p: Path, d: Bytes)
    requires Addressed(s, p, d) && (item.path == p ==> Carries(item, d))
    ensures Addressed(Push(s, item), p, d) && (item.path == p ==> Safe(ViewOf(Push(s, item), p)))
  {
    PushCarries(s, item, p, d);
    PushView(s, item, p);
    hide AllCarry, Carries, LastItem, HolderOf;
  }

  lemma PickContent(s: State, w: nat, due: set<nat>, p: Path, d: Bytes)
    requires Inv(s) && w < |s.workers| && Addressed(s, p, d)
    ensures Addressed(Pick(s, w, due), p, d)
    ensures Safe(ViewOf(s, p)) ==> Safe(ViewOf(Pick(s, w, due), p))
  {
    hide Inv, FirstEligible, Bump, LastItem, HolderOf, AllCarry, Carries;
    var i := FirstEligible(s.queue, s.active, due);
    PickView(s, w, due, p);
    if s.workers[w] == Idle && i < |s.queue| {
      CutCarries(s.queue, i, p, d);
      if s.queue[i].item.path == p {
        Carried(s.queue, i, p, d);
      }
    }
  }

  /** The provider says that something is there although nothing is, or a fault ends the attempt before it had an
      effect; and no other work for the path is at hand. */
  predicate ActGivesUp(s: State, w: nat, found: Exists, fault: bool, applied: bool, p: Path)
    requires w < |s.workers|
  {
    var v := ViewOf(s, p);
    && s.workers[w].Picked? && s.workers[w].item.path == p && v.queued.None? && v.stored.None?
    && if fault then !applied && v.failed.None? else s.workers[w].item.skipIfExists && found == Present
  }

  lemma ActContent(s: State, w: nat, found: Exists, ok: bool, fault: bool, applied: bool, p: Path, d: Bytes)
    requires Inv(s) && w < |s.workers| && Addressed(s, p, d)
    ensures Addressed(Act(s, w, found, ok, fault, applied), p, d)
    ensures Safe(ViewOf(s, p)) ==>
              (Safe(ViewOf(Act(s, w, found, ok, fault, applied), p)) <==> !ActGivesUp(s, w, found, fault, applied, p))
  {
    hide Inv, Act, LastItem, HolderOf, AllCarry;
    ActView(s, w, found, ok, fault, applied, p);
    ActKeepsQueue(s, w, found, ok, fault, applied);
  }

  lemma ActKeepsQueue(s: State, w: nat, found: Exists, ok: bool, fault: bool, applied: bool)
    requires w < |s.workers|
    ensures var t := Act(s, w, found, ok, fault, applied); t.queue == s.queue && t.recent == s.recent
  {
    hide Process, Touches;
  }

  lemma RequeueContent(s: State, w: nat, p: Path, d: Bytes)
    requires Inv(s) && w < |s.workers| && Addressed(s, p, d)
    ensures Addressed(Requeue(s, w), p, d)
    ensures Safe(ViewOf(s, p)) ==> Safe(ViewOf(Requeue(s, w), p))
  {
    hide Inv, LastItem, HolderOf, Push, ClearForRetry, AllCarry, Carries;
    RequeueView(s, w, p);
    IndexedQueued(s, p);
    if s.workers[w].Acted? && s.workers[w].outcome == Retry {
      var item := s.workers[w].item;
      var x := Acted(item, if item.path in s.index then Stale else Requeued);
      var t := ClearForRetry(s, item).(workers := s.workers[w := x]);
      RetryCleared(s, item);
      RetryForgets(s, item);
      PushCarries(t, item, p, d);
      PushIs(t, item);
    }
  }

  lemma RetryForgets(s: State, item: Item)
    ensures ClearForRetry(s, item).recent.Keys <= s.recent.Keys
  {
  }

  lemma FinishContent(s: State, w: nat, fingerprint: Bytes -> int, p: Path, d: Bytes)
    requires Inv(s) && w < |s.workers| && Addressed(s, p, d)
    ensures Addressed(Finish(s, w, fingerprint), p, d)
    ensures Safe(ViewOf(s, p)) ==> Safe(ViewOf(Finish(s, w, fingerprint), p))
  {
    hide Inv, Finish, LastItem, HolderOf, AllCarry, Carries;
    FinishView(s, w, fingerprint, p);
    FinishIs(s, w, fingerprint);
    FinishRemembers(s, w, fingerprint, p);
  }

  /** Only an upload that succeeded is remembered. */
  lemma FinishRemembers(s: State, w: nat, fingerprint: Bytes -> int, p: Path)
    requires w < |s.workers|
    ensures p in Finish(s, w, fingerprint).recent ==>
              p in s.recent
              || (s.workers[w].Acted? && s.workers[w].outcome == Success(true) && s.workers[w].item.path == p)
  {
    hide Release, Record;
    if s.workers[w].Acted? {
      ReleaseForgets(s, w, s.workers[w].item);
      RecordRemembers(Release(s, w, s.workers[w].item), s.workers[w].item, s.workers[w].outcome, fingerprint, p);
    }
  }

  lemma ReleaseForgets(s: State, w: nat, item: Item)
    requires w < |s.workers|
    ensures Release(s, w, item).recent == s.recent
  {
    hide Drop;
  }

  lemma RecordRemembers(s: State, item: Item, outcome: Outcome, fingerprint: Bytes -> int, p: Path)
    ensures p in Record(s, item, outcome, fingerprint).recent ==>
              p in s.recent || (outcome == Success(true) && p == item.path)
  {
    hide Forget;
    ForgetRemembers(s, item.path);
    match outcome
    case Success(uploaded) =>
      if uploaded {
      } else if item.kind == Delete {
      }
    case _ =>
  }

  lemma ForgetRemembers(s: State, p: Path)
    ensures Forget(s, p).recent == s.recent
  {
  }

  lemma AbandonContent(s: State, w: nat, p: Path, d: Bytes)
    requires Inv(s) && w < |s.workers| && Addressed(s, p, d)
    ensures Addressed(Abandon(s, w), p, d)
    ensures Safe(ViewOf(s, p)) ==> (Safe(ViewOf(Abandon(s, w), p)) <==> !AbandonGivesUp(s, w, p))
  {
    hide Inv, LastItem, HolderOf, Drop, AllCarry, Carries;
    AbandonView(s, w, p);
  }

  /** A worker without a provider lets go of the only copy. */
  predicate AbandonGivesUp(s: State, w: nat, p: Path)
    requires w < |s.workers|
  {
    var v := ViewOf(s, p);
    s.workers[w].Picked? && s.workers[w].item.path == p && v.queued.None? && v.stored.None? && v.failed.None?
  }

  /** A drain drops the record that is all there is. */
  predicate DrainGivesUp(s: State, prefix: Path, order: seq<Path>, p: Path) {
    p in order && DrainDrops(s, prefix, p) && !Safe(ViewOf(s, p).(failed := None))
  }

  lemma DrainContent(s: State, prefix: Path, order: seq<Path>, p: Path, d: Bytes)
    requires Inv(s) && Addressed(s, p, d)
    ensures Addressed(RequeueAll(s, prefix, order), p, d)
    ensures Safe(ViewOf(s, p)) ==>
              (Safe(ViewOf(RequeueAll(s, prefix, order), p)) <==> !DrainGivesUp(s, prefix, order, p))
  {
    hide Inv, RequeueAll, LastItem, HolderOf, AllCarry;
    DrainCarries(s, prefix, order, p, d);
    RequeueAllView(s, prefix, order, p);
  }

  lemma {:induction false} DrainCarries(s: State, prefix: Path, order: seq<Path>, p: Path, d: Bytes)
    requires Inv(s) && Addressed(s, p, d)
    ensures var t := RequeueAll(s, prefix, order); AllCarry(t.queue, p, d) && t.recent == s.recent
  {
    if |order| > 0 {
      hide Inv, RequeueFailed, LastItem, HolderOf, AllCarry, Carries;
      var k := |order| - 1;
      var t := RequeueAll(s, prefix, order[..k]);
      DrainCarries(s, prefix, order[..k], p, d);
      RequeueAllView(s, prefix, order[..k], p);
      DrainedCarries(s, t, prefix, p, d, p in order[..k]);
      DrainOneCarries(t, prefix, order[k], p, d);
    }
  }

  lemma DrainedCarries(s: State, t: State, prefix: Path, p: Path, d: Bytes, done: bool)
    requires p in s.failed ==> Carries(s.failed[p], d)
    requires ViewOf(t, p) == if done then Drained(s, prefix, p) else ViewOf(s, p)
    ensures p in t.failed ==> Carries(t.failed[p], d)
  {
    hide LastItem, HolderOf;
    assert p in t.failed <==> ViewOf(t, p).failed.Some?;
  }

  lemma DrainOneCarries(s: State, prefix: Path, r: Path, p: Path, d: Bytes)
    requires Inv(s) && AllCarry(s.queue, p, d) && (p in s.failed ==> Carries(s.failed[p], d))
    ensures var t := RequeueFailed(s, prefix, r); AllCarry(t.queue, p, d) && t.recent == s.recent
  {
    hide Inv, AllCarry;
    if r in s.failed {
      RecordedPath(s, r);
      PushCarries(Forget(s, r), Again(s.failed[r]), p, d);
    }
  }

  /** Work enqueued for the path carries these bytes. */
  predicate Brings(step: Step, p: Path, d: Bytes) {
    step.DoEnqueue? && step.path == p ==> step.kind == Upload && step.data == d
  }

  predicate GivesUp(s: State, step: Step, p: Path) {
    match step
    case DoAct(w, found, _, fault, applied) => w < |s.workers| && ActGivesUp(s, w, found, fault, applied, p)
    case DoAbandon(w) => w < |s.workers| && AbandonGivesUp(s, w, p)
    case DoRequeueFailed(prefix, order) => DrainGivesUp(s, prefix, order, p)
    case _ => false
  }

  /** The path stays uniform; enqueueing makes its bytes safe, and exactly the steps named give them up. */
  lemma StaysSafe(s: State, step: Step, fingerprint: Bytes -> int, p: Path, d: Bytes)
    requires Inv(s) && Addressed(s, p, d) && Brings(step, p, d)
    ensures Addressed(Next(s, step, fingerprint), p, d)
    ensures (step.DoEnqueue? && step.path == p) || Safe(ViewOf(s, p)) ==>
              (Safe(ViewOf(Next(s, step, fingerprint), p)) <==> !GivesUp(s, step, p))
  {
    hide Inv, Enqueue, Pick, Act, Requeue, Finish, Abandon, RequeueAll, ClearFailed, ViewOf, Safe, Addressed;
    hide ActGivesUp, AbandonGivesUp, DrainGivesUp;
    match step
    case DoEnqueue(kind, path, data, skip, bestEffort, expired) =>
      EnqueueContent(s, NewItem(kind, path, data, skip, bestEffort), expired, fingerprint, p, d);
    case DoPick(w, due) => if w < |s.workers| { PickContent(s, w, due, p, d); }
    case DoAct(w, e, ok, fault, applied) => if w < |s.workers| { ActContent(s, w, e, ok, fault, applied, p, d); }
    case DoRequeue(w) => if w < |s.workers| { RequeueContent(s, w, p, d); }
    case DoFinish(w) => if w < |s.workers| { FinishContent(s, w, fingerprint, p, d); }
    case DoAbandon(w) => if w < |s.workers| { AbandonContent(s, w, p, d); }
    case DoRequeueFailed(prefix, order) => DrainContent(s, prefix, order, p, d);
    case DoClearFailed(prefix) => ClearFailedContent(s, prefix, p, d);
  }

  lemma ClearFailedContent(s: State, prefix: Path, p: Path, d: Bytes)
    requires Addressed(s, p, d)
    ensures Addressed(ClearFailed(s, prefix), p, d) && ViewOf(ClearFailed(s, prefix), p) == ViewOf(s, p)
  {
    hide AllCarry, LastItem, HolderOf;
  }

  // ---- whole runs ----

  /** Whether the bytes were asked for by the end of the run, and not given up since. */
  ghost function Held(s: State, steps: seq<Step>, fingerprint: Bytes -> int, p: Path, before: bool): bool
    requires Inv(s)
    decreases |steps|
  {
    if |steps| == 0 then before
    else
      var now := (steps[0].DoEnqueue? && steps[0].path == p) || (before && !GivesUp(s, steps[0], p));
      Held(Apply(s, steps[0], fingerprint), steps[1..], fingerprint, p, now)
  }

  lemma {:induction false} StaysHeld(s: State, steps: seq<Step>, fingerprint: Bytes -> int, p: Path, d: Bytes,
                                     before: bool)
    requires Inv(s) && Addressed(s, p, d) && (before ==> Safe(ViewOf(s, p)))
    requires forall i :: 0 <= i < |steps| ==> Brings(steps[i], p, d)
    ensures var t := RunFrom(s, steps, fingerprint);
            Addressed(t, p, d) && (Held(s, steps, fingerprint, p, before) ==> Safe(ViewOf(t, p)))
    decreases |steps|
  {
    hide Inv, GivesUp, Next, ViewOf, Addressed, Safe, Brings;
    if |steps| > 0 {
      StaysSafe(s, steps[0], fingerprint, p, d);
      EnqueueKeepsIt(s, steps[0], p);
      var now := (steps[0].DoEnqueue? && steps[0].path == p) || (before && !GivesUp(s, steps[0], p));
      StaysHeld(Apply(s, steps[0], fingerprint), steps[1..], fingerprint, p, d, now);
    }
  }

  lemma EnqueueKeepsIt(s: State, step: Step, p: Path)
    ensures step.DoEnqueue? ==> !GivesUp(s, step, p)
  {
  }

  /** From the start, in every run whose uploads for the path all carry the same bytes: the provider never holds
      anything else there, and once the path is quiet it holds them, or their failure is on record, unless they were
      given up. */
  lemma ContentArrives(threads: nat, cloud: map<Path, Bytes>, steps: seq<Step>, fingerprint: Bytes -> int, p: Path,
                       d: Bytes)
    requires (p in cloud ==> cloud[p] == d) && forall i :: 0 <= i < |steps| ==> Brings(steps[i], p, d)
    ensures var s := Initial(threads, cloud);
            var v := ViewOf(RunFrom(s, steps, fingerprint), p);
            && (v.stored == None || v.stored == Some(d))
            && (Quiet(v) && Held(s, steps, fingerprint, p, p in cloud) ==>
                  v.stored == Some(d) || (v.failed.Some? && Carries(v.failed.value, d)))
  {
    var s := Initial(threads, cloud);
    WorkQueueUploads.StartsIdle(s.workers, p);
    StaysHeld(s, steps, fingerprint, p, d, p in cloud);
    hide Inv, RunFrom, Held, LastItem, HolderOf;
  }
}
