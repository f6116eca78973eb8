/** A path that is only ever uploaded to: at most one upload for it is queued, and the last one enqueued wins unless it
    is dropped as a repetition, a drain puts an older one behind it, or it is given up. */
module WorkQueueUploads {
  import opened WorkQueueModel
  import opened WorkQueueSafety
  import opened WorkQueueRuns
  import opened WorkQueueLastWriter

  /** Every node queued for p is the one the index points at. */
  predicate Alone(s: State, p: Path) {
    forall i :: 0 <= i < |s.queue| && s.queue[i].item.path == p ==> p in s.index && s.index[p] == s.queue[i].id
  }

  predicate Uploading(v: View) {
    (Busy(v.held) ==> v.held.item.kind == Upload) && (v.failed.Some? ==> v.failed.value.kind == Upload)
  }

  ghost predicate OnlyUploads(s: State, p: Path) {
    Alone(s, p) && Uploading(ViewOf(s, p))
  }

  // ---- one node at a time ----

  lemma AloneQueued(s: State, p: Path)
    requires Inv(s) && Alone(s, p)
    ensures LastItem(s.queue, p).Some? <==> p in s.index
  {
    NoneQueued(s.queue, p);
    hide LastItem;
  }

  lemma AloneBefore(s: State, i: nat, p: Path)
    requires Inv(s) && Alone(s, p) && i < |s.queue| && s.queue[i].item.path == p
    ensures LastItem(s.queue[..i], p).None? && LastItem(s.queue[i + 1..], p).None?
    ensures forall k :: 0 <= k < |s.queue| && k != i ==> s.queue[k].item.path != p
  {
    assert DistinctIds(s.queue, s.nextId);
    NoneQueued(s.queue[..i], p);
    NoneQueued(s.queue[i + 1..], p);
    hide LastItem;
  }

  lemma PushAlone(s: State, item: Item, p: Path)
    requires Alone(s, p) && (item.path == p ==> item.kind == Upload && p !in s.index)
    ensures Alone(Push(s, item), p)
  {
  }

  lemma CutAlone(s: State, t: State, i: nat, p: Path)
    requires Inv(s) && Alone(s, p) && i < |s.queue| && t.queue == s.queue[..i] + s.queue[i + 1..]
    requires p in s.index && s.queue[i].item.path != p ==> p in t.index && t.index[p] == s.index[p]
    ensures Alone(t, p)
  {
    if s.queue[i].item.path == p {
      AloneBefore(s, i, p);
    }
    hide Inv;
    forall k | 0 <= k < |t.queue| && t.queue[k].item.path == p
      ensures p in t.index && t.index[p] == t.queue[k].id
    {
      assert t.queue[k] == s.queue[if k < i then k else k + 1];
    }
  }

  lemma ReplaceAlone(s: State, item: Item, p: Path)
    requires Inv(s) && Alone(s, p) && item.path in s.index && item.kind == Upload
    ensures Alone(Replace(s, item), p)
  {
    hide Inv, Lookup, Without, Push, Alone;
    IndexedNode(s, item.path);
    var i := Lookup(s.queue, s.index[item.path]);
    var s1 := s.(queue := Without(s.queue, s.index[item.path]), index := s.index - {item.path});
    CutAlone(s, s1, i, p);
    PushAlone(s1, if item.skipIfExists && !s.queue[i].item.skipIfExists then s.queue[i].item else item, p);
  }

  lemma EnqueueAlone(s: State, item: Item, expired: set<Path>, fingerprint: Bytes -> int, p: Path)
    requires Inv(s) && Alone(s, p) && (item.path == p ==> item.kind == Upload)
    ensures IndexLive(s) && Alone(Enqueue(s, item, expired, fingerprint), p)
  {
    EnqueueIs(s, item, expired, fingerprint);
    ClearedOk(s, item, expired, p);
    var s1 := Cleared(s, item, expired);
    assert Alone(s1, p);
    hide Inv, Alone, Cleared, Enqueue, Push, Replace, Repeats, ViewOf;
    if item.kind == Upload && item.path in s1.index {
      ReplaceAlone(s1, item, p);
    } else {
      PushAlone(s1, item, p);
    }
  }

  lemma PickAlone(s: State, w: nat, due: set<nat>, p: Path)
    requires Inv(s) && w < |s.workers| && Alone(s, p)
    ensures Alone(Pick(s, w, due), p)
  {
    hide Inv, FirstEligible, Bump, Alone;
    var i := FirstEligible(s.queue, s.active, due);
    if s.workers[w] == Idle && i < |s.queue| {
      CutAlone(s, Pick(s, w, due), i, p);
    }
  }

  lemma RequeueAlone(s: State, w: nat, p: Path)
    requires Inv(s) && w < |s.workers| && OnlyUploads(s, p)
    ensures Alone(Requeue(s, w), p)
  {
    hide Inv, LastItem, HolderOf, Push, ClearForRetry;
    RequeueView(s, w, p);
    if s.workers[w].Acted? && s.workers[w].outcome == Retry {
      var item := s.workers[w].item;
      var x := Acted(item, if item.path in s.index then Stale else Requeued);
      var t := ClearForRetry(s, item).(workers := s.workers[w := x]);
      RetryCleared(s, item);
      assert Alone(t, p);
      if item.path !in s.index {
        PushAlone(t, item, p);
      }
    }
  }

  lemma DrainOneAlone(s: State, prefix: Path, r: Path, p: Path)
    requires Inv(s) && OnlyUploads(s, p) && (r == p && DrainRequeues(s, prefix, p) ==> p !in s.index)
    ensures Alone(RequeueFailed(s, prefix, r), p)
  {
    hide Inv, LastItem, HolderOf, Push, Forget, Alone;
    if r in s.failed {
      RecordedPath(s, r);
      ForgotAlone(s, r, p);
      if DrainRequeues(s, prefix, r) {
        PushAlone(Forget(s, r), Again(s.failed[r]), p);
      } else if !DrainDrops(s, prefix, r) {
        SameQueueAlone(s, RequeueFailed(s, prefix, r), p);
      }
    }
  }

  lemma SameQueueAlone(s: State, t: State, p: Path)
    requires Alone(s, p) && t.queue == s.queue && t.index == s.index
    ensures Alone(t, p)
  {
  }

  lemma {:induction false} DrainAlone(s: State, prefix: Path, order: seq<Path>, p: Path)
    requires Inv(s) && OnlyUploads(s, p) && (p in order && DrainRequeues(s, prefix, p) ==> p !in s.index)
    ensures Alone(RequeueAll(s, prefix, order), p)
  {
    if |order| == 0 {
    } else {
      var k := |order| - 1;
      var t := RequeueAll(s, prefix, order[..k]);
      InFront(order, p);
      DrainAlone(s, prefix, order[..k], p);
      RequeueAllView(s, prefix, order[..k], p);
      AloneQueued(s, p);
      AloneQueued(t, p);
      hide Inv, Alone, LastItem, HolderOf, RequeueFailed;
      assert DrainRequeues(t, prefix, p) ==> ViewOf(t, p).failed.Some?;
      DrainOneAlone(t, prefix, order[k], p);
    }
  }

  lemma ForgotAlone(s: State, r: Path, p: Path)
    requires Alone(s, p)
    ensures Alone(Forget(s, r), p) && Forget(s, r).index == s.index
  {
  }

  // ---- one step ----

  /** On track, and a failure record that nothing is about to replace is one of the newest work. */
  predicate Steady(v: View, want: Content) {
    && OnTrack(v, want)
    && (v.queued.None? && v.failed.Some? && Settled(v.held) ==> Does(v.failed.value, want))
  }

  /** The worker will leave the failure records as they are. */
  predicate Settled(w: Worker) {
    w.Idle? || (w.Acted? && w.outcome in {Faulted, Stale, Requeued})
  }

  /** The two things that let an older upload win: a different upload dropped as a repetition, and a drain that requeues
      a failed upload while a newer one is queued. */
  predicate InTurn(s: State, step: Step, fingerprint: Bytes -> int, p: Path) {
    match step
    case DoEnqueue(kind, path, data, skip, bestEffort, expired) =>
      path == p ==>
        kind == Upload && !skip && !DropsNew(s, NewItem(kind, path, data, skip, bestEffort), expired, fingerprint)
    case DoRequeueFailed(prefix, order) => p in order && DrainRequeues(s, prefix, p) ==> p !in s.index
    case _ => true
  }

  /** The newest upload is given up: a fault or a missing provider ends it, or a drain drops its record. */
  predicate GivesUp(s: State, step: Step, p: Path) {
    match step
    case DoAct(w, _, _, fault, _) => w < |s.workers| && s.workers[w].Picked? && s.workers[w].item.path == p
    && fault && LastItem(s.queue, p).None?
    case DoAbandon(w) => w < |s.workers| && s.workers[w].Picked? && s.workers[w].item.path == p
    && LastItem(s.queue, p).None?
    case DoRequeueFailed(prefix, order) => p in order && DrainDrops(s, prefix, p) && Quiet(ViewOf(s, p))
    case _ => false
  }

  lemma EnqueueSteady(s: State, item: Item, expired: set<Path>, fingerprint: Bytes -> int, p: Path, want: Content)
    requires Inv(s) && OnlyUploads(s, p)
             && (item.path == p ==>
                   item.kind == Upload && !item.skipIfExists && !DropsNew(s, item, expired, fingerprint))
    requires if item.path == p then want == ContentOf(item) else Steady(ViewOf(s, p), want)
    ensures IndexLive(s)
    ensures OnlyUploads(Enqueue(s, item, expired, fingerprint), p)
            && Steady(ViewOf(Enqueue(s, item, expired, fingerprint), p), want)
  {
    EnqueueAlone(s, item, expired, fingerprint, p);
    EnqueueTracks(s, item, expired, fingerprint, p, want);
    EnqueueView(s, item, expired, fingerprint, p);
    hide Inv, IndexLive, Enqueue, ViewOf, Alone, DropsNew, Repeats, OnTrack;
  }

  lemma PickSteady(s: State, w: nat, due: set<nat>, p: Path, want: Content)
    requires Inv(s) && w < |s.workers| && OnlyUploads(s, p)
    ensures OnlyUploads(Pick(s, w, due), p)
    ensures Steady(ViewOf(s, p), want) ==> Steady(ViewOf(Pick(s, w, due), p), want)
  {
    hide Inv, Pick, FirstEligible, LastItem, HolderOf, Alone;
    var i := FirstEligible(s.queue, s.active, due);
    PickAlone(s, w, due, p);
    PickView(s, w, due, p);
    if i < |s.queue| && s.queue[i].item.path == p {
      AloneBefore(s, i, p);
      QueuedUpload(s, i, p);
    }
  }

  lemma QueuedUpload(s: State, i: nat, p: Path)
    requires Inv(s) && Alone(s, p) && i < |s.queue| && s.queue[i].item.path == p
    ensures s.queue[i].item.kind == Upload
  {
    assert DistinctIds(s.queue, s.nextId);
    var k :| 0 <= k < |s.queue| && s.queue[k].id == s.index[p] && s.queue[k].item.kind == Upload
        && s.queue[k].item.path == p;
  }

  lemma ActSteady(s: State, w: nat, found: Exists, ok: bool, fault: bool, applied: bool, p: Path, want: Content)
    requires Inv(s) && w < |s.workers| && OnlyUploads(s, p)
    ensures OnlyUploads(Act(s, w, found, ok, fault, applied), p)
    ensures Steady(ViewOf(s, p), want)
            && !(s.workers[w].Picked? && s.workers[w].item.path == p && fault && LastItem(s.queue, p).None?) ==>
              Steady(ViewOf(Act(s, w, found, ok, fault, applied), p), want)
  {
    hide Inv, Act, LastItem, HolderOf, Alone;
    ActView(s, w, found, ok, fault, applied, p);
    ActQueue(s, w, found, ok, fault, applied);
    SameQueueAlone(s, Act(s, w, found, ok, fault, applied), p);
    if OnTrack(ViewOf(s, p), want) {
      ActTracks(s, w, found, ok, fault, applied, p, want);
    }
  }

  lemma ActQueue(s: State, w: nat, found: Exists, ok: bool, fault: bool, applied: bool)
    requires w < |s.workers|
    ensures var t := Act(s, w, found, ok, fault, applied); t.queue == s.queue && t.index == s.index
  {
    hide Process, Touches;
  }

  lemma RequeueSteady(s: State, w: nat, p: Path, want: Content)
    requires Inv(s) && w < |s.workers| && OnlyUploads(s, p)
    ensures OnlyUploads(Requeue(s, w), p)
    ensures Steady(ViewOf(s, p), want) ==> Steady(ViewOf(Requeue(s, w), p), want)
  {
    hide Inv, Requeue, LastItem, HolderOf, Alone;
    RequeueAlone(s, w, p);
    AloneQueued(s, p);
    RequeueView(s, w, p);
    if OnTrack(ViewOf(s, p), want) {
      RequeueTracks(s, w, p, want);
    }
  }

  lemma FinishSteady(s: State, w: nat, fingerprint: Bytes -> int, p: Path, want: Content)
    requires Inv(s) && w < |s.workers| && OnlyUploads(s, p)
    ensures OnlyUploads(Finish(s, w, fingerprint), p)
    ensures Steady(ViewOf(s, p), want) ==> Steady(ViewOf(Finish(s, w, fingerprint), p), want)
  {
    hide Inv, Finish, LastItem, HolderOf, Alone;
    FinishView(s, w, fingerprint, p);
    FinishIs(s, w, fingerprint);
    SameQueueAlone(s, Finish(s, w, fingerprint), p);
  }

  lemma AbandonSteady(s: State, w: nat, p: Path, want: Content)
    requires Inv(s) && w < |s.workers| && OnlyUploads(s, p)
    ensures OnlyUploads(Abandon(s, w), p)
    ensures Steady(ViewOf(s, p), want)
            && !(s.workers[w].Picked? && s.workers[w].item.path == p && LastItem(s.queue, p).None?) ==>
              Steady(ViewOf(Abandon(s, w), p), want)
  {
    hide Inv, LastItem, HolderOf, Alone, Drop;
    AbandonView(s, w, p);
    SameQueueAlone(s, Abandon(s, w), p);
  }

  lemma DrainSteady(s: State, prefix: Path, order: seq<Path>, p: Path, want: Content)
    requires Inv(s) && OnlyUploads(s, p) && (p in order && DrainRequeues(s, prefix, p) ==> p !in s.index)
    ensures OnlyUploads(RequeueAll(s, prefix, order), p)
    ensures Steady(ViewOf(s, p), want) && !(p in order && DrainDrops(s, prefix, p) && Quiet(ViewOf(s, p))) ==>
              Steady(ViewOf(RequeueAll(s, prefix, order), p), want)
  {
    hide Inv, RequeueAll, LastItem, HolderOf, Alone;
    DrainAlone(s, prefix, order, p);
    RequeueAllView(s, prefix, order, p);
    AloneQueued(s, p);
    IdleIsInactive(s, p);
  }

  /** In turn, an upload path stays one, and its newest upload stays on track unless it is given up. */
  lemma StaysSteady(s: State, step: Step, fingerprint: Bytes -> int, p: Path, want: Content)
    requires Inv(s) && OnlyUploads(s, p) && InTurn(s, step, fingerprint, p) && want == Wanted(step, p, want)
    ensures OnlyUploads(Next(s, step, fingerprint), p)
    ensures ((step.DoEnqueue? && step.path == p) || Steady(ViewOf(s, p), want)) && !GivesUp(s, step, p) ==>
              Steady(ViewOf(Next(s, step, fingerprint), p), want)
  {
    hide Inv, Enqueue, Pick, Act, Requeue, Finish, Abandon, RequeueAll, ViewOf, OnlyUploads, Steady, DropsNew,
         DrainRequeues, DrainDrops;
    match step
    case DoEnqueue(kind, path, data, skip, bestEffort, expired) =>
      if path == p || Steady(ViewOf(s, p), want) {
        EnqueueSteady(s, NewItem(kind, path, data, skip, bestEffort), expired, fingerprint, p, want);
      } else {
        EnqueueElsewhere(s, NewItem(kind, path, data, skip, bestEffort), expired, fingerprint, p);
      }
    case DoPick(w, due) => if w < |s.workers| { PickSteady(s, w, due, p, want); }
    case DoAct(w, e, ok, fault, applied) => if w < |s.workers| { ActSteady(s, w, e, ok, fault, applied, p, want); }
    case DoRequeue(w) => if w < |s.workers| { RequeueSteady(s, w, p, want); }
    case DoFinish(w) => if w < |s.workers| { FinishSteady(s, w, fingerprint, p, want); }
    case DoAbandon(w) => if w < |s.workers| { AbandonSteady(s, w, p, want); }
    case DoRequeueFailed(prefix, order) => DrainSteady(s, prefix, order, p, want);
    case DoClearFailed(prefix) => ClearFailedView(s, prefix, p);
  }

  lemma EnqueueElsewhere(s: State, item: Item, expired: set<Path>, fingerprint: Bytes -> int, p: Path)
    requires Inv(s) && OnlyUploads(s, p) && item.path != p
    ensures IndexLive(s) && OnlyUploads(Enqueue(s, item, expired, fingerprint), p)
  {
    EnqueueAlone(s, item, expired, fingerprint, p);
    EnqueueView(s, item, expired, fingerprint, p);
    hide Inv, IndexLive, Enqueue, ViewOf, Alone;
  }

  lemma ClearFailedView(s: State, prefix: Path, p: Path)
    ensures ViewOf(ClearFailed(s, prefix), p) == ViewOf(s, p)
    ensures OnlyUploads(s, p) ==> OnlyUploads(ClearFailed(s, prefix), p)
  {
  }

  // ---- whole runs ----

  ghost predicate TakesTurns(s: State, steps: seq<Step>, fingerprint: Bytes -> int, p: Path)
    requires Inv(s)
    decreases |steps|
  {
    |steps| == 0
    || (InTurn(s, steps[0], fingerprint, p) && TakesTurns(Apply(s, steps[0], fingerprint), steps[1..], fingerprint, p))
  }

  /** Whether the newest upload has been given up, and no newer one enqueued since. */
  ghost function GivenUp(s: State, steps: seq<Step>, fingerprint: Bytes -> int, p: Path, before: bool): bool
    requires Inv(s)
    decreases |steps|
  {
    if |steps| == 0 then before
    else
      var now := !(steps[0].DoEnqueue? && steps[0].path == p) && (before || GivesUp(s, steps[0], p));
      GivenUp(Apply(s, steps[0], fingerprint), steps[1..], fingerprint, p, now)
  }

  /** On a path that is only uploaded to the last upload enqueued wins, whatever fails, faults, is retried or requeued:
      once the path is quiet the provider holds it, or it is on record as failed, or it was given up. */
  lemma {:induction false} LastUploadWins(s: State, steps: seq<Step>, fingerprint: Bytes -> int, p: Path, want: Content,
                                          before: bool)
    requires Inv(s) && OnlyUploads(s, p) && TakesTurns(s, steps, fingerprint, p)
             && (before || Steady(ViewOf(s, p), want))
    ensures var v, last := ViewOf(RunFrom(s, steps, fingerprint), p), WantedAfter(steps, p, want);
            || GivenUp(s, steps, fingerprint, p, before)
            || (OnTrack(v, last) && (Quiet(v) ==> v.stored == last || (v.failed.Some? && Does(v.failed.value, last))))
    decreases |steps|
  {
    hide Inv, InTurn, GivesUp, Next, ViewOf, OnlyUploads;
    if |steps| == 0 {
    } else {
      var w := Wanted(steps[0], p, want);
      assert w == Wanted(steps[0], p, w);
      StaysSteady(s, steps[0], fingerprint, p, w);
      var now := !(steps[0].DoEnqueue? && steps[0].path == p) && (before || GivesUp(s, steps[0], p));
      EnqueueNeverGivesUp(s, steps[0], p);
      LastUploadWins(Apply(s, steps[0], fingerprint), steps[1..], fingerprint, p, w, now);
    }
  }

  lemma EnqueueNeverGivesUp(s: State, step: Step, p: Path)
    ensures step.DoEnqueue? ==> !GivesUp(s, step, p)
  {
  }

  /** From the start: any path, as long as nothing but unconditional uploads is enqueued for it. */
  lemma LastUploadWinsFromTheStart(threads: nat, cloud: map<Path, Bytes>, steps: seq<Step>, fingerprint: Bytes -> int,
                                   p: Path)
    requires TakesTurns(Initial(threads, cloud), steps, fingerprint, p)
    ensures var s := Initial(threads, cloud);
            var v, last := ViewOf(RunFrom(s, steps, fingerprint), p), WantedAfter(steps, p, ViewOf(s, p).stored);
            Quiet(v) && !GivenUp(s, steps, fingerprint, p, false) ==>
              v.stored == last || (v.failed.Some? && Does(v.failed.value, last))
  {
    var s := Initial(threads, cloud);
    StartsIdle(s.workers, p);
    LastUploadWins(s, steps, fingerprint, p, ViewOf(s, p).stored, false);
  }

  lemma StartsIdle(ws: seq<Worker>, p: Path)
    requires forall i :: 0 <= i < |ws| ==> ws[i] == Idle
    ensures HolderOf(ws, p) == Idle
  {
    NoHolder(ws, p);
  }
}
