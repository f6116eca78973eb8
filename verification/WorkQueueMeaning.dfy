/** The queue as a program: what a path would hold if everything held and queued for it were carried out now, in order.
    A step keeps that meaning, or, for an enqueue, adds the new item to it, except in exactly the cases named. */
module WorkQueueMeaning {
  import opened Options
  import opened WorkQueueModel
  import opened WorkQueueSafety
  import opened WorkQueueRuns
  import opened WorkQueueLastWriter
  import opened WorkQueueContent
  import opened WorkQueueConditional

  /** What the worker that holds the path will leave; a failure leaves things as they are. */
  function HeldLeaves(v: View): Content {
    match v.held
    case Idle => v.stored
    case Picked(item) => Do(item, v.stored)
    case Acted(item, o) => if o == Retry then Do(item, v.stored) else v.stored
  }

  function Meaning(s: State, p: Path): Content {
    Line(s.queue, p, HeldLeaves(ViewOf(s, p)))
  }

  /** What the step asks for. */
  function Asked(step: Step, p: Path, c: Content): Content {
    match step
    case DoEnqueue(kind, path, data, skip, bestEffort, _) =>
      if path == p then Do(NewItem(kind, path, data, skip, bestEffort), c) else c
    case _ => c
  }

  // ---- a change in front of the queue ----

  /** The items queued for the path leave something else if they start from d instead of c: none of them is
      unconditional, and the first does not make up for the difference. */
  predicate Passes(q: seq<Node>, p: Path, c: Content, d: Content) {
    !Decided(q, p) && Filled(c, FirstItem(q, p)) != Filled(d, FirstItem(q, p))
  }

  lemma PassesIff(q: seq<Node>, p: Path, c: Content, d: Content)
    ensures Passes(q, p, c, d) <==> Line(q, p, c) != Line(q, p, d)
  {
    hide Line, Decided, FirstItem;
    if Decided(q, p) {
      LineDecided(q, p, c, d);
    } else {
      LineOfConditionals(q, p, c);
      LineOfConditionals(q, p, d);
    }
  }

  lemma LineElsewhere(q: seq<Node>, i: nat, p: Path, c: Content)
    requires i < |q| && q[i].item.path != p
    ensures Line(q[..i] + q[i + 1..], p, c) == Line(q, p, c)
  {
    LineJoin(q[..i], q[i + 1..], p, c);
    LineJoin(q[..i + 1], q[i + 1..], p, c);
    assert q[..i + 1] + q[i + 1..] == q;
    assert q[..i + 1][..i] == q[..i];
  }

  lemma PushElsewhere(s: State, item: Item, p: Path, c: Content)
    requires item.path != p
    ensures Line(Push(s, item).queue, p, c) == Line(s.queue, p, c)
  {
    var q := s.queue + [Node(s.nextId, item)];
    assert q[..|q| - 1] == s.queue;
  }

  // ---- enqueueing ----

  predicate EnqueueMeant(s: State, item: Item, expired: set<Path>, fingerprint: Bytes -> int)
    requires IndexLive(s)
  {
    if item.kind == Delete then true
    else if item.skipIfExists then Meant(s, item, expired, fingerprint, HeldLeaves(ViewOf(s, item.path)))
    else !Repeats(s, item, expired, fingerprint) || Meaning(s, item.path) == Some(item.data)
  }

  lemma EnqueueLine(s: State, item: Item, expired: set<Path>, fingerprint: Bytes -> int, p: Path, c: Content)
    requires Inv(s)
    ensures IndexLive(s)
    ensures var q := Enqueue(s, item, expired, fingerprint).queue;
            && (item.path != p ==> Line(q, p, c) == Line(s.queue, p, c))
            && (item.path == p && (item.kind == Delete || !item.skipIfExists) ==>
                  Line(q, p, c) == if Repeats(s, item, expired, fingerprint) then Line(s.queue, p, c)
                  else Do(item, None))
  {
    hide *;
    var s1 := Cleared(s, item, expired);
    EnqueueIs(s, item, expired, fingerprint);
    ClearedOk(s, item, expired, p);
    ClearedLine(s, item, expired);
    RepeatsUpload(s, item, expired, fingerprint);
    if item.kind == Upload && item.path in s1.index {
      ReplaceLine(s1, item, p, c);
    }
    if item.path == p {
      LinePush(s1, item, p, c);
      Absorbs(item, Line(s1.queue, p, c));
    } else {
      PushElsewhere(s1, item, p, c);
    }
  }

  lemma ClearedLine(s: State, item: Item, expired: set<Path>)
    ensures var t := Cleared(s, item, expired); t.queue == s.queue && t.workers == s.workers && t.cloud == s.cloud
  {
  }

  lemma RepeatsUpload(s: State, item: Item, expired: set<Path>, fingerprint: Bytes -> int)
    ensures Repeats(s, item, expired, fingerprint) ==> item.kind == Upload
  {
  }

  lemma Absorbs(item: Item, c: Content)
    ensures item.kind == Delete || !item.skipIfExists ==> Do(item, c) == Do(item, None)
  {
  }

  lemma ReplaceLine(s: State, item: Item, p: Path, c: Content)
    requires Inv(s) && item.path in s.index
    ensures IndexLive(s)
    ensures item.path != p ==> Line(Replace(s, item).queue, p, c) == Line(s.queue, p, c)
    ensures item.path == p && !item.skipIfExists ==> Line(Replace(s, item).queue, p, c) == Do(item, None)
  {
    hide Inv, IndexLive, Replace, Push, Lookup, Line;
    ReplaceIs(s, item);
    var i := Lookup(s.queue, s.index[item.path]);
    var s1 := s.(queue := s.queue[..i] + s.queue[i + 1..], index := s.index - {item.path});
    if item.path == p {
      LinePush(s1, Kept(s, item), p, c);
    } else {
      LineElsewhere(s.queue, i, p, c);
      PushElsewhere(s1, Kept(s, item), p, c);
    }
  }

  lemma EnqueueHeld(s: State, item: Item, expired: set<Path>, fingerprint: Bytes -> int, p: Path)
    requires Inv(s)
    ensures IndexLive(s)
    ensures HeldLeaves(ViewOf(Enqueue(s, item, expired, fingerprint), p)) == HeldLeaves(ViewOf(s, p))
  {
    hide *;
    var s1 := Cleared(s, item, expired);
    EnqueueIs(s, item, expired, fingerprint);
    ClearedOk(s, item, expired, p);
    ClearedLine(s, item, expired);
    if item.path in s1.index {
      ReplaceIs(s1, item);
      var i := Lookup(s1.queue, s1.index[item.path]);
      PushIs(s1.(queue := s1.queue[..i] + s1.queue[i + 1..], index := s1.index - {item.path}), Kept(s1, item));
    }
    PushIs(s1, item);
    SettledSame(s, Enqueue(s, item, expired, fingerprint), p);
  }

  lemma SettledSame(s: State, t: State, p: Path)
    requires t.workers == s.workers && t.cloud == s.cloud
    ensures HeldLeaves(ViewOf(t, p)) == HeldLeaves(ViewOf(s, p))
  {
  }

  lemma EnqueueMeans(s: State, item: Item, expired: set<Path>, fingerprint: Bytes -> int, p: Path)
    requires Inv(s) && InLine(s)
    ensures IndexLive(s)
    ensures item.path != p ==> Meaning(Enqueue(s, item, expired, fingerprint), p) == Meaning(s, p)
    ensures item.path == p ==>
              (Meaning(Enqueue(s, item, expired, fingerprint), p) == Do(item, Meaning(s, p)) <==>
               EnqueueMeant(s, item, expired, fingerprint))
  {
    hide Inv, InLine, IndexLive, Enqueue, Repeats, Line, ViewOf, HeldLeaves, Meant;
    EnqueueHeld(s, item, expired, fingerprint, p);
    EnqueueLine(s, item, expired, fingerprint, p, HeldLeaves(ViewOf(s, p)));
    RepeatsUpload(s, item, expired, fingerprint);
    if item.kind == Upload && item.skipIfExists && item.path == p {
      ConditionalIsMeant(s, item, expired, fingerprint, HeldLeaves(ViewOf(s, p)));
    }
  }

  // ---- the other steps ----

  /** The pick takes an item past one before it, and then the rest leaves something else. */
  predicate Reorders(s: State, w: nat, due: set<nat>, p: Path)
    requires w < |s.workers|
  {
    var i := FirstEligible(s.queue, s.active, due);
    && s.workers[w] == Idle && i < |s.queue| && s.queue[i].item.path == p
    && var c, x := ViewOf(s, p).stored, s.queue[i].item;
       Passes(s.queue[i + 1..], p, Do(x, Line(s.queue[..i], p, c)), Line(s.queue[..i], p, Do(x, c)))
  }

  lemma PickMeans(s: State, w: nat, due: set<nat>, p: Path)
    requires Inv(s) && w < |s.workers|
    ensures Meaning(Pick(s, w, due), p) == Meaning(s, p) <==> !Reorders(s, w, due, p)
  {
    hide Inv, Pick, FirstEligible, LastItem, HolderOf, Line, Passes;
    var i := FirstEligible(s.queue, s.active, due);
    PickIs(s, w, due);
    PickView(s, w, due, p);
    if s.workers[w] == Idle && i < |s.queue| {
      var c, x := ViewOf(s, p).stored, s.queue[i].item;
      if x.path == p {
        LineAt(s.queue, i, p, c);
        LineAt(s.queue, i, p, Do(x, c));
        PassesIff(s.queue[i + 1..], p, Do(x, Line(s.queue[..i], p, c)), Line(s.queue[..i], p, Do(x, c)));
      } else {
        LineElsewhere(s.queue, i, p, HeldLeaves(ViewOf(s, p)));
      }
    }
  }

  /** What the path holds once the provider has answered, with a retry that is still to come carried out. */
  function Answered(item: Item, found: Exists, ok: bool, fault: bool, applied: bool, c: Content): Content {
    var d := if Touches(item, found, ok, fault, applied) then ContentOf(item) else c;
    if Process(item, found, ok, fault).1 == Retry then Do(item, d) else d
  }

  predicate ActLoses(s: State, w: nat, found: Exists, ok: bool, fault: bool, applied: bool, p: Path)
    requires w < |s.workers|
  {
    && s.workers[w].Picked? && s.workers[w].item.path == p
    && var c, item := ViewOf(s, p).stored, s.workers[w].item;
       Passes(s.queue, p, Do(item, c), Answered(item, found, ok, fault, applied, c))
  }

  lemma ActMeans(s: State, w: nat, found: Exists, ok: bool, fault: bool, applied: bool, p: Path)
    requires Inv(s) && w < |s.workers|
    ensures Meaning(Act(s, w, found, ok, fault, applied), p) == Meaning(s, p) <==>
              !ActLoses(s, w, found, ok, fault, applied, p)
  {
    hide Inv, Act, LastItem, HolderOf, Line, Passes, Touches;
    ActView(s, w, found, ok, fault, applied, p);
    ActKeepsQueue(s, w, found, ok, fault, applied);
    if s.workers[w].Picked? && s.workers[w].item.path == p {
      var c, item := ViewOf(s, p).stored, s.workers[w].item;
      RetriesSame(item, found, ok, fault, if Touches(item, found, ok, fault, applied) then ContentOf(item) else c);
      PassesIff(s.queue, p, Do(item, c), Answered(item, found, ok, fault, applied, c));
    }
  }

  lemma RetriesSame(item: Item, found: Exists, ok: bool, fault: bool, c: Content)
    ensures Do(Process(item, found, ok, fault).0, c) == Do(item, c)
  {
  }

  /** A retry is dropped for a queued upload that does not make up for it, or goes behind work it matters to. */
  predicate RetryLoses(s: State, w: nat, p: Path)
    requires w < |s.workers|
  {
    && s.workers[w].Acted? && s.workers[w].outcome == Retry && s.workers[w].item.path == p
    && var c, item := ViewOf(s, p).stored, s.workers[w].item;
       if p in s.index then Passes(s.queue, p, Do(item, c), c)
       else Line(s.queue, p, Do(item, c)) != Do(item, Line(s.queue, p, c))
  }

  lemma RequeueMeans(s: State, w: nat, p: Path)
    requires Inv(s) && w < |s.workers|
    ensures Meaning(Requeue(s, w), p) == Meaning(s, p) <==> !RetryLoses(s, w, p)
  {
    hide Inv, Requeue, LastItem, HolderOf, Line, Passes;
    RequeueView(s, w, p);
    RequeueQueue(s, w);
    if s.workers[w].Acted? && s.workers[w].outcome == Retry {
      var c, item := ViewOf(s, p).stored, s.workers[w].item;
      if item.path == p {
        PassesIff(s.queue, p, Do(item, c), c);
        LinePush(s, item, p, c);
      } else {
        PushElsewhere(s, item, p, HeldLeaves(ViewOf(s, p)));
      }
    }
  }

  lemma RequeueQueue(s: State, w: nat)
    requires w < |s.workers|
    ensures if s.workers[w].Acted? && s.workers[w].outcome == Retry then
              var item := s.workers[w].item;
              Requeue(s, w).queue == if item.path in s.index then s.queue else Push(s, item).queue
            else Requeue(s, w) == s
  {
  }

  lemma FinishMeans(s: State, w: nat, fingerprint: Bytes -> int, p: Path)
    requires Inv(s) && w < |s.workers|
    ensures Meaning(Finish(s, w, fingerprint), p) == Meaning(s, p)
  {
    hide Inv, Finish, LastItem, HolderOf, Line;
    FinishView(s, w, fingerprint, p);
    FinishIs(s, w, fingerprint);
  }

  predicate AbandonLoses(s: State, w: nat, p: Path)
    requires w < |s.workers|
  {
    && s.workers[w].Picked? && s.workers[w].item.path == p
    && Passes(s.queue, p, Do(s.workers[w].item, ViewOf(s, p).stored), ViewOf(s, p).stored)
  }

  lemma AbandonMeans(s: State, w: nat, p: Path)
    requires Inv(s) && w < |s.workers|
    ensures Meaning(Abandon(s, w), p) == Meaning(s, p) <==> !AbandonLoses(s, w, p)
  {
    hide Inv, LastItem, HolderOf, Line, Passes, Drop;
    AbandonView(s, w, p);
    if s.workers[w].Picked? && s.workers[w].item.path == p {
      PassesIff(s.queue, p, Do(s.workers[w].item, ViewOf(s, p).stored), ViewOf(s, p).stored);
    }
  }

  /** A drain puts the failed item at the end of the line, where it changes what that leaves. */
  predicate DrainChanges(s: State, prefix: Path, order: seq<Path>, p: Path) {
    p in order && DrainRequeues(s, prefix, p) && Do(s.failed[p], Meaning(s, p)) != Meaning(s, p)
  }

  lemma DrainMeans(s: State, prefix: Path, order: seq<Path>, p: Path)
    requires Inv(s)
    ensures Meaning(RequeueAll(s, prefix, order), p) == Meaning(s, p) <==> !DrainChanges(s, prefix, order, p)
  {
    hide Inv, RequeueAll, LastItem, HolderOf, Line;
    RequeueAllView(s, prefix, order, p);
    DrainLine(s, prefix, order, p, HeldLeaves(ViewOf(s, p)));
  }

  lemma {:induction false} DrainLine(s: State, prefix: Path, order: seq<Path>, p: Path, c: Content)
    requires Inv(s)
    ensures Line(RequeueAll(s, prefix, order).queue, p, c) ==
            if p in order && DrainRequeues(s, prefix, p) then Do(s.failed[p], Line(s.queue, p, c))
               else Line(s.queue, p, c)
  {
    if |order| > 0 {
      hide Inv, RequeueFailed, LastItem, HolderOf, Line;
      var k := |order| - 1;
      var t := RequeueAll(s, prefix, order[..k]);
      DrainLine(s, prefix, order[..k], p, c);
      RequeueAllView(s, prefix, order[..k], p);
      InFront(order, p);
      DrainOnce(s, t, prefix, p, p in order[..k]);
      DrainOneLine(t, prefix, order[k], p, c);
    }
  }

  /** A second round for the path requeues nothing more. */
  lemma DrainOnce(s: State, t: State, prefix: Path, p: Path, done: bool)
    requires (p in t.active <==> p in s.active) && ViewOf(t, p) == if done then Drained(s, prefix, p) else ViewOf(s, p)
    ensures DrainRequeues(t, prefix, p) <==> !done && DrainRequeues(s, prefix, p)
    ensures !done && DrainRequeues(s, prefix, p) ==> t.failed[p] == s.failed[p]
  {
    hide LastItem, HolderOf;
    assert (p in t.failed <==> ViewOf(t, p).failed.Some?) && (p in s.failed <==> ViewOf(s, p).failed.Some?);
  }

  lemma DrainOneLine(s: State, prefix: Path, r: Path, p: Path, c: Content)
    requires Inv(s)
    ensures Line(RequeueFailed(s, prefix, r).queue, p, c) ==
            if r == p && DrainRequeues(s, prefix, p) then Do(s.failed[p], Line(s.queue, p, c)) else Line(s.queue, p, c)
  {
    hide Inv, Line, Push;
    if r in s.failed {
      RecordedPath(s, r);
      var t, item := Forget(s, r), Again(s.failed[r]);
      if r == p {
        LinePush(t, item, p, c);
      } else {
        PushElsewhere(t, item, p, c);
      }
    }
  }

  // ---- all steps, and whole runs ----

  /** The step keeps the meaning for the path. */
  predicate Means(s: State, step: Step, fingerprint: Bytes -> int, p: Path)
    requires IndexLive(s)
  {
    match step
    case DoEnqueue(kind, path, data, skip, bestEffort, expired) =>
      path == p ==> EnqueueMeant(s, NewItem(kind, path, data, skip, bestEffort), expired, fingerprint)
    case DoPick(w, due) => w < |s.workers| ==> !Reorders(s, w, due, p)
    case DoAct(w, found, ok, fault, applied) => w < |s.workers| ==> !ActLoses(s, w, found, ok, fault, applied, p)
    case DoRequeue(w) => w < |s.workers| ==> !RetryLoses(s, w, p)
    case DoFinish(_) => true
    case DoAbandon(w) => w < |s.workers| ==> !AbandonLoses(s, w, p)
    case DoRequeueFailed(prefix, order) => !DrainChanges(s, prefix, order, p)
    case DoClearFailed(_) => true
  }

  lemma Live(s: State)
    requires Inv(s)
    ensures IndexLive(s)
  {
  }

  /** Conditional uploads included, a step leaves the path meaning what it asks for, exactly if it is none of the named
      ones. */
  lemma StepMeans(s: State, step: Step, fingerprint: Bytes -> int, p: Path)
    requires Inv(s) && InLine(s)
    ensures IndexLive(s)
    ensures Meaning(Next(s, step, fingerprint), p) == Asked(step, p, Meaning(s, p)) <==> Means(s, step, fingerprint, p)
  {
    hide Inv, InLine, IndexLive, Enqueue, Pick, Act, Requeue, Finish, Abandon, RequeueAll, ClearFailed, Meaning;
    hide EnqueueMeant, Reorders, ActLoses, RetryLoses, AbandonLoses, DrainChanges, Do;
    Live(s);
    match step
    case DoEnqueue(kind, path, data, skip, bestEffort, expired) =>
      EnqueueMeans(s, NewItem(kind, path, data, skip, bestEffort), expired, fingerprint, p);
    case DoPick(w, due) => if w < |s.workers| { PickMeans(s, w, due, p); }
    case DoAct(w, e, ok, fault, applied) => if w < |s.workers| { ActMeans(s, w, e, ok, fault, applied, p); }
    case DoRequeue(w) => if w < |s.workers| { RequeueMeans(s, w, p); }
    case DoFinish(w) => if w < |s.workers| { FinishMeans(s, w, fingerprint, p); }
    case DoAbandon(w) => if w < |s.workers| { AbandonMeans(s, w, p); }
    case DoRequeueFailed(prefix, order) => DrainMeans(s, prefix, order, p);
    case DoClearFailed(prefix) => ClearFailedMeans(s, prefix, p);
  }

  lemma ClearFailedMeans(s: State, prefix: Path, p: Path)
    ensures Meaning(ClearFailed(s, prefix), p) == Meaning(s, p)
  {
    hide Line, LastItem, HolderOf;
  }

  /** No step of the run loses the meaning for the path. */
  ghost predicate AllMean(s: State, steps: seq<Step>, fingerprint: Bytes -> int, p: Path)
    requires Inv(s)
    decreases |steps|
  {
    |steps| == 0
    || (Means(s, steps[0], fingerprint, p) && AllMean(Apply(s, steps[0], fingerprint), steps[1..], fingerprint, p))
  }

  /** Everything enqueued for the path, carried out in the order enqueued. */
  function InSequence(steps: seq<Step>, p: Path, c: Content): Content
    decreases |steps|
  {
    if |steps| == 0 then c else InSequence(steps[1..], p, Asked(steps[0], p, c))
  }

  /** In such a run the queue is as good as no queue: once the path is quiet, the provider holds what carrying out
      everything enqueued for it, one after the other, leaves. */
  lemma {:induction false} QueueIsTransparent(s: State, steps: seq<Step>, fingerprint: Bytes -> int, p: Path)
    requires Inv(s) && InLine(s) && AllMean(s, steps, fingerprint, p)
    ensures var t := RunFrom(s, steps, fingerprint);
            && Meaning(t, p) == InSequence(steps, p, Meaning(s, p))
            && (Quiet(ViewOf(t, p)) ==> ViewOf(t, p).stored == InSequence(steps, p, Meaning(s, p)))
    decreases |steps|
  {
    hide Inv, InLine, Means, Asked, Next, Meaning, Line, LastItem, HolderOf;
    if |steps| == 0 {
      QuietMeans(s, p);
    } else {
      StepMeans(s, steps[0], fingerprint, p);
      StepInLine(s, steps[0], fingerprint);
      QueueIsTransparent(Apply(s, steps[0], fingerprint), steps[1..], fingerprint, p);
    }
  }

  lemma QuietMeans(s: State, p: Path)
    ensures Quiet(ViewOf(s, p)) ==> Meaning(s, p) == ViewOf(s, p).stored
  {
    hide LastItem, HolderOf, Line;
    if LastItem(s.queue, p).None? {
      NothingInLine(s.queue, p, HeldLeaves(ViewOf(s, p)));
    }
  }

  lemma {:induction false} NothingInLine(q: seq<Node>, p: Path, c: Content)
    requires LastItem(q, p).None?
    ensures Line(q, p, c) == c
  {
    if |q| > 0 {
      NothingInLine(q[..|q| - 1], p, c);
    }
  }

  /** From the start. */
  lemma TransparentFromTheStart(threads: nat, cloud: map<Path, Bytes>, steps: seq<Step>, fingerprint: Bytes -> int,
                                p: Path)
    requires AllMean(Initial(threads, cloud), steps, fingerprint, p)
    ensures var t := RunFrom(Initial(threads, cloud), steps, fingerprint);
            Quiet(ViewOf(t, p)) ==>
              ViewOf(t, p).stored == InSequence(steps, p, if p in cloud then Some(cloud[p]) else None)
  {
    var s := Initial(threads, cloud);
    assert InLine(s);
    StartsQuiet(threads, cloud, p);
    hide Inv, InLine, RunFrom, AllMean, Meaning, LastItem, HolderOf, InSequence;
    QueueIsTransparent(s, steps, fingerprint, p);
  }

  lemma StartsQuiet(threads: nat, cloud: map<Path, Bytes>, p: Path)
    ensures Meaning(Initial(threads, cloud), p) == if p in cloud then Some(cloud[p]) else None
  {
    var s := Initial(threads, cloud);
    NoHolder(s.workers, p);
    hide Inv, HolderOf;
  }
}
