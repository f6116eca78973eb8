/** What an upload that is conditional on nothing being there makes of the work already in line for its path. */
module WorkQueueConditional {
  import opened Options
  import opened WorkQueueModel
  import opened WorkQueueSafety
  import opened WorkQueueRuns
  import opened WorkQueueLastWriter
  import opened WorkQueueContent

  /** What an item leaves behind. */
  function Do(item: Item, c: Content): Content {
    if item.kind == Delete then None else if item.skipIfExists && c.Some? then c else Some(item.data)
  }

  /** What the items queued for a path leave behind, one after the other. */
  function Line(q: seq<Node>, p: Path, c: Content): Content {
    if |q| == 0 then c
    else
      var before := Line(q[..|q| - 1], p, c);
      if q[|q| - 1].item.path == p then Do(q[|q| - 1].item, before) else before
  }

  lemma {:induction false} LineJoin(a: seq<Node>, b: seq<Node>, p: Path, c: Content)
    ensures Line(a + b, p, c) == Line(b, p, Line(a, p, c))
  {
    if |b| == 0 {
      assert a + b == a;
    } else {
      LineJoin(a, b[..|b| - 1], p, c);
      assert (a + b)[..|a + b| - 1] == a + b[..|b| - 1];
    }
  }

  lemma LineAt(q: seq<Node>, i: nat, p: Path, c: Content)
    requires i < |q| && q[i].item.path == p
    ensures Line(q, p, c) == Line(q[i + 1..], p, Do(q[i].item, Line(q[..i], p, c)))
    ensures Line(q[..i] + q[i + 1..], p, c) == Line(q[i + 1..], p, Line(q[..i], p, c))
  {
    LineJoin(q[..i], q[i + 1..], p, c);
    LineJoin(q[..i + 1], q[i + 1..], p, c);
    assert q[..i + 1] + q[i + 1..] == q;
    assert q[..i + 1][..i] == q[..i];
  }

  lemma LinePush(s: State, item: Item, p: Path, c: Content)
    requires item.path == p
    ensures Line(Push(s, item).queue, p, c) == Do(item, Line(s.queue, p, c))
  {
    var q := s.queue + [Node(s.nextId, item)];
    assert q[..|q| - 1] == s.queue;
  }

  /** No upload for the path. */
  predicate OnlyDeletes(q: seq<Node>, p: Path) {
    forall i :: 0 <= i < |q| && q[i].item.path == p ==> q[i].item.kind == Delete
  }

  lemma {:induction false} DeletesLeave(q: seq<Node>, p: Path, c: Content)
    requires OnlyDeletes(q, p)
    ensures Line(q, p, c) == if QueuedDelete(q, p) then None else c
  {
    if |q| > 0 {
      var k := |q| - 1;
      DeletesLeave(q[..k], p, c);
      if QueuedDelete(q, p) && q[k].item.path != p {
        var i :| 0 <= i < |q| && q[i].item.kind == Delete && q[i].item.path == p;
        assert q[..k][i] == q[i];
      }
    }
  }

  // ---- the index points at the newest upload queued ----

  predicate IdsAscend(q: seq<Node>, nextId: nat) {
    (forall i, j :: 0 <= i < j < |q| ==> q[i].id < q[j].id) && forall i :: 0 <= i < |q| ==> q[i].id < nextId
  }

  predicate NewestIndexed(q: seq<Node>, index: map<Path, nat>) {
    forall i :: 0 <= i < |q| && q[i].item.kind == Upload && q[i].item.path in index ==> q[i].id <= index[q[i].item.path]
  }

  predicate InLine(s: State) {
    IdsAscend(s.queue, s.nextId) && NewestIndexed(s.queue, s.index)
  }

  lemma PushInLine(s: State, item: Item)
    requires InLine(s)
    ensures InLine(Push(s, item))
  {
  }

  lemma CutInLine(s: State, t: State, i: nat)
    requires InLine(s) && i < |s.queue| && t.queue == s.queue[..i] + s.queue[i + 1..] && t.nextId == s.nextId
    requires t.index.Keys <= s.index.Keys && forall p :: p in t.index ==> t.index[p] == s.index[p]
    ensures InLine(t)
  {
    forall k | 0 <= k < |t.queue| && t.queue[k].item.kind == Upload && t.queue[k].item.path in t.index
      ensures t.queue[k].id <= t.index[t.queue[k].item.path]
    {
      assert t.queue[k] == s.queue[if k < i then k else k + 1];
    }
  }

  lemma SameInLine(s: State, t: State)
    requires InLine(s) && t.queue == s.queue && t.index == s.index && t.nextId == s.nextId
    ensures InLine(t)
  {
  }

  lemma ReplaceInLine(s: State, item: Item)
    requires Inv(s) && InLine(s) && item.path in s.index
    ensures IndexLive(s) && InLine(Replace(s, item))
  {
    ReplaceIs(s, item);
    var i := Lookup(s.queue, s.index[item.path]);
    var s1 := s.(queue := s.queue[..i] + s.queue[i + 1..], index := s.index - {item.path});
    hide Inv, IndexLive, InLine, Replace, Push, Lookup;
    CutInLine(s, s1, i);
    PushInLine(s1, Kept(s, item));
  }

  lemma EnqueueInLine(s: State, item: Item, expired: set<Path>, fingerprint: Bytes -> int)
    requires Inv(s) && InLine(s)
    ensures IndexLive(s) && InLine(Enqueue(s, item, expired, fingerprint))
  {
    EnqueueIs(s, item, expired, fingerprint);
    ClearedOk(s, item, expired, item.path);
    var s1 := Cleared(s, item, expired);
    hide Inv, IndexLive, InLine, Enqueue, Replace, Push, Repeats, ViewOf;
    SameInLine(s, s1);
    PushInLine(s1, item);
    if item.path in s1.index {
      ReplaceInLine(s1, item);
    }
  }

  lemma PickInLine(s: State, w: nat, due: set<nat>)
    requires InLine(s) && w < |s.workers|
    ensures InLine(Pick(s, w, due))
  {
    hide FirstEligible, Bump, InLine;
    var i := FirstEligible(s.queue, s.active, due);
    if s.workers[w] == Idle && i < |s.queue| {
      CutInLine(s, Pick(s, w, due), i);
    }
  }

  lemma RequeueInLine(s: State, w: nat)
    requires InLine(s) && w < |s.workers|
    ensures InLine(Requeue(s, w))
  {
    hide InLine, Push;
    if s.workers[w].Acted? && s.workers[w].outcome == Retry {
      var item := s.workers[w].item;
      var t := ClearForRetry(s, item);
      SameInLine(s, t);
      SameInLine(s, t.(workers := s.workers[w := Acted(item, Stale)]));
      SameInLine(s, t.(workers := s.workers[w := Acted(item, Requeued)]));
      PushInLine(t.(workers := s.workers[w := Acted(item, Requeued)]), item);
    }
  }

  lemma {:induction false} DrainInLine(s: State, prefix: Path, order: seq<Path>)
    requires InLine(s)
    ensures InLine(RequeueAll(s, prefix, order))
  {
    if |order| > 0 {
      var t, r := RequeueAll(s, prefix, order[..|order| - 1]), order[|order| - 1];
      DrainInLine(s, prefix, order[..|order| - 1]);
      hide InLine, Push;
      if r in t.failed {
        SameInLine(t, Forget(t, r));
        PushInLine(Forget(t, r), Again(t.failed[r]));
        SameInLine(t, RequeueOnly(t, r));
      }
    }
  }

  /** The record kept, its retries forgotten. */
  function RequeueOnly(s: State, r: Path): State
    requires r in s.failed
  {
    s.(failed := s.failed[r := s.failed[r].(existsRetries := 0, transferRetries := 0)],
       failedPaths := s.failedPaths + {r})
  }

  lemma FinishInLine(s: State, w: nat, fingerprint: Bytes -> int)
    requires InLine(s) && w < |s.workers|
    ensures InLine(Finish(s, w, fingerprint))
  {
    hide InLine, Finish;
    FinishIs(s, w, fingerprint);
    SameInLine(s, Finish(s, w, fingerprint));
  }

  lemma StepInLine(s: State, step: Step, fingerprint: Bytes -> int)
    requires Inv(s) && InLine(s)
    ensures InLine(Next(s, step, fingerprint))
  {
    hide Inv, InLine, Enqueue, Pick, Act, Requeue, Finish, Abandon, RequeueAll, ClearFailed;
    match step
    case DoEnqueue(kind, path, data, skip, bestEffort, expired) =>
      EnqueueInLine(s, NewItem(kind, path, data, skip, bestEffort), expired, fingerprint);
    case DoPick(w, due) => if w < |s.workers| { PickInLine(s, w, due); }
    case DoAct(w, e, ok, fault, applied) => if w < |s.workers| { ActInLine(s, w, e, ok, fault, applied); }
    case DoRequeue(w) => if w < |s.workers| { RequeueInLine(s, w); }
    case DoFinish(w) => if w < |s.workers| { FinishInLine(s, w, fingerprint); }
    case DoAbandon(w) => if w < |s.workers| { AbandonInLine(s, w); }
    case DoRequeueFailed(prefix, order) => DrainInLine(s, prefix, order);
    case DoClearFailed(prefix) => ClearInLine(s, prefix);
  }

  lemma ActInLine(s: State, w: nat, found: Exists, ok: bool, fault: bool, applied: bool)
    requires InLine(s) && w < |s.workers|
    ensures InLine(Act(s, w, found, ok, fault, applied))
  {
    hide InLine, Process, Touches;
    SameInLine(s, Act(s, w, found, ok, fault, applied));
  }

  lemma AbandonInLine(s: State, w: nat)
    requires InLine(s) && w < |s.workers|
    ensures InLine(Abandon(s, w))
  {
    hide InLine, Drop;
    SameInLine(s, Abandon(s, w));
  }

  lemma ClearInLine(s: State, prefix: Path)
    requires InLine(s)
    ensures InLine(ClearFailed(s, prefix))
  {
    hide InLine;
    SameInLine(s, ClearFailed(s, prefix));
  }

  /** In every reachable state what the index points at is the newest upload queued for its path. */
  lemma {:induction false} ReachableInLine(threads: nat, cloud: map<Path, Bytes>, steps: seq<Step>,
                                           fingerprint: Bytes -> int)
    ensures InLine(Run(threads, cloud, steps, fingerprint))
  {
    if |steps| > 0 {
      var before := steps[..|steps| - 1];
      ReachableInLine(threads, cloud, before, fingerprint);
      hide Inv, InLine, Next;
      StepInLine(Run(threads, cloud, before, fingerprint), steps[|steps| - 1], fingerprint);
    }
  }

  lemma BehindIndexed(s: State, p: Path)
    requires Inv(s) && InLine(s) && p in s.index
    ensures IndexLive(s) && OnlyDeletes(s.queue[Lookup(s.queue, s.index[p]) + 1..], p)
  {
    hide *;
    IndexedNode(s, p);
    Behind(s, Lookup(s.queue, s.index[p]), p);
  }

  lemma Behind(s: State, i: nat, p: Path)
    requires InLine(s) && p in s.index && i < |s.queue| && s.queue[i].id == s.index[p]
    ensures OnlyDeletes(s.queue[i + 1..], p)
  {
    var z := s.queue[i + 1..];
    forall k | 0 <= k < |z| && z[k].item.path == p
      ensures z[k].item.kind == Delete
    {
      assert s.queue[i].id < s.queue[i + 1 + k].id;
    }
  }

  // ---- the conditional upload ----

  /** The upload repeats a recent one and something will be there; or no upload is queued; or the one queued has the
      same bytes; or it is unconditional and no delete is behind it; or it is conditional as well, and a delete is
      behind it or something is there before it. */
  predicate Meant(s: State, item: Item, expired: set<Path>, fingerprint: Bytes -> int, c: Content)
    requires IndexLive(s)
  {
    var p := item.path;
    if Repeats(s, item, expired, fingerprint) then Line(s.queue, p, c).Some?
    else if p !in s.index then true
    else
      var i := Lookup(s.queue, s.index[p]);
      var queued := s.queue[i].item;
      || queued.data == item.data || QueuedDelete(s.queue[i + 1..], p) == queued.skipIfExists
      || (queued.skipIfExists && Line(s.queue[..i], p, c).Some?)
  }

  /** Enqueueing a conditional upload leaves the line with what carrying everything out in the order enqueued would
      leave, in exactly these cases. */
  lemma ConditionalIsMeant(s: State, item: Item, expired: set<Path>, fingerprint: Bytes -> int, c: Content)
    requires Inv(s) && InLine(s) && item.kind == Upload && item.skipIfExists
    ensures IndexLive(s)
    ensures Line(Enqueue(s, item, expired, fingerprint).queue, item.path, c) ==
              Do(item, Line(s.queue, item.path, c)) <==>
            Meant(s, item, expired, fingerprint, c)
  {
    hide Inv, InLine, IndexLive, Enqueue, Replace, Push, Repeats, Lookup, Line, QueuedDelete;
    var p, s1 := item.path, Cleared(s, item, expired);
    EnqueueIs(s, item, expired, fingerprint);
    ClearedOk(s, item, expired, p);
    LinePush(s1, item, p, c);
    if p in s.index && !Repeats(s, item, expired, fingerprint) {
      ReplacedLine(s, s1, item, c);
    }
  }

  lemma ReplacedLine(s: State, s1: State, item: Item, c: Content)
    requires Inv(s) && InLine(s) && Inv(s1) && s1.queue == s.queue && s1.index == s.index && item.path in s.index
    ensures IndexLive(s) && IndexLive(s1)
    ensures var i, p := Lookup(s.queue, s.index[item.path]), item.path;
            var a, e, z := Line(s.queue[..i], p, c), s.queue[i].item, s.queue[i + 1..];
            && e.kind == Upload && (Kept(s, item) == if item.skipIfExists && !e.skipIfExists then e else item)
            && Line(s.queue, p, c) == (if QueuedDelete(z, p) then None else Do(e, a))
            && Line(Replace(s1, item).queue, p, c) == Do(Kept(s, item), if QueuedDelete(z, p) then None else a)
  {
    hide InLine, Replace, Push, Lookup, Line, QueuedDelete, OnlyDeletes;
    var i, p := Lookup(s.queue, s.index[item.path]), item.path;
    IndexedNode(s, p);
    BehindIndexed(s, p);
    ReplaceIs(s1, item);
    LineAt(s.queue, i, p, c);
    DeletesLeave(s.queue[i + 1..], p, Do(s.queue[i].item, Line(s.queue[..i], p, c)));
    DeletesLeave(s.queue[i + 1..], p, Line(s.queue[..i], p, c));
    LinePush(s1.(queue := s.queue[..i] + s.queue[i + 1..], index := s.index - {p}), Kept(s1, item), p, c);
  }

  // ---- what only conditional uploads leave ----

  /** Something unconditional is queued for the path. */
  predicate Decided(q: seq<Node>, p: Path) {
    exists i :: 0 <= i < |q| && q[i].item.path == p && (q[i].item.kind == Delete || !q[i].item.skipIfExists)
  }

  /** The first item queued for the path. */
  function FirstItem(q: seq<Node>, p: Path): Option<Item> {
    if |q| == 0 then None else if q[0].item.path == p then Some(q[0].item) else FirstItem(q[1..], p)
  }

  lemma FirstSnoc(q: seq<Node>, p: Path)
    requires |q| > 0
    ensures FirstItem(q, p) == if FirstItem(q[..|q| - 1], p).Some? then FirstItem(q[..|q| - 1], p)
                               else if q[|q| - 1].item.path == p then Some(q[|q| - 1].item) else None
  {
    if |q| > 1 && q[0].item.path != p {
      FirstSnoc(q[1..], p);
      assert q[1..][..|q[1..]| - 1] == q[..|q| - 1][1..];
    }
  }

  /** What is left of a content when only conditional uploads follow, the first of them this one. */
  function Filled(c: Content, first: Option<Item>): Content {
    if c.Some? || first.None? then c else Some(first.value.data)
  }

  lemma {:induction false} LineOfConditionals(q: seq<Node>, p: Path, c: Content)
    requires !Decided(q, p)
    ensures Line(q, p, c) == Filled(c, FirstItem(q, p))
  {
    if |q| > 0 {
      var k := |q| - 1;
      assert forall i :: 0 <= i < k ==> q[..k][i] == q[i];
      LineOfConditionals(q[..k], p, c);
      FirstSnoc(q, p);
    }
  }

  lemma {:induction false} LineDecided(q: seq<Node>, p: Path, c: Content, d: Content)
    requires Decided(q, p)
    ensures Line(q, p, c) == Line(q, p, d)
  {
    var k := |q| - 1;
    if Decided(q[..k], p) {
      LineDecided(q[..k], p, c, d);
    } else {
      var i :| 0 <= i < |q| && q[i].item.path == p && (q[i].item.kind == Delete || !q[i].item.skipIfExists);
      assert i < k ==> q[..k][i] == q[i];
    }
  }
}
