/** Which upload of a path reaches the provider last: not always the one enqueued last. */
module WorkQueueOrder {
  import opened WorkQueueModel
  import opened WorkQueueSafety
  import opened WorkQueueRuns

  lemma RunMore(threads: nat, cloud: map<Path, Bytes>, steps: seq<Step>, step: Step, fingerprint: Bytes -> int)
    ensures Run(threads, cloud, steps + [step], fingerprint) ==
              Next(Run(threads, cloud, steps, fingerprint), step, fingerprint)
  {
    assert (steps + [step])[..|steps|] == steps;
  }

  const P: Path := "p"
  function Put(data: Bytes): Step {
    DoEnqueue(Upload, P, data, false, false, {})
  }

  function PutItem(data: Bytes): Item {
    NewItem(Upload, P, data, false, false)
  }

  /** One worker; at most one queued item for P, nothing recorded as failed. */
  function At(queue: seq<Node>, nextId: nat, index: map<Path, nat>, worker: Worker, recent: map<Path, int>,
              cloud: map<Path, Bytes>): State {
    var counts := if worker == Idle then map[] else map[P := 1];
    State(queue, nextId, index, counts, map[], if worker != Idle && worker.item.kind == Delete then counts else map[],
          if worker == Idle then 0 else 1, {}, map[], recent, [worker], cloud)
  }

  // ---- a recent upload is not repeated, although another one is queued behind it ----

  function DroppedRun(): seq<Step> {
    [Put([1]), DoPick(0, {0}), DoAct(0, Missing, true, false, true), DoFinish(0),
     Put([2]), Put([1]), DoPick(0, {1}), DoAct(0, Missing, true, false, true), DoFinish(0)]
  }

  lemma PickOnly(id: nat, item: Item, recent: map<Path, int>, cloud: map<Path, Bytes>, fingerprint: Bytes -> int)
    requires item.path == P && !item.bestEffort
    requires var s :=
               At([Node(id, item)], id + 1, if item.kind == Upload then map[P := id] else map[], Idle, recent,
                  cloud); Inv(s)
    ensures var s :=
              At([Node(id, item)], id + 1, if item.kind == Upload then map[P := id] else map[], Idle, recent, cloud);
            Next(s, DoPick(0, {id}), fingerprint) == At([], id + 1, map[], Picked(item), recent, cloud)
  {
    var q := [Node(id, item)];
    assert q[..0] + q[1..] == [];
    assert map[P := id] - {P} == map[];
    hide Inv;
  }

  lemma ActOk(q: seq<Node>, id: nat, data: Bytes, recent: map<Path, int>, cloud: map<Path, Bytes>,
              fingerprint: Bytes -> int)
    requires Inv(At(q, id, map[], Picked(PutItem(data)), recent, cloud))
    ensures Next(At(q, id, map[], Picked(PutItem(data)), recent, cloud), DoAct(0, Missing, true, false, true),
                 fingerprint) ==
            At(q, id, map[], Acted(PutItem(data), Success(true)), recent, cloud[P := data])
  {
    hide Inv;
  }

  lemma FinishOk(q: seq<Node>, id: nat, data: Bytes, recent: map<Path, int>, cloud: map<Path, Bytes>,
                 fingerprint: Bytes -> int)
    requires Inv(At(q, id, map[], Acted(PutItem(data), Success(true)), recent, cloud))
    ensures Next(At(q, id, map[], Acted(PutItem(data), Success(true)), recent, cloud), DoFinish(0), fingerprint) ==
            At(q, id, map[], Idle, recent[P := fingerprint(data)], cloud)
  {
    hide Inv;
    assert map[P := 1] - {P} == map[];
  }

  lemma Enqueues(s: State, data: Bytes, fingerprint: Bytes -> int, cloud: map<Path, Bytes>, recent: map<Path, int>,
                 id: nat)
    requires Inv(s) && s == At([], id, map[], Idle, recent, cloud)
    requires P !in recent || recent[P] != fingerprint(data)
    ensures Next(s, Put(data), fingerprint) == At([Node(id, PutItem(data))], id + 1, map[P := id], Idle, recent, cloud)
  {
  }

  ghost predicate RunsTo(steps: seq<Step>, fingerprint: Bytes -> int, s: State) {
    Run(1, map[], steps, fingerprint) == s
  }

  lemma OneMore(steps: seq<Step>, step: Step, fingerprint: Bytes -> int, s: State, t: State)
    requires RunsTo(steps, fingerprint, s) && Inv(s) && Next(s, step, fingerprint) == t
    ensures RunsTo(steps + [step], fingerprint, t) && Inv(t)
  {
    RunMore(1, map[], steps, step, fingerprint);
    StepKeeps(s, step, fingerprint);
  }

  /** Pick, upload, finish. */
  lemma UploadRuns(steps: seq<Step>, id: nat, data: Bytes, recent: map<Path, int>, cloud: map<Path, Bytes>,
                   fingerprint: Bytes -> int)
    requires RunsTo(steps, fingerprint, At([Node(id, PutItem(data))], id + 1, map[P := id], Idle, recent, cloud))
    ensures RunsTo(steps + Uploaded(id), fingerprint,
                   At([], id + 1, map[], Idle, recent[P := fingerprint(data)], cloud[P := data]))
  {
    var s0 := At([Node(id, PutItem(data))], id + 1, map[P := id], Idle, recent, cloud);
    var s1 := At([], id + 1, map[], Picked(PutItem(data)), recent, cloud);
    var s2 := At([], id + 1, map[], Acted(PutItem(data), Success(true)), recent, cloud[P := data]);
    var s3 := At([], id + 1, map[], Idle, recent[P := fingerprint(data)], cloud[P := data]);
    var a, b, c := DoPick(0, {id}), DoAct(0, Missing, true, false, true), DoFinish(0);
    assert steps + [a] + [b] + [c] == steps + Uploaded(id);
    hide Inv, RunsTo, At, Next;
    RunInv(steps, fingerprint, s0);
    PickOnly(id, PutItem(data), recent, cloud, fingerprint);
    OneMore(steps, a, fingerprint, s0, s1);
    ActOk([], id + 1, data, recent, cloud, fingerprint);
    OneMore(steps + [a], b, fingerprint, s1, s2);
    FinishOk([], id + 1, data, recent, cloud[P := data], fingerprint);
    OneMore(steps + [a] + [b], c, fingerprint, s2, s3);
  }

  lemma EnqueueRuns(steps: seq<Step>, id: nat, data: Bytes, recent: map<Path, int>, cloud: map<Path, Bytes>,
                    fingerprint: Bytes -> int)
    requires RunsTo(steps, fingerprint, At([], id, map[], Idle, recent, cloud))
    requires P !in recent || recent[P] != fingerprint(data)
    ensures RunsTo(steps + [Put(data)], fingerprint,
                   At([Node(id, PutItem(data))], id + 1, map[P := id], Idle, recent, cloud))
  {
    RunInv(steps, fingerprint, At([], id, map[], Idle, recent, cloud));
    Enqueues(At([], id, map[], Idle, recent, cloud), data, fingerprint, cloud, recent, id);
    OneMore(steps, Put(data), fingerprint, At([], id, map[], Idle, recent, cloud),
            At([Node(id, PutItem(data))], id + 1, map[P := id], Idle, recent, cloud));
  }

  lemma NothingRun(fingerprint: Bytes -> int)
    ensures RunsTo([], fingerprint, At([], 0, map[], Idle, map[], map[]))
  {
    assert seq(1, _ => Idle) == [Idle];
  }

  lemma RepeatDropped(steps: seq<Step>, id: nat, data: Bytes, other: Bytes, cloud: map<Path, Bytes>,
                      fingerprint: Bytes -> int)
    requires RunsTo(steps, fingerprint,
                    At([Node(id, PutItem(other))], id + 1, map[P := id], Idle, map[P := fingerprint(data)], cloud))
    ensures RunsTo(steps + [Put(data)], fingerprint,
                   At([Node(id, PutItem(other))], id + 1, map[P := id], Idle, map[P := fingerprint(data)], cloud))
  {
    hide Inv, RunsTo, Run, Next, At;
    var s := At([Node(id, PutItem(other))], id + 1, map[P := id], Idle, map[P := fingerprint(data)], cloud);
    RunInv(steps, fingerprint, s);
    RepeatStep(id, data, other, cloud, fingerprint);
    OneMore(steps, Put(data), fingerprint, s, s);
  }

  lemma RepeatStep(id: nat, data: Bytes, other: Bytes, cloud: map<Path, Bytes>, fingerprint: Bytes -> int)
    requires Inv(At([Node(id, PutItem(other))], id + 1, map[P := id], Idle, map[P := fingerprint(data)], cloud))
    ensures var s := At([Node(id, PutItem(other))], id + 1, map[P := id], Idle, map[P := fingerprint(data)], cloud);
            Next(s, Put(data), fingerprint) == s
  {
    hide Inv, Replace, Push;
  }

  lemma DroppedRuns(fingerprint: Bytes -> int)
    requires fingerprint([1]) != fingerprint([2])
    ensures RunsTo(DroppedRun(), fingerprint, At([], 2, map[], Idle, map[P := fingerprint([2])], map[P := [2]]))
  {
    hide Run, At, Next, Inv, RunsTo;
    var fp := fingerprint([1]);
    var s1 := [] + [Put([1])] + Uploaded(0);
    var s2 := s1 + [Put([2])] + [Put([1])];
    assert s2 + Uploaded(1) == DroppedRun();
    assert map[][P := fp] == map[P := fp] && map[][P := [1]] == map[P := [1]];
    assert map[P := fp][P := fingerprint([2])] == map[P := fingerprint([2])]
           && map[P := [1]][P := [2]] == map[P := [2]];
    NothingRun(fingerprint);
    EnqueueRuns([], 0, [1], map[], map[], fingerprint);
    UploadRuns([] + [Put([1])], 0, [1], map[], map[], fingerprint);
    EnqueueRuns(s1, 1, [2], map[P := fp], map[P := [1]], fingerprint);
    RepeatDropped(s1 + [Put([2])], 1, [1], [2], map[P := [1]], fingerprint);
    UploadRuns(s2, 1, [2], map[P := fp], map[P := [1]], fingerprint);
  }

  /** The last upload enqueued carries [1], but the provider is left with [2]: the fingerprint of the finished
      upload makes the new one look like a repetition, although a different one is still queued. */
  lemma LastUploadDropped(fingerprint: Bytes -> int)
    requires fingerprint([1]) != fingerprint([2])
    ensures var s := Run(1, map[], DroppedRun(), fingerprint);
            s.queue == [] && s.workers == [Idle] && s.cloud == map[P := [2]]
  {
    var s := At([], 2, map[], Idle, map[P := fingerprint([2])], map[P := [2]]);
    assert s.queue == [] && s.workers == [Idle] && s.cloud == map[P := [2]];
    DroppedRuns(fingerprint);
    hide Run, At;
  }

  function Uploaded(id: nat): seq<Step> {
    [DoPick(0, {id}), DoAct(0, Missing, true, false, true), DoFinish(0)]
  }

  lemma RunInv(steps: seq<Step>, fingerprint: Bytes -> int, s: State)
    requires RunsTo(steps, fingerprint, s)
    ensures Inv(s)
  {
  }

  // ---- nor if the other one is already in a worker's hands ----

  function InHandRun(): seq<Step> {
    [] + [Put([1])] + Uploaded(0) + [Put([2])] + [DoPick(0, {1})] + [Put([1])] + [TRANSFER_OK] + [DoFinish(0)]
  }

  lemma RepeatInHand(fingerprint: Bytes -> int)
    ensures var s := At([], 2, map[], Picked(PutItem([2])), map[P := fingerprint([1])], map[P := [1]]);
            Inv(s) ==> Next(s, Put([1]), fingerprint) == s
  {
    hide Inv, Replace, Push;
  }

  lemma InHandRuns(fingerprint: Bytes -> int)
    requires fingerprint([1]) != fingerprint([2])
    ensures RunsTo(InHandRun(), fingerprint,
                   At([], 2, map[], Idle, map[P := fingerprint([1])][P := fingerprint([2])], map[P := [2]]))
  {
    hide Run, At, Next, Inv, RunsTo;
    var recent := map[P := fingerprint([1])];
    var s1 := [] + [Put([1])] + Uploaded(0) + [Put([2])];
    var a, b :=
          At([Node(1, PutItem([2]))], 2, map[P := 1], Idle, recent, map[P := [1]]),
          At([], 2, map[], Picked(PutItem([2])), recent, map[P := [1]]);
    var c := At([], 2, map[], Acted(PutItem([2]), Success(true)), recent, map[P := [1]][P := [2]]);
    assert map[][P := fingerprint([1])] == recent && map[][P := [1]] == map[P := [1]]
           && map[P := [1]][P := [2]] == map[P := [2]];
    NothingRun(fingerprint);
    EnqueueRuns([], 0, [1], map[], map[], fingerprint);
    UploadRuns([] + [Put([1])], 0, [1], map[], map[], fingerprint);
    EnqueueRuns([] + [Put([1])] + Uploaded(0), 1, [2], recent, map[P := [1]], fingerprint);
    RunInv(s1, fingerprint, a);
    PickOnly(1, PutItem([2]), recent, map[P := [1]], fingerprint);
    OneMore(s1, DoPick(0, {1}), fingerprint, a, b);
    RepeatInHand(fingerprint);
    OneMore(s1 + [DoPick(0, {1})], Put([1]), fingerprint, b, b);
    ActOk([], 2, [2], recent, map[P := [1]], fingerprint);
    OneMore(s1 + [DoPick(0, {1})] + [Put([1])], TRANSFER_OK, fingerprint, b, c);
    FinishOk([], 2, [2], recent, map[P := [1]][P := [2]], fingerprint);
    OneMore(s1 + [DoPick(0, {1})] + [Put([1])] + [TRANSFER_OK], DoFinish(0), fingerprint, c,
            At([], 2, map[], Idle, recent[P := fingerprint([2])], map[P := [2]]));
  }

  /** The last upload enqueued carries [1] and nothing is queued at that moment, but the provider is left with [2]. */
  lemma LastUploadDroppedInHand(fingerprint: Bytes -> int)
    requires fingerprint([1]) != fingerprint([2])
    ensures var s := Run(1, map[], InHandRun(), fingerprint);
            s.queue == [] && s.workers == [Idle] && s.cloud == map[P := [2]]
  {
    hide InHandRun, Run;
    InHandRuns(fingerprint);
  }

  // ---- a delete that has to be retried can run after an upload enqueued later ----

  const DELETE: Step := DoEnqueue(Delete, P, [], false, false, {})
  const TRANSFER_FAILS: Step := DoAct(0, Missing, false, false, false)
  const TRANSFER_OK: Step := DoAct(0, Missing, true, false, true)

  function DeferredRun(): seq<Step> {
    [DELETE] + [DoPick(0, {0})] + [TRANSFER_FAILS] + [DoRequeue(0)] + [DoFinish(0)]
  }

  function OvertakingRun(): seq<Step> {
    DeferredRun() + [Put([1])] + [DoPick(0, {2})] + [TRANSFER_OK] + [DoFinish(0)]
  }

  function OvertakenRun(): seq<Step> {
    OvertakingRun() + [DoPick(0, {1})] + [TRANSFER_OK] + [DoFinish(0)]
  }

  function Del(retries: nat): Item {
    Item(Delete, P, [], false, false, 0, retries, 0)
  }

  /** A delete fails once and waits for its retry. */
  lemma DeleteDeferred(fingerprint: Bytes -> int)
    ensures RunsTo(DeferredRun(), fingerprint, At([Node(1, Del(1))], 2, map[], Idle, map[], map[]))
  {
    hide Inv, RunsTo, Next, Run, At;
    var s0, s1 := At([], 0, map[], Idle, map[], map[]), At([Node(0, Del(0))], 1, map[], Idle, map[], map[]);
    var s2, s3 := At([], 1, map[], Picked(Del(0)), map[], map[]), At([], 1, map[], Acted(Del(1), Retry), map[], map[]);
    var s4, s5 :=
          At([Node(1, Del(1))], 2, map[], Acted(Del(1), Requeued), map[], map[]),
          At([Node(1, Del(1))], 2, map[], Idle, map[], map[]);
    NothingRun(fingerprint);
    RunInv([], fingerprint, s0);
    DeleteQueued(fingerprint);
    DeletePicked(fingerprint);
    DeleteFails(fingerprint);
    DeleteRequeued(fingerprint);
    DeleteLetGo(fingerprint);
    OneMore([], DELETE, fingerprint, s0, s1);
    OneMore([] + [DELETE], DoPick(0, {0}), fingerprint, s1, s2);
    OneMore([] + [DELETE] + [DoPick(0, {0})], TRANSFER_FAILS, fingerprint, s2, s3);
    OneMore([] + [DELETE] + [DoPick(0, {0})] + [TRANSFER_FAILS], DoRequeue(0), fingerprint, s3, s4);
    OneMore([] + [DELETE] + [DoPick(0, {0})] + [TRANSFER_FAILS] + [DoRequeue(0)], DoFinish(0), fingerprint, s4, s5);
    assert [] + [DELETE] == [DELETE];
  }

  lemma DeleteQueued(fingerprint: Bytes -> int)
    ensures var s0, s1 := At([], 0, map[], Idle, map[], map[]), At([Node(0, Del(0))], 1, map[], Idle, map[], map[]);
            Inv(s0) ==> Next(s0, DELETE, fingerprint) == s1
  {
    hide Inv;
  }

  lemma DeletePicked(fingerprint: Bytes -> int)
    ensures var s1, s2 :=
              At([Node(0, Del(0))], 1, map[], Idle, map[], map[]), At([], 1, map[], Picked(Del(0)), map[], map[]);
            Inv(s1) ==> Next(s1, DoPick(0, {0}), fingerprint) == s2
  {
    hide Inv;
    var q := [Node(0, Del(0))];
    assert q[..0] + q[1..] == [];
  }

  lemma DeleteFails(fingerprint: Bytes -> int)
    ensures var s2, s3 :=
              At([], 1, map[], Picked(Del(0)), map[], map[]), At([], 1, map[], Acted(Del(1), Retry), map[], map[]);
            Inv(s2) ==> Next(s2, TRANSFER_FAILS, fingerprint) == s3
  {
    hide Inv;
  }

  lemma DeleteRequeued(fingerprint: Bytes -> int)
    ensures var s3, s4 :=
              At([], 1, map[], Acted(Del(1), Retry), map[], map[]),
              At([Node(1, Del(1))], 2, map[], Acted(Del(1), Requeued), map[], map[]);
            Inv(s3) ==> Next(s3, DoRequeue(0), fingerprint) == s4
  {
    hide Inv;
  }

  lemma DeleteLetGo(fingerprint: Bytes -> int)
    ensures var s4, s5 :=
              At([Node(1, Del(1))], 2, map[], Acted(Del(1), Requeued), map[], map[]),
              At([Node(1, Del(1))], 2, map[], Idle, map[], map[]);
            Inv(s4) ==> Next(s4, DoFinish(0), fingerprint) == s5
  {
    hide Inv;
    assert map[P := 1] - {P} == map[];
  }

  lemma UploadOvertakes(fingerprint: Bytes -> int)
    ensures RunsTo(OvertakingRun(), fingerprint,
                   At([Node(1, Del(1))], 3, map[], Idle, map[P := fingerprint([1])], map[P := [1]]))
  {
    hide Inv, RunsTo, Next, Run, At, DeferredRun;
    var steps, q := DeferredRun(), [Node(1, Del(1))];
    var s5, s6 :=
          At(q, 2, map[], Idle, map[], map[]),
          At([Node(1, Del(1)), Node(2, PutItem([1]))], 3, map[P := 2], Idle, map[], map[]);
    var s7, s8 :=
          At(q, 3, map[], Picked(PutItem([1])), map[], map[]),
          At(q, 3, map[], Acted(PutItem([1]), Success(true)), map[], map[][P := [1]]);
    var s9 := At(q, 3, map[], Idle, map[][P := fingerprint([1])], map[][P := [1]]);
    DeleteDeferred(fingerprint);
    RunInv(steps, fingerprint, s5);
    PutBehind(fingerprint);
    PickSecond(fingerprint);
    OneMore(steps, Put([1]), fingerprint, s5, s6);
    OneMore(steps + [Put([1])], DoPick(0, {2}), fingerprint, s6, s7);
    ActOk(q, 3, [1], map[], map[], fingerprint);
    OneMore(steps + [Put([1])] + [DoPick(0, {2})], TRANSFER_OK, fingerprint, s7, s8);
    FinishOk(q, 3, [1], map[], map[][P := [1]], fingerprint);
    OneMore(steps + [Put([1])] + [DoPick(0, {2})] + [TRANSFER_OK], DoFinish(0), fingerprint, s8, s9);
  }

  lemma PutBehind(fingerprint: Bytes -> int)
    ensures var s5, s6 := At([Node(1, Del(1))], 2, map[], Idle, map[], map[]),
                          At([Node(1, Del(1)), Node(2, PutItem([1]))], 3, map[P := 2], Idle, map[], map[]);
            Inv(s5) ==> Next(s5, Put([1]), fingerprint) == s6
  {
    hide Inv;
  }

  lemma PickSecond(fingerprint: Bytes -> int)
    ensures var q := [Node(1, Del(1)), Node(2, PutItem([1]))];
            var s6, s7 :=
                  At(q, 3, map[P := 2], Idle, map[], map[]),
                  At([Node(1, Del(1))], 3, map[], Picked(PutItem([1])), map[], map[]);
            Inv(s6) ==> Next(s6, DoPick(0, {2}), fingerprint) == s7
  {
    hide Inv;
    var q := [Node(1, Del(1)), Node(2, PutItem([1]))];
    assert q[..1] + q[2..] == [Node(1, Del(1))];
    assert FirstEligible(q, map[], {2}) == 1;
    assert map[P := 2] - {P} == map[];
  }

  /** The last thing enqueued is an upload, but the provider is left without the file: the delete before it
      had to be retried later, the upload did not wait, and then the retry removed it. */
  lemma DeleteOvertaken(fingerprint: Bytes -> int)
    ensures var s := Run(1, map[], OvertakenRun(), fingerprint);
            s.queue == [] && s.workers == [Idle] && s.cloud == map[]
  {
    var s12 := At([], 3, map[], Idle, map[], map[]);
    assert s12.queue == [] && s12.workers == [Idle] && s12.cloud == map[];
    OvertakenRuns(fingerprint);
    hide Run, At;
  }

  lemma OvertakenRuns(fingerprint: Bytes -> int)
    ensures RunsTo(OvertakenRun(), fingerprint, At([], 3, map[], Idle, map[], map[]))
  {
    hide Inv, RunsTo, Next, Run, At, OvertakingRun;
    var fp, steps := fingerprint([1]), OvertakingRun();
    UploadOvertakes(fingerprint);
    var s9 := At([Node(1, Del(1))], 3, map[], Idle, map[P := fp], map[P := [1]]);
    var s10, s11 :=
          At([], 3, map[], Picked(Del(1)), map[P := fp], map[P := [1]]),
          At([], 3, map[], Acted(Del(1), Success(false)), map[P := fp], map[]);
    var s12 := At([], 3, map[], Idle, map[], map[]);
    RunInv(steps, fingerprint, s9);
    LastSteps(fingerprint);
    OneMore(steps, DoPick(0, {1}), fingerprint, s9, s10);
    OneMore(steps + [DoPick(0, {1})], TRANSFER_OK, fingerprint, s10, s11);
    OneMore(steps + [DoPick(0, {1})] + [TRANSFER_OK], DoFinish(0), fingerprint, s11, s12);
  }

  lemma LastSteps(fingerprint: Bytes -> int)
    ensures var recent, cloud := map[P := fingerprint([1])], map[P := [1]];
            var s9, s10 :=
                  At([Node(1, Del(1))], 3, map[], Idle, recent, cloud), At([], 3, map[], Picked(Del(1)), recent, cloud);
            Inv(s9) ==> Next(s9, DoPick(0, {1}), fingerprint) == s10
    ensures var recent, cloud := map[P := fingerprint([1])], map[P := [1]];
            var s10, s11 :=
                  At([], 3, map[], Picked(Del(1)), recent, cloud),
                  At([], 3, map[], Acted(Del(1), Success(false)), recent, map[]);
            Inv(s10) ==> Next(s10, DoAct(0, Missing, true, false, true), fingerprint) == s11
    ensures var recent := map[P := fingerprint([1])];
            var s11, s12 :=
                  At([], 3, map[], Acted(Del(1), Success(false)), recent, map[]), At([], 3, map[], Idle, map[], map[]);
            Inv(s11) ==> Next(s11, DoFinish(0), fingerprint) == s12
  {
    hide Inv;
    var q := [Node(1, Del(1))];
    assert q[..0] + q[1..] == [];
    assert map[P := [1]] - {P} == map[] && map[P := 1] - {P} == map[] && map[P := fingerprint([1])] - {P} == map[];
  }

  // ---- a conditional upload moves an older one behind a delete ----

  const PUT_IF_MISSING: Step := DoEnqueue(Upload, P, [2], true, false, {})

  function ReturningRun(): seq<Step> {
    [] + [Put([1])] + [DELETE] + [PUT_IF_MISSING] + [DoPick(0, {1})] + [TRANSFER_OK] + [DoFinish(0)] + Uploaded(2)
  }

  lemma ReturningStart(fingerprint: Bytes -> int)
    ensures var q := [Node(0, PutItem([1])), Node(1, Del(0))];
            var s1, s2 := At([q[0]], 1, map[P := 0], Idle, map[], map[]), At(q, 2, map[P := 0], Idle, map[], map[]);
            Inv(s1) ==> Next(s1, DELETE, fingerprint) == s2
    ensures var q := [Node(1, Del(0)), Node(2, PutItem([1]))];
            var s2 := At([Node(0, PutItem([1])), Node(1, Del(0))], 2, map[P := 0], Idle, map[], map[]);
            Inv(s2) ==> Next(s2, PUT_IF_MISSING, fingerprint) == At(q, 3, map[P := 2], Idle, map[], map[])
  {
    var q := [Node(0, PutItem([1])), Node(1, Del(0))];
    var s2 := At(q, 2, map[P := 0], Idle, map[], map[]);
    assert Without(q, 0) == [Node(1, Del(0))];
    assert map[P := 0] - {P} == map[] && map[][P := 2] == map[P := 2];
    assert Inv(s2) ==> Lookup(q, 0) == 0;
    hide Inv, Lookup, Without;
  }

  lemma ReturningDelete(fingerprint: Bytes -> int)
    ensures var q, r := [Node(1, Del(0)), Node(2, PutItem([1]))], [Node(2, PutItem([1]))];
            var s3, s4 :=
                  At(q, 3, map[P := 2], Idle, map[], map[]), At(r, 3, map[P := 2], Picked(Del(0)), map[], map[]);
            Inv(s3) ==> Next(s3, DoPick(0, {1}), fingerprint) == s4
    ensures var r := [Node(2, PutItem([1]))];
            var s4, s5 := At(r, 3, map[P := 2], Picked(Del(0)), map[], map[]),
                          At(r, 3, map[P := 2], Acted(Del(0), Success(false)), map[], map[]);
            Inv(s4) ==> Next(s4, TRANSFER_OK, fingerprint) == s5
    ensures var r := [Node(2, PutItem([1]))];
            var s5, s6 := At(r, 3, map[P := 2], Acted(Del(0), Success(false)), map[], map[]),
                          At(r, 3, map[P := 2], Idle, map[], map[]);
            Inv(s5) ==> Next(s5, DoFinish(0), fingerprint) == s6
  {
    hide Inv;
    var q := [Node(1, Del(0)), Node(2, PutItem([1]))];
    assert q[..0] + q[1..] == [Node(2, PutItem([1]))];
    assert map[P := 1] - {P} == map[];
  }

  lemma ReturningRuns(fingerprint: Bytes -> int)
    ensures RunsTo(ReturningRun(), fingerprint, At([], 3, map[], Idle, map[P := fingerprint([1])], map[P := [1]]))
  {
    hide Inv, RunsTo, Next, Run, At;
    var a, d, u := Node(0, PutItem([1])), Node(1, Del(0)), Node(2, PutItem([1]));
    var s1, s2 := At([a], 1, map[P := 0], Idle, map[], map[]), At([a, d], 2, map[P := 0], Idle, map[], map[]);
    var s3, s4 := At([d, u], 3, map[P := 2], Idle, map[], map[]), At([u], 3, map[P := 2], Picked(Del(0)), map[], map[]);
    var s5 := At([u], 3, map[P := 2], Acted(Del(0), Success(false)), map[], map[]);
    var s6 := At([u], 3, map[P := 2], Idle, map[], map[]);
    var steps := [] + [Put([1])];
    NothingRun(fingerprint);
    EnqueueRuns([], 0, [1], map[], map[], fingerprint);
    RunInv(steps, fingerprint, s1);
    ReturningStart(fingerprint);
    ReturningDelete(fingerprint);
    OneMore(steps, DELETE, fingerprint, s1, s2);
    OneMore(steps + [DELETE], PUT_IF_MISSING, fingerprint, s2, s3);
    OneMore(steps + [DELETE] + [PUT_IF_MISSING], DoPick(0, {1}), fingerprint, s3, s4);
    OneMore(steps + [DELETE] + [PUT_IF_MISSING] + [DoPick(0, {1})], TRANSFER_OK, fingerprint, s4, s5);
    OneMore(steps + [DELETE] + [PUT_IF_MISSING] + [DoPick(0, {1})] + [TRANSFER_OK], DoFinish(0), fingerprint, s5, s6);
    UploadRuns(steps + [DELETE] + [PUT_IF_MISSING] + [DoPick(0, {1})] + [TRANSFER_OK] + [DoFinish(0)], 2, [1], map[],
               map[],
               fingerprint);
    assert map[][P := fingerprint([1])] == map[P := fingerprint([1])] && map[][P := [1]] == map[P := [1]];
  }

  /** An upload of [1], a delete, and an upload of [2] if nothing is there: the provider is left with [1]. The last one
      found the first still queued, and put it back behind the delete in its own stead. */
  lemma DeletedComesBack(fingerprint: Bytes -> int)
    ensures var s := Run(1, map[], ReturningRun(), fingerprint);
            s.queue == [] && s.workers == [Idle] && s.cloud == map[P := [1]]
  {
    var s := At([], 3, map[], Idle, map[P := fingerprint([1])], map[P := [1]]);
    assert s.queue == [] && s.workers == [Idle] && s.cloud == map[P := [1]];
    ReturningRuns(fingerprint);
    hide Run, At;
  }

  // ---- a retry is dropped for a conditional upload ----

  function Conditional(): Item {
    NewItem(Upload, P, [2], true, false)
  }

  function TriedOnce(): Item {
    PutItem([1]).(transferRetries := 1)
  }

  function DroppedRetryRun(): seq<Step> {
    [] + [Put([1])] + [DoPick(0, {0})] + [PUT_IF_MISSING] + [TRANSFER_FAILS] + [DoRequeue(0)] + [DoFinish(0)]
    + [DoPick(0, {1})] + [TRANSFER_OK] + [DoFinish(0)]
  }

  lemma DroppedRetryStart(fingerprint: Bytes -> int)
    ensures var s2, s3 := At([], 1, map[], Picked(PutItem([1])), map[], map[]),
                          At([Node(1, Conditional())], 2, map[P := 1], Picked(PutItem([1])), map[], map[]);
            Inv(s2) ==> Next(s2, PUT_IF_MISSING, fingerprint) == s3
    ensures var q := [Node(1, Conditional())];
            var s3, s4 := At(q, 2, map[P := 1], Picked(PutItem([1])), map[], map[]),
                          At(q, 2, map[P := 1], Acted(TriedOnce(), Retry), map[], map[]);
            Inv(s3) ==> Next(s3, TRANSFER_FAILS, fingerprint) == s4
  {
    hide Inv;
  }

  lemma DroppedRetryEnd(fingerprint: Bytes -> int)
    ensures var q := [Node(1, Conditional())];
            var s4, s5 := At(q, 2, map[P := 1], Acted(TriedOnce(), Retry), map[], map[]),
                          At(q, 2, map[P := 1], Acted(TriedOnce(), Stale), map[], map[]);
            Inv(s4) ==> Next(s4, DoRequeue(0), fingerprint) == s5
    ensures var q := [Node(1, Conditional())];
            var s5, s6 := At(q, 2, map[P := 1], Acted(TriedOnce(), Stale), map[], map[]),
                          At(q, 2, map[P := 1], Idle, map[], map[]);
            Inv(s5) ==> Next(s5, DoFinish(0), fingerprint) == s6
  {
    hide Inv;
    assert map[P := 1] - {P} == map[];
  }

  lemma ConditionalUploads(fingerprint: Bytes -> int)
    ensures var s7, s8 := At([], 2, map[], Picked(Conditional()), map[], map[]),
                          At([], 2, map[], Acted(Conditional(), Success(true)), map[], map[P := [2]]);
            Inv(s7) ==> Next(s7, TRANSFER_OK, fingerprint) == s8
    ensures var s8, s9 := At([], 2, map[], Acted(Conditional(), Success(true)), map[], map[P := [2]]),
                          At([], 2, map[], Idle, map[P := fingerprint([2])], map[P := [2]]);
            Inv(s8) ==> Next(s8, DoFinish(0), fingerprint) == s9
  {
    hide Inv;
    assert map[P := 1] - {P} == map[];
  }

  lemma DroppedRetryRuns(fingerprint: Bytes -> int)
    ensures RunsTo(DroppedRetryRun(), fingerprint, At([], 2, map[], Idle, map[P := fingerprint([2])], map[P := [2]]))
  {
    hide Inv, RunsTo, Next, Run, At, TriedOnce;
    var q, steps := [Node(1, Conditional())], [] + [Put([1])];
    var s1, s2 :=
          At([Node(0, PutItem([1]))], 1, map[P := 0], Idle, map[], map[]),
          At([], 1, map[], Picked(PutItem([1])), map[], map[]);
    var s3, s4 :=
          At(q, 2, map[P := 1], Picked(PutItem([1])), map[], map[]),
          At(q, 2, map[P := 1], Acted(TriedOnce(), Retry), map[], map[]);
    var s5, s6 :=
          At(q, 2, map[P := 1], Acted(TriedOnce(), Stale), map[], map[]), At(q, 2, map[P := 1], Idle, map[], map[]);
    var s7, s8 :=
          At([], 2, map[], Picked(Conditional()), map[], map[]),
          At([], 2, map[], Acted(Conditional(), Success(true)), map[], map[P := [2]]);
    var s9 := At([], 2, map[], Idle, map[P := fingerprint([2])], map[P := [2]]);
    NothingRun(fingerprint);
    EnqueueRuns([], 0, [1], map[], map[], fingerprint);
    RunInv(steps, fingerprint, s1);
    PickOnly(0, PutItem([1]), map[], map[], fingerprint);
    OneMore(steps, DoPick(0, {0}), fingerprint, s1, s2);
    DroppedRetryStart(fingerprint);
    DroppedRetryEnd(fingerprint);
    OneMore(steps + [DoPick(0, {0})], PUT_IF_MISSING, fingerprint, s2, s3);
    var a := steps + [DoPick(0, {0})] + [PUT_IF_MISSING];
    OneMore(a, TRANSFER_FAILS, fingerprint, s3, s4);
    OneMore(a + [TRANSFER_FAILS], DoRequeue(0), fingerprint, s4, s5);
    OneMore(a + [TRANSFER_FAILS] + [DoRequeue(0)], DoFinish(0), fingerprint, s5, s6);
    var b := a + [TRANSFER_FAILS] + [DoRequeue(0)] + [DoFinish(0)];
    PickOnly(1, Conditional(), map[], map[], fingerprint);
    ConditionalUploads(fingerprint);
    OneMore(b, DoPick(0, {1}), fingerprint, s6, s7);
    OneMore(b + [DoPick(0, {1})], TRANSFER_OK, fingerprint, s7, s8);
    OneMore(b + [DoPick(0, {1})] + [TRANSFER_OK], DoFinish(0), fingerprint, s8, s9);
  }

  /** An upload of [1] whose first transfer fails, and meanwhile an upload of [2] if nothing is there: the provider is
      left with [2]. The retry is dropped for the conditional upload, although that was to give way. */
  lemma RetryGivesWay(fingerprint: Bytes -> int)
    ensures var s := Run(1, map[], DroppedRetryRun(), fingerprint);
            s.queue == [] && s.workers == [Idle] && s.cloud == map[P := [2]]
  {
    var s := At([], 2, map[], Idle, map[P := fingerprint([2])], map[P := [2]]);
    assert s.queue == [] && s.workers == [Idle] && s.cloud == map[P := [2]];
    DroppedRetryRuns(fingerprint);
    hide Run, At;
  }

  // ---- a drain puts an older failed upload behind a newer one ----

  /** The same with failure records. */
  function Failing(queue: seq<Node>, nextId: nat, index: map<Path, nat>, worker: Worker, recent: map<Path, int>,
                   cloud: map<Path, Bytes>,
                   failed: map<Path, Item>): State {
    At(queue, nextId, index, worker, recent, cloud).(failed := failed, failedPaths := failed.Keys)
  }

  /** The upload of [1], after this many failed transfers and drains. */
  function Up(retries: nat, drains: nat): Item {
    Item(Upload, P, [1], false, false, 0, retries, drains)
  }

  function Round(id: nat): seq<Step> {
    [DoPick(0, {id})] + [TRANSFER_FAILS] + [DoRequeue(0)] + [DoFinish(0)]
  }

  lemma UploadFails(r: nat, id: nat, fingerprint: Bytes -> int)
    ensures var s, t :=
              At([], id, map[], Picked(Up(r, 0)), map[], map[]),
              At([], id, map[], Acted(Up(r + 1, 0), if r < 3 then Retry else Failed), map[], map[]);
            Inv(s) ==> Next(s, TRANSFER_FAILS, fingerprint) == t
  {
    hide Inv;
  }

  lemma UploadRequeued(r: nat, id: nat, fingerprint: Bytes -> int)
    ensures var s, t := At([], id, map[], Acted(Up(r, 0), Retry), map[], map[]),
                        At([Node(id, Up(r, 0))], id + 1, map[P := id], Acted(Up(r, 0), Requeued), map[], map[]);
            Inv(s) ==> Next(s, DoRequeue(0), fingerprint) == t
  {
    hide Inv;
  }

  lemma UploadLetGo(r: nat, id: nat, fingerprint: Bytes -> int)
    ensures var s, t := At([Node(id, Up(r, 0))], id + 1, map[P := id], Acted(Up(r, 0), Requeued), map[], map[]),
                        At([Node(id, Up(r, 0))], id + 1, map[P := id], Idle, map[], map[]);
            Inv(s) ==> Next(s, DoFinish(0), fingerprint) == t
  {
    hide Inv;
    assert map[P := 1] - {P} == map[];
  }

  /** One more failed attempt. */
  lemma RoundRuns(steps: seq<Step>, r: nat, id: nat, fingerprint: Bytes -> int)
    requires r < 3 && RunsTo(steps, fingerprint, At([Node(id, Up(r, 0))], id + 1, map[P := id], Idle, map[], map[]))
    ensures RunsTo(steps + Round(id), fingerprint,
                   At([Node(id + 1, Up(r + 1, 0))], id + 2, map[P := id + 1], Idle, map[], map[]))
  {
    hide Inv, RunsTo, Next, Run, At;
    var s0 := At([Node(id, Up(r, 0))], id + 1, map[P := id], Idle, map[], map[]);
    var s1, s2 :=
          At([], id + 1, map[], Picked(Up(r, 0)), map[], map[]),
          At([], id + 1, map[], Acted(Up(r + 1, 0), Retry), map[], map[]);
    var s3 := At([Node(id + 1, Up(r + 1, 0))], id + 2, map[P := id + 1], Acted(Up(r + 1, 0), Requeued), map[], map[]);
    var s4 := At([Node(id + 1, Up(r + 1, 0))], id + 2, map[P := id + 1], Idle, map[], map[]);
    RunInv(steps, fingerprint, s0);
    PickOnly(id, Up(r, 0), map[], map[], fingerprint);
    UploadFails(r, id + 1, fingerprint);
    UploadRequeued(r + 1, id + 1, fingerprint);
    UploadLetGo(r + 1, id + 1, fingerprint);
    OneMore(steps, DoPick(0, {id}), fingerprint, s0, s1);
    OneMore(steps + [DoPick(0, {id})], TRANSFER_FAILS, fingerprint, s1, s2);
    OneMore(steps + [DoPick(0, {id})] + [TRANSFER_FAILS], DoRequeue(0), fingerprint, s2, s3);
    OneMore(steps + [DoPick(0, {id})] + [TRANSFER_FAILS] + [DoRequeue(0)], DoFinish(0), fingerprint, s3, s4);
    assert steps + [DoPick(0, {id})] + [TRANSFER_FAILS] + [DoRequeue(0)] + [DoFinish(0)] == steps + Round(id);
  }

  function ThreeFailures(): seq<Step> {
    [] + [Put([1])] + Round(0) + Round(1) + Round(2)
  }

  /** After the fourth failure, and a newer upload in the meantime, the older one is on record while the newer one is
      queued. */
  function RecordedRun(): seq<Step> {
    ThreeFailures() + [DoPick(0, {3})] + [TRANSFER_FAILS] + [Put([2])] + [DoFinish(0)]
  }

  lemma ThreeFailuresRun(fingerprint: Bytes -> int)
    ensures RunsTo(ThreeFailures(), fingerprint, At([Node(3, Up(3, 0))], 4, map[P := 3], Idle, map[], map[]))
  {
    hide Run, At, Next, Inv, RunsTo;
    NothingRun(fingerprint);
    EnqueueRuns([], 0, [1], map[], map[], fingerprint);
    assert PutItem([1]) == Up(0, 0);
    RoundRuns([] + [Put([1])], 0, 0, fingerprint);
    RoundRuns([] + [Put([1])] + Round(0), 1, 1, fingerprint);
    RoundRuns([] + [Put([1])] + Round(0) + Round(1), 2, 2, fingerprint);
  }

  lemma NewerQueued(fingerprint: Bytes -> int)
    ensures var s := At([], 4, map[], Acted(Up(4, 0), Failed), map[], map[]);
            var t := At([Node(4, PutItem([2]))], 5, map[P := 4], Acted(Up(4, 0), Failed), map[], map[]);
            Inv(s) ==> Next(s, Put([2]), fingerprint) == t
  {
    hide Inv;
  }

  lemma OlderRecorded(fingerprint: Bytes -> int)
    ensures var s := At([Node(4, PutItem([2]))], 5, map[P := 4], Acted(Up(4, 0), Failed), map[], map[]);
            var t := Failing([Node(4, PutItem([2]))], 5, map[P := 4], Idle, map[], map[], map[P := Up(4, 0)]);
            Inv(s) ==> Next(s, DoFinish(0), fingerprint) == t
  {
    hide Inv;
    assert map[P := 1] - {P} == map[] && map[][P := Up(4, 0)] == map[P := Up(4, 0)];
    assert map[P := Up(4, 0)].Keys == {P};
  }

  lemma RecordedRuns(fingerprint: Bytes -> int)
    ensures RunsTo(RecordedRun(), fingerprint,
                   Failing([Node(4, PutItem([2]))], 5, map[P := 4], Idle, map[], map[], map[P := Up(4, 0)]))
  {
    hide Inv, RunsTo, Next, Run, At, Failing, ThreeFailures;
    var steps := ThreeFailures();
    var s0, s1 :=
          At([Node(3, Up(3, 0))], 4, map[P := 3], Idle, map[], map[]), At([], 4, map[], Picked(Up(3, 0)), map[], map[]);
    var s2 := At([], 4, map[], Acted(Up(4, 0), Failed), map[], map[]);
    var s3 := At([Node(4, PutItem([2]))], 5, map[P := 4], Acted(Up(4, 0), Failed), map[], map[]);
    var s4 := Failing([Node(4, PutItem([2]))], 5, map[P := 4], Idle, map[], map[], map[P := Up(4, 0)]);
    ThreeFailuresRun(fingerprint);
    RunInv(steps, fingerprint, s0);
    PickOnly(3, Up(3, 0), map[], map[], fingerprint);
    UploadFails(3, 4, fingerprint);
    NewerQueued(fingerprint);
    OlderRecorded(fingerprint);
    OneMore(steps, DoPick(0, {3}), fingerprint, s0, s1);
    OneMore(steps + [DoPick(0, {3})], TRANSFER_FAILS, fingerprint, s1, s2);
    OneMore(steps + [DoPick(0, {3})] + [TRANSFER_FAILS], Put([2]), fingerprint, s2, s3);
    OneMore(steps + [DoPick(0, {3})] + [TRANSFER_FAILS] + [Put([2])], DoFinish(0), fingerprint, s3, s4);
  }

  const DRAIN: Step := DoRequeueFailed(P, [P])

  /** The drain leaves the older upload behind the newer one. */
  lemma DrainReorders(fingerprint: Bytes -> int)
    ensures var s := Failing([Node(4, PutItem([2]))], 5, map[P := 4], Idle, map[], map[], map[P := Up(4, 0)]);
            var t := At([Node(4, PutItem([2])), Node(5, Up(0, 1))], 6, map[P := 5], Idle, map[], map[]);
            Inv(s) ==> Next(s, DRAIN, fingerprint) == t
  {
    hide Inv;
    var s := Failing([Node(4, PutItem([2]))], 5, map[P := 4], Idle, map[], map[], map[P := Up(4, 0)]);
    assert RequeueAll(s, P, [P][..0]) == s;
    assert map[P := Up(4, 0)] - {P} == map[] && map[P := Up(4, 0)].Keys - {P} == {};
    assert map[P := 4][P := 5] == map[P := 5];
  }

  function OlderLastRun(): seq<Step> {
    RecordedRun() + [DRAIN] + [DoPick(0, {4})] + [TRANSFER_OK] + [DoFinish(0)] + [DoPick(0, {5})] + [TRANSFER_OK] +
      [DoFinish(0)]
  }

  lemma NewerPicked(fingerprint: Bytes -> int)
    ensures var s := At([Node(4, PutItem([2])), Node(5, Up(0, 1))], 6, map[P := 5], Idle, map[], map[]);
            var t := At([Node(5, Up(0, 1))], 6, map[], Picked(PutItem([2])), map[], map[]);
            Inv(s) ==> Next(s, DoPick(0, {4}), fingerprint) == t
  {
    hide Inv;
    var q := [Node(4, PutItem([2])), Node(5, Up(0, 1))];
    assert q[..0] + q[1..] == [Node(5, Up(0, 1))];
    assert map[P := 5] - {P} == map[];
  }

  lemma OlderPicked(recent: map<Path, int>, fingerprint: Bytes -> int)
    ensures var s, t :=
              At([Node(5, Up(0, 1))], 6, map[], Idle, recent, map[P := [2]]),
              At([], 6, map[], Picked(Up(0, 1)), recent, map[P := [2]]);
            Inv(s) ==> Next(s, DoPick(0, {5}), fingerprint) == t
  {
    hide Inv;
    var q := [Node(5, Up(0, 1))];
    assert q[..0] + q[1..] == [];
  }

  lemma OlderActs(recent: map<Path, int>, fingerprint: Bytes -> int)
    ensures var s, t :=
              At([], 6, map[], Picked(Up(0, 1)), recent, map[P := [2]]),
              At([], 6, map[], Acted(Up(0, 1), Success(true)), recent, map[P := [1]]);
            Inv(s) ==> Next(s, TRANSFER_OK, fingerprint) == t
    ensures var s, t := At([], 6, map[], Acted(Up(0, 1), Success(true)), recent, map[P := [1]]),
                        At([], 6, map[], Idle, recent[P := fingerprint([1])], map[P := [1]]);
            Inv(s) ==> Next(s, DoFinish(0), fingerprint) == t
  {
    hide Inv;
    assert map[P := [2]][P := [1]] == map[P := [1]] && map[P := 1] - {P} == map[];
  }

  lemma NewerSent(fingerprint: Bytes -> int)
    ensures RunsTo(RecordedRun() + [DRAIN] + [DoPick(0, {4})] + [TRANSFER_OK] + [DoFinish(0)], fingerprint,
                   At([Node(5, Up(0, 1))], 6, map[], Idle, map[][P := fingerprint([2])], map[P := [2]]))
  {
    hide Inv, RunsTo, Next, Run, At, Failing, RecordedRun;
    var steps, q := RecordedRun(), [Node(5, Up(0, 1))];
    var s0 := Failing([Node(4, PutItem([2]))], 5, map[P := 4], Idle, map[], map[], map[P := Up(4, 0)]);
    var s1 := At([Node(4, PutItem([2])), Node(5, Up(0, 1))], 6, map[P := 5], Idle, map[], map[]);
    var s2, s3 :=
          At(q, 6, map[], Picked(PutItem([2])), map[], map[]),
          At(q, 6, map[], Acted(PutItem([2]), Success(true)), map[], map[][P := [2]]);
    var s4 := At(q, 6, map[], Idle, map[][P := fingerprint([2])], map[][P := [2]]);
    assert map[][P := [2]] == map[P := [2]];
    RecordedRuns(fingerprint);
    RunInv(steps, fingerprint, s0);
    DrainReorders(fingerprint);
    NewerPicked(fingerprint);
    OneMore(steps, DRAIN, fingerprint, s0, s1);
    OneMore(steps + [DRAIN], DoPick(0, {4}), fingerprint, s1, s2);
    ActOk(q, 6, [2], map[], map[], fingerprint);
    OneMore(steps + [DRAIN] + [DoPick(0, {4})], TRANSFER_OK, fingerprint, s2, s3);
    FinishOk(q, 6, [2], map[], map[][P := [2]], fingerprint);
    OneMore(steps + [DRAIN] + [DoPick(0, {4})] + [TRANSFER_OK], DoFinish(0), fingerprint, s3, s4);
  }

  lemma OlderLastRuns(fingerprint: Bytes -> int)
    ensures RunsTo(OlderLastRun(), fingerprint,
                   At([], 6, map[], Idle, map[][P := fingerprint([2])][P := fingerprint([1])], map[P := [1]]))
  {
    hide Inv, RunsTo, Next, Run, At, RecordedRun;
    var steps, recent :=
          RecordedRun() + [DRAIN] + [DoPick(0, {4})] + [TRANSFER_OK] + [DoFinish(0)], map[][P := fingerprint([2])];
    var s0, s1 :=
          At([Node(5, Up(0, 1))], 6, map[], Idle, recent, map[P := [2]]),
          At([], 6, map[], Picked(Up(0, 1)), recent, map[P := [2]]);
    var s2 := At([], 6, map[], Acted(Up(0, 1), Success(true)), recent, map[P := [1]]);
    var s3 := At([], 6, map[], Idle, recent[P := fingerprint([1])], map[P := [1]]);
    NewerSent(fingerprint);
    RunInv(steps, fingerprint, s0);
    OlderPicked(recent, fingerprint);
    OlderActs(recent, fingerprint);
    OneMore(steps, DoPick(0, {5}), fingerprint, s0, s1);
    OneMore(steps + [DoPick(0, {5})], TRANSFER_OK, fingerprint, s1, s2);
    OneMore(steps + [DoPick(0, {5})] + [TRANSFER_OK], DoFinish(0), fingerprint, s2, s3);
  }

  /** The last upload enqueued carries [2], but the provider is left with [1]: the older upload had failed for good
      while the newer one was queued, a drain put it back behind the newer one, and both succeeded. */
  lemma OlderBehindNewer(fingerprint: Bytes -> int)
    ensures var s := Run(1, map[], RecordedRun(), fingerprint);
            && s.failed == map[P := Up(4, 0)] && s.queue == [Node(4, PutItem([2]))]
            && (var t := RequeueFailed(s, P, P); t.queue == [Node(4, PutItem([2])), Node(5, Up(0, 1))])
    ensures var s := Run(1, map[], OlderLastRun(), fingerprint);
            s.queue == [] && s.workers == [Idle] && s.cloud == map[P := [1]]
  {
    hide *;
    RecordedState(fingerprint);
    OlderLast(fingerprint);
  }

  lemma RecordedState(fingerprint: Bytes -> int)
    ensures var s := Run(1, map[], RecordedRun(), fingerprint);
            && s.failed == map[P := Up(4, 0)] && s.queue == [Node(4, PutItem([2]))]
            && (var t := RequeueFailed(s, P, P); t.queue == [Node(4, PutItem([2])), Node(5, Up(0, 1))])
  {
    hide RecordedRun, Run;
    RecordedRuns(fingerprint);
    var f := Failing([Node(4, PutItem([2]))], 5, map[P := 4], Idle, map[], map[], map[P := Up(4, 0)]);
    assert RequeueFailed(f, P, P).queue == [Node(4, PutItem([2])), Node(5, Up(0, 1))];
  }

  lemma OlderLast(fingerprint: Bytes -> int)
    ensures var s := Run(1, map[], OlderLastRun(), fingerprint);
            s.queue == [] && s.workers == [Idle] && s.cloud == map[P := [1]]
  {
    hide OlderLastRun, Run;
    OlderLastRuns(fingerprint);
  }
}
