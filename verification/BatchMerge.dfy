/** batch_tracker.cpp and batch_merge.cpp: collapsing the operations of an upload batch, and applying the
    collapsed batch to the cloud's file map. */
module BatchMerge {
  import S = StateCodec

  type Name = string
  type Key = int

  datatype Meta = Meta(sha: seq<int>, timestamp: nat, size: nat)

  datatype MergedFile = MergedFile(sha: seq<int>, timestamp: nat, size: nat, platforms: nat)

  datatype Batch = Batch(id: nat, uploads: set<Name>, deletes: set<Name>, platforms: map<Name, nat>,
                         meta: map<Name, Meta>)

  datatype Op = Upload(name: Name, meta: Meta) | Delete(name: Name) | Platforms(name: Name, mask: nat)

  /** What the tracker does with one recorded operation. */
  function Record(b: Batch, op: Op): Batch {
    match op
    case Upload(name, meta) => b.(deletes := b.deletes - {name}, uploads := b.uploads + {name},
                                  meta := b.meta[name := meta])
    case Delete(name) => b.(uploads := b.uploads - {name}, deletes := b.deletes + {name})
    case Platforms(name, mask) => b.(platforms := b.platforms[name := mask])
  }

  function RecordAll(b: Batch, ops: seq<Op>): Batch {
    if |ops| == 0 then b else Record(RecordAll(b, ops[..|ops| - 1]), ops[|ops| - 1])
  }

  function NewBatch(id: nat): Batch {
    Batch(id, {}, {}, map[], map[])
  }

  /** The active batches, by account and app. */
  class Tracker {
    var active: map<Key, Batch>

    constructor ()
      ensures active == map[]
    {
      active := map[];
    }

    /** A new batch replaces a stale one. */
    method Begin(key: Key, id: nat)
      modifies this
      ensures active == old(active)[key := NewBatch(id)]
    {
      if key in active {
        active := active - {key};
      }
      active := active[key := NewBatch(id)];
      assert old(active)[key := NewBatch(id)] == (old(active) - {key})[key := NewBatch(id)];
    }

    /** Nothing is recorded without an active batch. */
    method RecordUpload(key: Key, name: Name, meta: Meta)
      modifies this
      ensures active == if key in old(active) then old(active)[key := Record(old(active)[key], Upload(name, meta))]
              else old(active)
    {
      if key !in active {
        return;
      }
      var b := active[key];
      b := b.(deletes := b.deletes - {name});
      b := b.(uploads := b.uploads + {name});
      b := b.(meta := b.meta[name := meta]);
      active := active[key := b];
    }

    method RecordDelete(key: Key, name: Name)
      modifies this
      ensures active == if key in old(active) then old(active)[key := Record(old(active)[key], Delete(name))]
              else old(active)
    {
      if key !in active {
        return;
      }
      var b := active[key];
      b := b.(uploads := b.uploads - {name});
      b := b.(deletes := b.deletes + {name});
      active := active[key := b];
    }

    method RecordFilePlatforms(key: Key, name: Name, mask: nat)
      modifies this
      ensures active == if key in old(active)
              then old(active)[key := Record(old(active)[key], Platforms(name, mask))] else old(active)
    {
      if key !in active {
        return;
      }
      var b := active[key];
      active := active[key := b.(platforms := b.platforms[name := mask])];
    }

    /** The active batch, or an empty one if there is none or another one is asked for. */
    method Get(key: Key, requested: nat) returns (b: Batch)
      ensures b == if key in active && (requested == 0 || active[key].id == requested) then active[key] else NewBatch(0)
    {
      if key !in active || (requested != 0 && active[key].id != requested) {
        return NewBatch(0);
      }
      b := active[key];
    }

    method Clear(key: Key, id: nat)
      modifies this
      ensures active == if key in old(active) && old(active)[key].id == id then old(active) - {key} else old(active)
    {
      if key in active && active[key].id == id {
        active := active - {key};
      }
    }
  }

  // ---- the merge ----

  datatype Inputs = Inputs(cloudCn: nat, localCn: nat, localManifest: map<Name, Meta>, deletes: seq<Name>,
                           uploads: seq<Name>,
                           uploadMeta: map<Name, Meta>, platforms: map<Name, nat>)

  function LocalEntry(m: Meta): MergedFile {
    MergedFile(m.sha, m.timestamp, m.size, S.ALL_PLATFORMS)
  }

  function UploadedEntry(name: Name, meta: map<Name, Meta>, platforms: map<Name, nat>): MergedFile {
    var m := if name in meta then meta[name] else Meta([], 0, 0);
    MergedFile(m.sha, m.timestamp, m.size, if name in platforms then platforms[name] else S.ALL_PLATFORMS)
  }

  /** The files a batch starts from: the cloud's, and local-only ones when the local change number is ahead. */
  function Base(cloud: map<Name, MergedFile>, cloudCn: nat, localCn: nat,
                local: map<Name, Meta>): map<Name, MergedFile> {
    if cloudCn < localCn then (map name | name in local :: LocalEntry(local[name])) + cloud else cloud
  }

  predicate Writes(inputs: Inputs, name: Name, reserved: Name -> bool) {
    name in inputs.uploads && !reserved(name)
  }

  /** The merged map, name by name. */
  ghost predicate Merged(cloud: map<Name, MergedFile>, inputs: Inputs, reserved: Name -> bool,
                         r: map<Name, MergedFile>) {
    var base := Base(cloud, inputs.cloudCn, inputs.localCn, inputs.localManifest);
    forall name ::
      if Writes(inputs, name, reserved)
         then name in r && r[name] == UploadedEntry(name, inputs.uploadMeta, inputs.platforms)
      else if name in inputs.deletes then name !in r
      else (name in r <==> name in base) && (name in r ==> r[name] == base[name])
  }

  /** MergeBatchIntoPublishState */
  method Merge(cloud: map<Name, MergedFile>, inputs: Inputs, reserved: Name -> bool)
    returns (files: map<Name, MergedFile>)
    ensures Merged(cloud, inputs, reserved, files)
  {
    files := AddLocalOnly(cloud, inputs);
    files := RemoveDeleted(files, inputs.deletes);
    files := AddUploaded(files, inputs, reserved);
  }

  method RemoveDeleted(base: map<Name, MergedFile>, deletes: seq<Name>) returns (files: map<Name, MergedFile>)
    ensures forall name ::
              (name in files <==> name in base && name !in deletes) && (name in files ==> files[name] == base[name])
  {
    files := base;
    var i := 0;
    while i < |deletes|
      invariant 0 <= i <= |deletes|
      invariant forall name ::
                  (name in files <==> name in base && name !in deletes[..i])
                  && (name in files ==> files[name] == base[name])
    {
      files := files - {deletes[i]};
      i := i + 1;
    }
    assert deletes[..i] == deletes;
  }

  method AddUploaded(kept: map<Name, MergedFile>, inputs: Inputs, reserved: Name -> bool)
    returns (files: map<Name, MergedFile>)
    ensures forall name ::
      if name in inputs.uploads && !reserved(name)
         then name in files && files[name] == UploadedEntry(name, inputs.uploadMeta, inputs.platforms)
      else (name in files <==> name in kept) && (name in files ==> files[name] == kept[name])
  {
    files := kept;
    var j := 0;
    while j < |inputs.uploads|
      invariant 0 <= j <= |inputs.uploads|
      invariant forall name ::
        if name in inputs.uploads[..j] && !reserved(name)
           then name in files && files[name] == UploadedEntry(name, inputs.uploadMeta, inputs.platforms)
        else (name in files <==> name in kept) && (name in files ==> files[name] == kept[name])
    {
      var name := inputs.uploads[j];
      if !reserved(name) {
        files := files[name := UploadedEntry(name, inputs.uploadMeta, inputs.platforms)];
      }
      j := j + 1;
    }
    assert inputs.uploads[..j] == inputs.uploads;
  }

  method AddLocalOnly(cloud: map<Name, MergedFile>, inputs: Inputs) returns (files: map<Name, MergedFile>)
    ensures files == Base(cloud, inputs.cloudCn, inputs.localCn, inputs.localManifest)
  {
    files := cloud;
    if inputs.cloudCn < inputs.localCn {
      files := AddMissing(cloud, inputs.localManifest);
      BaseIs(cloud, inputs.localManifest, files);
    }
  }

  ghost predicate WithLocal(cloud: map<Name, MergedFile>, local: map<Name, Meta>, added: set<Name>,
                            files: map<Name, MergedFile>)
    requires added <= local.Keys
  {
    && (forall name :: name in files <==> name in cloud || name in added)
    && (forall name :: name in files ==> files[name] == if name in cloud then cloud[name] else LocalEntry(local[name]))
  }

  lemma BaseIs(cloud: map<Name, MergedFile>, local: map<Name, Meta>, files: map<Name, MergedFile>)
    requires WithLocal(cloud, local, local.Keys, files)
    ensures files == (map name | name in local :: LocalEntry(local[name])) + cloud
  {
  }

  method AddMissing(cloud: map<Name, MergedFile>, local: map<Name, Meta>) returns (files: map<Name, MergedFile>)
    ensures WithLocal(cloud, local, local.Keys, files)
  {
    files := cloud;
    var todo := local.Keys;
    while todo != {}
      invariant todo <= local.Keys && WithLocal(cloud, local, local.Keys - todo, files)
      decreases |todo|
    {
      var name :| name in todo;
      if name !in files {
        files := files[name := LocalEntry(local[name])];
      }
      todo := todo - {name};
    }
  }

  /** There is only one merged map. */
  lemma MergedUnique(cloud: map<Name, MergedFile>, inputs: Inputs, reserved: Name -> bool, r: map<Name, MergedFile>,
                     t: map<Name, MergedFile>)
    requires Merged(cloud, inputs, reserved, r) && Merged(cloud, inputs, reserved, t)
    ensures r == t
  {
    forall name
      ensures (name in r <==> name in t) && (name in r ==> r[name] == t[name])
    {
      if Writes(inputs, name, reserved) {
      } else if name in inputs.deletes {
      } else {
      }
    }
  }

  // ---- the collapsed batch against the operations one by one ----

  /** One operation on the file map; platforms are those recorded by the end of the batch. */
  function Replay(files: map<Name, MergedFile>, ops: seq<Op>, platforms: map<Name, nat>): map<Name, MergedFile> {
    if |ops| == 0 then files
    else
      var before := Replay(files, ops[..|ops| - 1], platforms);
      match ops[|ops| - 1]
      case Upload(name, meta) => before[name := UploadedEntry(name, map[name := meta], platforms)]
      case Delete(name) => before - {name}
      case Platforms(_, _) => before
  }

  /** The lists a batch is merged from, in any order. */
  ghost predicate Lists(b: Batch, inputs: Inputs) {
    && (forall name :: name in inputs.uploads <==> name in b.uploads)
    && (forall name :: name in inputs.deletes <==> name in b.deletes)
    && inputs.uploadMeta == b.meta && inputs.platforms == b.platforms
  }

  /** What the collapsed batch says about a name is what the operations on it amount to. */
  lemma {:induction false} Collapsed(id: nat, ops: seq<Op>, files: map<Name, MergedFile>, platforms: map<Name, nat>,
                                     name: Name)
    ensures var b := RecordAll(NewBatch(id), ops); var r := Replay(files, ops, platforms);
            && !(name in b.uploads && name in b.deletes)
            && (name in b.uploads ==> name in r && r[name] == UploadedEntry(name, b.meta, platforms))
            && (name in b.deletes ==> name !in r)
            && (name !in b.uploads && name !in b.deletes ==>
                  (name in r <==> name in files) && (name in r ==> r[name] == files[name]))
  {
    if |ops| == 0 {
    } else {
      Collapsed(id, ops[..|ops| - 1], files, platforms, name);
    }
  }

  /** The last operation on the name deletes it. */
  ghost predicate DeletedLast(ops: seq<Op>, name: Name) {
    |ops| > 0 &&
    var op, before := ops[|ops| - 1], ops[..|ops| - 1];
    if op.Platforms? || op.name != name then DeletedLast(before, name) else op.Delete?
  }

  lemma {:induction false} DeletedIs(id: nat, ops: seq<Op>, name: Name)
    ensures name in RecordAll(NewBatch(id), ops).deletes <==> DeletedLast(ops, name)
  {
    if |ops| > 0 {
      DeletedIs(id, ops[..|ops| - 1], name);
    }
  }

  ghost predicate NoReservedUploads(ops: seq<Op>, reserved: Name -> bool) {
    forall i :: 0 <= i < |ops| && ops[i].Upload? ==> !reserved(ops[i].name)
  }

  lemma {:induction false} RecordedNames(id: nat, ops: seq<Op>, reserved: Name -> bool, name: Name)
    requires NoReservedUploads(ops, reserved) && name in RecordAll(NewBatch(id), ops).uploads
    ensures !reserved(name)
  {
    var k := |ops| - 1;
    if !ops[k].Upload? || ops[k].name != name {
      RecordedNames(id, ops[..k], reserved, name);
    } else {
      assert !reserved(ops[k].name);
    }
  }

  ghost predicate SameAt(r: map<Name, MergedFile>, t: map<Name, MergedFile>, name: Name) {
    (name in r <==> name in t) && (name in r ==> r[name] == t[name])
  }

  /** A batch collapsed by the tracker and merged gives the same files as its operations one by one, at every name that
      is not reserved. A reserved one goes if it was deleted last; otherwise it is as before the batch, even if an
      upload that is skipped followed a delete. */
  lemma MergedIsReplay(id: nat, ops: seq<Op>, cloud: map<Name, MergedFile>, inputs: Inputs, reserved: Name -> bool,
                       r: map<Name, MergedFile>)
    requires Lists(RecordAll(NewBatch(id), ops), inputs) && Merged(cloud, inputs, reserved, r)
    ensures var base := Base(cloud, inputs.cloudCn, inputs.localCn, inputs.localManifest);
            forall name ::
              if !reserved(name) then SameAt(r, Replay(base, ops, inputs.platforms), name)
              else if DeletedLast(ops, name) then name !in r
              else SameAt(r, base, name)
  {
    hide RecordAll, Replay, Merged, Base, DeletedLast;
    var base := Base(cloud, inputs.cloudCn, inputs.localCn, inputs.localManifest);
    forall name
      ensures if !reserved(name) then SameAt(r, Replay(base, ops, inputs.platforms), name)
              else if DeletedLast(ops, name) then name !in r
              else SameAt(r, base, name)
    {
      Collapsed(id, ops, base, inputs.platforms, name);
      DeletedIs(id, ops, name);
      MergedAt(cloud, inputs, reserved, r, name);
    }
  }

  /** So with no upload of a reserved name the files are exactly the same. */
  lemma MergedIsExactly(id: nat, ops: seq<Op>, cloud: map<Name, MergedFile>, inputs: Inputs, reserved: Name -> bool,
                        r: map<Name, MergedFile>)
    requires Lists(RecordAll(NewBatch(id), ops), inputs) && Merged(cloud, inputs, reserved, r)
    requires NoReservedUploads(ops, reserved)
    ensures r == Replay(Base(cloud, inputs.cloudCn, inputs.localCn, inputs.localManifest), ops, inputs.platforms)
  {
    hide RecordAll, Replay, Merged, Base, DeletedLast, NoReservedUploads;
    var base := Base(cloud, inputs.cloudCn, inputs.localCn, inputs.localManifest);
    var t := Replay(base, ops, inputs.platforms);
    forall name
      ensures SameAt(r, t, name)
    {
      Collapsed(id, ops, base, inputs.platforms, name);
      if name in RecordAll(NewBatch(id), ops).uploads {
        RecordedNames(id, ops, reserved, name);
      }
      MergedAt(cloud, inputs, reserved, r, name);
    }
    SameEverywhere(r, t);
  }

  lemma SameEverywhere(r: map<Name, MergedFile>, t: map<Name, MergedFile>)
    requires forall name :: SameAt(r, t, name)
    ensures r == t
  {
    assert forall name :: SameAt(r, t, name) ==> (name in r <==> name in t);
  }

  lemma MergedAt(cloud: map<Name, MergedFile>, inputs: Inputs, reserved: Name -> bool, r: map<Name, MergedFile>,
                 name: Name)
    requires Merged(cloud, inputs, reserved, r)
    ensures var base := Base(cloud, inputs.cloudCn, inputs.localCn, inputs.localManifest);
            if Writes(inputs, name, reserved)
               then name in r && r[name] == UploadedEntry(name, inputs.uploadMeta, inputs.platforms)
            else if name in inputs.deletes then name !in r
            else (name in r <==> name in base) && (name in r ==> r[name] == base[name])
  {
  }

  /** In the collapsed batch no name is both uploaded and deleted. */
  lemma Disjoint(id: nat, ops: seq<Op>)
    ensures var b := RecordAll(NewBatch(id), ops); b.uploads !! b.deletes
  {
    forall name
      ensures !(name in RecordAll(NewBatch(id), ops).uploads && name in RecordAll(NewBatch(id), ops).deletes)
    {
      Collapsed(id, ops, map[], map[], name);
    }
  }

  /** The order of the two lists does not matter. */
  lemma OrderIrrelevant(cloud: map<Name, MergedFile>, a: Inputs, b: Inputs, reserved: Name -> bool,
                        r: map<Name, MergedFile>, t: map<Name, MergedFile>)
    requires (forall name :: name in a.uploads <==> name in b.uploads)
             && (forall name :: name in a.deletes <==> name in b.deletes)
    requires b == a.(uploads := b.uploads, deletes := b.deletes)
    requires Merged(cloud, a, reserved, r) && Merged(cloud, b, reserved, t)
    ensures r == t
  {
    forall name
      ensures (name in r <==> name in t) && (name in r ==> r[name] == t[name])
    {
      MergedAt(cloud, a, reserved, r, name);
      MergedAt(cloud, b, reserved, t, name);
    }
    hide Merged, Base;
  }

  /** Merging the same batch into its own result changes nothing. */
  lemma MergeTwice(cloud: map<Name, MergedFile>, inputs: Inputs, reserved: Name -> bool, r: map<Name, MergedFile>,
                   t: map<Name, MergedFile>)
    requires Merged(cloud, inputs, reserved, r) && Merged(r, inputs, reserved, t)
    ensures t == r
  {
    forall name
      ensures (name in r <==> name in t) && (name in r ==> r[name] == t[name])
    {
      MergedAt(cloud, inputs, reserved, r, name);
      MergedAt(r, inputs, reserved, t, name);
    }
    hide Merged;
  }
}
