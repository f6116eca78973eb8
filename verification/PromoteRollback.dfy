/** Promotion of downloaded blobs with rollback: the tail of SyncFromCloudInner, RestoreFileIfUnchanged,
    WriteFileNoIncrement and SetChangeNumber. A local write either succeeds or changes nothing. */
module PromoteRollback {
  import opened Options

  type Name = string
  type Bytes = seq<int>

  datatype StagedBlob = StagedBlob(name: Name, data: Bytes)

  /** Where a conflict copy is kept: the file's name and a time stamp. */
  datatype CopyPath = CopyPath(name: Name, stamp: int)

  datatype PromotedBlob = PromotedBlob(name: Name, backup: Option<CopyPath>, data: Bytes, hadOriginal: bool)

  /** What is on disk, as a crash would find it. */
  datatype Disk = Disk(files: map<Name, Bytes>, cn: nat)

  /** Which file-system calls fail, by the position of the blob. */
  datatype Faults = Faults(stat: nat -> bool, copy: nat -> bool, stamp: nat -> int, write: nat -> bool, cnSave: bool,
                           restore: nat -> bool)

  function PutAll(files: map<Name, Bytes>, staged: seq<StagedBlob>): map<Name, Bytes> {
    if |staged| == 0 then files
    else PutAll(files, staged[..|staged| - 1])[staged[|staged| - 1].name := staged[|staged| - 1].data]
  }

  /** Putting all blobs leaves, for every name, the last one staged under it. */
  lemma {:induction false} PutAllIsLast(files: map<Name, Bytes>, staged: seq<StagedBlob>, i: nat)
    requires i < |staged| && forall j :: i < j < |staged| ==> staged[j].name != staged[i].name
    ensures staged[i].name in PutAll(files, staged) && PutAll(files, staged)[staged[i].name] == staged[i].data
  {
    if i < |staged| - 1 {
      PutAllIsLast(files, staged[..|staged| - 1], i);
    }
  }

  /** Record k was made when the files were those after the first k promotions, and its copy is still there. */
  ghost predicate Recorded(files: map<Name, Bytes>, staged: seq<StagedBlob>, done: seq<PromotedBlob>,
                           copies: map<CopyPath, Bytes>, k: nat)
    requires k < |done| <= |staged|
  {
    var before := PutAll(files, staged[..k]);
    && done[k].name == staged[k].name && done[k].data == staged[k].data
    && (done[k].hadOriginal <==> done[k].name in before)
    && (done[k].hadOriginal ==>
          done[k].backup.Some? && done[k].backup.value in copies
          && copies[done[k].backup.value] == before[done[k].name])
  }

  ghost predicate AllRecorded(files: map<Name, Bytes>, staged: seq<StagedBlob>, done: seq<PromotedBlob>,
                              copies: map<CopyPath, Bytes>) {
    |done| <= |staged| && forall k :: 0 <= k < |done| ==> Recorded(files, staged, done, copies, k)
  }

  class LocalStorage {
    var files: map<Name, Bytes>
    var copies: map<CopyPath, Bytes>
    var cn: nat
    /** Every state the disk went through. */
    ghost var trace: seq<Disk>

    ghost function Now(): Disk
      reads this
    {
      Disk(files, cn)
    }

    constructor (files: map<Name, Bytes>, cn: nat)
      ensures this.files == files && this.cn == cn && trace == [Disk(files, cn)]
    {
      this.files, this.cn, copies, trace := files, cn, map[], [Disk(files, cn)];
    }

    method CreateConflictCopy(name: Name, stamp: int, ok: bool) returns (path: Option<CopyPath>)
      requires name in files
      modifies this`copies
      ensures path.Some? <==> ok && CopyPath(name, stamp) !in old(copies)
      ensures path.Some? ==> copies == old(copies)[path.value := files[name]] && path.value !in old(copies)
      ensures path.None? ==> copies == old(copies)
    {
      path := None;
      if ok && CopyPath(name, stamp) !in copies {
        copies := copies[CopyPath(name, stamp) := files[name]];
        path := Some(CopyPath(name, stamp));
      }
    }

    method WriteFile(name: Name, data: Bytes, ok: bool)
      modifies this`files, this`trace
      ensures files == (if ok then old(files)[name := data] else old(files)) && trace == old(trace) + [Now()]
    {
      if ok {
        files := files[name := data];
      }
      trace := trace + [Disk(files, cn)];
    }

    /** RestoreFileIfUnchanged: puts the original back, or removes the file if there was none, but only if it
        still has the promoted content. */
    method RestoreFileIfUnchanged(p: PromotedBlob, ok: bool) returns (restored: bool)
      requires p.hadOriginal ==> p.backup.Some? && p.backup.value in copies
      modifies this`files, this`trace
      ensures restored <==>
                ok && (if p.name in old(files) then old(files)[p.name] == p.data else !p.hadOriginal && p.data == [])
      ensures files == if !restored then old(files) else if p.hadOriginal
              then old(files)[p.name := copies[p.backup.value]] else old(files) - {p.name}
      ensures trace == old(trace) + [Now()]
    {
      restored := false;
      var current := [];
      if p.name in files {
        current := files[p.name];
      } else if p.hadOriginal {
        trace := trace + [Disk(files, cn)];
        return;
      }
      if current == p.data && ok {
        restored := true;
        files := if p.hadOriginal then files[p.name := copies[p.backup.value]] else files - {p.name};
      }
      trace := trace + [Disk(files, cn)];
    }

    method SetChangeNumber(newCn: nat, ok: bool)
      modifies this`cn, this`trace
      ensures cn == (if ok then newCn else old(cn)) && trace == old(trace) + [Now()]
    {
      if ok {
        cn := newCn;
      }
      trace := trace + [Disk(files, cn)];
    }

    /** Promotes one staged blob, keeping a copy of what it replaces. */
    method PromoteOne(blob: StagedBlob, i: nat, f: Faults) returns (ok: bool, record: PromotedBlob)
      modifies this`files, this`copies, this`trace
      ensures !ok ==> files == old(files)
      ensures ok ==> files == old(files)[blob.name := blob.data] && record.name == blob.name && record.data == blob.data
      ensures ok ==> (record.hadOriginal <==> blob.name in old(files))
      ensures ok && record.hadOriginal ==>
                record.backup.Some? && record.backup.value in copies
                && copies[record.backup.value] == old(files)[blob.name]
      ensures forall p :: p in old(copies) ==> p in copies && copies[p] == old(copies)[p]
      ensures old(trace) <= trace && forall k :: |old(trace)| <= k < |trace| ==> trace[k].cn == cn
    {
      record := PromotedBlob(blob.name, None, blob.data, blob.name in files);
      ok := f.stat(i);
      if !ok {
        return;
      }
      if record.hadOriginal {
        var path := CreateConflictCopy(blob.name, f.stamp(i), f.copy(i));
        if path.None? {
          ok := false;
          return;
        }
        record := record.(backup := path);
      }
      ok := f.write(i);
      WriteFile(blob.name, blob.data, ok);
    }

    /** Undoes the promotions, latest first. */
    method RollBack(done: seq<PromotedBlob>, f: Faults, ghost original: map<Name, Bytes>, ghost staged: seq<StagedBlob>)
      returns (complete: bool)
      requires AllRecorded(original, staged, done, copies) && files == PutAll(original, staged[..|done|])
      modifies this`files, this`trace
      ensures complete <==> forall k :: 0 <= k < |done| ==> f.restore(k)
      ensures complete ==> files == original
      ensures old(trace) <= trace && forall k :: |old(trace)| <= k < |trace| ==> trace[k].cn == cn
    {
      complete := true;
      var k := |done|;
      while k > 0
        invariant 0 <= k <= |done|
        invariant complete <==> forall j :: k <= j < |done| ==> f.restore(j)
        invariant complete ==> files == PutAll(original, staged[..k])
        invariant old(trace) <= trace && forall j :: |old(trace)| <= j < |trace| ==> trace[j].cn == cn
      {
        k := k - 1;
        assert Recorded(original, staged, done, copies, k);
        assert staged[..k + 1][..k] == staged[..k];
        ghost var before := PutAll(original, staged[..k]);
        var restored := RestoreFileIfUnchanged(done[k], f.restore(k));
        if complete {
          Undo(before, staged[k].name, staged[k].data);
        }
        complete := complete && f.restore(k);
      }
      assert staged[..0] == [];
    }

    /** The whole promotion: either every staged blob is in place and the change number is set, or everything is
        rolled back. At every moment the change number on disk equals the cloud's only if all blobs are in place. */
    method PromoteStaged(staged: seq<StagedBlob>, cloudCn: nat, f: Faults) returns (failed: bool)
      requires cn != cloudCn
      modifies this
      ensures !failed ==> files == PutAll(old(files), staged) && cn == if f.cnSave then cloudCn else old(cn)
      ensures failed ==> cn == old(cn)
      ensures failed && (forall k :: 0 <= k < |staged| ==> f.restore(k)) ==> files == old(files)
      ensures old(trace) <= trace
      ensures forall k ::
                |old(trace)| <= k < |trace| && trace[k].cn == cloudCn ==> trace[k].files == PutAll(old(files), staged)
    {
      ghost var original := files;
      var done: seq<PromotedBlob> := [];
      failed := false;
      var i := 0;
      assert staged[..0] == [];
      while i < |staged| && !failed
        decreases |staged| - i, !failed
        invariant 0 <= i <= |staged| && |done| == i && cn == old(cn)
        invariant AllRecorded(original, staged, done, copies) && files == PutAll(original, staged[..i])
        invariant old(trace) <= trace && forall k :: |old(trace)| <= k < |trace| ==> trace[k].cn == cn
      {
        ghost var copiesBefore, doneBefore := copies, done;
        var ok, record := PromoteOne(staged[i], i, f);
        RecordsKept(original, staged, done, copiesBefore, copies);
        if !ok {
          failed := true;
        } else {
          assert staged[..i + 1][..i] == staged[..i];
          done := done + [record];
          RecordMore(original, staged, doneBefore, record, copies);
          i := i + 1;
        }
      }
      if failed {
        var complete := RollBack(done, f, original, staged);
      } else {
        assert staged[..i] == staged;
        SetChangeNumber(cloudCn, f.cnSave);
      }
    }
  }

  /** Writing a file and then putting back what it replaced changes nothing. */
  lemma Undo(before: map<Name, Bytes>, name: Name, data: Bytes)
    ensures name in before ==> before[name := data][name := before[name]] == before
    ensures name !in before ==> before[name := data] - {name} == before
  {
  }

  lemma RecordsKept(files: map<Name, Bytes>, staged: seq<StagedBlob>, done: seq<PromotedBlob>,
                    copies: map<CopyPath, Bytes>, more: map<CopyPath, Bytes>)
    requires AllRecorded(files, staged, done, copies) && forall p :: p in copies ==> p in more && more[p] == copies[p]
    ensures AllRecorded(files, staged, done, more)
  {
    forall k | 0 <= k < |done|
      ensures Recorded(files, staged, done, more, k)
    {
      assert Recorded(files, staged, done, copies, k);
    }
  }

  lemma RecordMore(files: map<Name, Bytes>, staged: seq<StagedBlob>, done: seq<PromotedBlob>, record: PromotedBlob,
                   copies: map<CopyPath, Bytes>)
    requires AllRecorded(files, staged, done, copies) && |done| < |staged|
    requires var before := PutAll(files, staged[..|done|]); var blob := staged[|done|];
             && record.name == blob.name && record.data == blob.data && (record.hadOriginal <==> blob.name in before)
             && (record.hadOriginal ==>
                   record.backup.Some? && record.backup.value in copies
                   && copies[record.backup.value] == before[blob.name])
    ensures AllRecorded(files, staged, done + [record], copies)
  {
    var more := done + [record];
    forall k | 0 <= k < |more|
      ensures Recorded(files, staged, more, copies, k)
    {
      if k < |done| {
        assert Recorded(files, staged, done, copies, k);
      }
    }
  }
}
