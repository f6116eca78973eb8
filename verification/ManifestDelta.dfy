/** ComputeManifestDelta and the manifest snapshots it starts from: the middle of manifest_store.cpp. */
module ManifestDelta {
  type Name = string
  type Sha = seq<int>

  const SNAPSHOTS_KEPT: nat := 100

  datatype Entry = Entry(sha: Sha, timestamp: nat, size: nat)

  type Manifest = map<Name, Entry>

  /** A snapshot file: readable, shorter than "{}", or long enough but not a manifest. */
  datatype Snapshot = Good(manifest: Manifest) | Tiny | Garbled

  datatype Change = Change(name: Name, sha: Sha, timestamp: nat, size: nat, deleted: bool)

  datatype Delta = Delta(files: seq<Change>, serverCn: nat)

  /** Names and hashes, without the reserved names. */
  function View(m: Manifest, reserved: Name -> bool): map<Name, Sha> {
    map name | name in m && !reserved(name) :: m[name].sha
  }

  function ApplyOne(v: map<Name, Sha>, c: Change): map<Name, Sha> {
    if c.deleted then v - {c.name} else v[c.name := c.sha]
  }

  function Apply(v: map<Name, Sha>, cs: seq<Change>): map<Name, Sha> {
    if |cs| == 0 then v else ApplyOne(Apply(v, cs[..|cs| - 1]), cs[|cs| - 1])
  }

  predicate NoRepeats(cs: seq<Change>) {
    forall i, j :: 0 <= i < j < |cs| ==> cs[i].name != cs[j].name
  }

  /** The change turns the baseline's entry into the current one, and they do differ. */
  predicate Needed(c: Change, baseline: Manifest, current: Manifest, reserved: Name -> bool) {
    && !reserved(c.name)
    && (if c.deleted then c.name in baseline && c.name !in current
        else c.name in current && Entry(c.sha, c.timestamp, c.size) == current[c.name]
             && (c.name !in baseline || baseline[c.name].sha != c.sha))
  }

  predicate AllNeeded(cs: seq<Change>, baseline: Manifest, current: Manifest, reserved: Name -> bool) {
    forall i :: 0 <= i < |cs| ==> Needed(cs[i], baseline, current, reserved)
  }

  predicate Changes(cs: seq<Change>, name: Name) {
    exists i :: 0 <= i < |cs| && cs[i].name == name
  }

  /** Names whose entry appeared, changed or went away. */
  predicate Differs(baseline: Manifest, current: Manifest, name: Name) {
    if name in current then name !in baseline || baseline[name].sha != current[name].sha else name in baseline
  }

  ghost predicate Complete(cs: seq<Change>, baseline: Manifest, current: Manifest, reserved: Name -> bool) {
    forall name :: !reserved(name) && Differs(baseline, current, name) ==> Changes(cs, name)
  }

  lemma {:induction false} ApplyAt(v: map<Name, Sha>, cs: seq<Change>, name: Name)
    requires NoRepeats(cs)
    ensures !Changes(cs, name) ==>
              (name in Apply(v, cs) <==> name in v) && (name in v ==> Apply(v, cs)[name] == v[name])
    ensures forall i :: 0 <= i < |cs| && cs[i].name == name ==>
      (name in Apply(v, cs) <==> !cs[i].deleted) && (!cs[i].deleted ==> Apply(v, cs)[name] == cs[i].sha)
  {
    if |cs| == 0 {
    } else {
      var k := |cs| - 1;
      ApplyAt(v, cs[..k], name);
      assert Changes(cs[..k], name) ==> Changes(cs, name) by {
        if Changes(cs[..k], name) {
          var i :| 0 <= i < k && cs[..k][i].name == name;
          assert cs[i].name == name;
        }
      }
    }
  }

  /** Applying a complete list of needed changes to the baseline gives the current names and hashes. */
  lemma DeltaReachesCurrent(cs: seq<Change>, baseline: Manifest, current: Manifest, reserved: Name -> bool)
    requires NoRepeats(cs) && AllNeeded(cs, baseline, current, reserved) && Complete(cs, baseline, current, reserved)
    ensures Apply(View(baseline, reserved), cs) == View(current, reserved)
  {
    var v, r := View(baseline, reserved), Apply(View(baseline, reserved), cs);
    forall name
      ensures (name in r <==> name in View(current, reserved))
              && (name in r ==> r[name] == View(current, reserved)[name])
    {
      ApplyAt(v, cs, name);
      if Changes(cs, name) {
        var i :| 0 <= i < |cs| && cs[i].name == name;
        assert Needed(cs[i], baseline, current, reserved);
      }
    }
  }

  class ManifestStore {
    const reserved: Name -> bool
    var local: Manifest
    var snapshots: map<nat, Snapshot>

    constructor (reserved: Name -> bool)
      ensures this.reserved == reserved && local == map[] && snapshots == map[]
    {
      this.reserved := reserved;
      local, snapshots := map[], map[];
    }

    /** SaveManifestSnapshot with PruneOldManifestSnapshots. */
    method SaveSnapshot(cn: nat, ok: bool)
      modifies this`snapshots
      ensures snapshots == if !ok then old(snapshots)
                           else if cn <= SNAPSHOTS_KEPT then old(snapshots)[cn := Good(local)]
                           else old(snapshots)[cn := Good(local)] - {cn - SNAPSHOTS_KEPT}
    {
      if ok {
        snapshots := snapshots[cn := Good(local)];
        if cn > SNAPSHOTS_KEPT {
          snapshots := snapshots - {cn - SNAPSHOTS_KEPT};
        }
      }
    }

    /** n consecutive saves into any store: the last hundred of them are there, the number a hundred below each of them
        is gone, and every other snapshot is as it was. Number 0 is never dropped. */
    method SaveConsecutive(first: nat, n: nat)
      modifies this`snapshots
      ensures forall cn :: Dropped(first, n, cn) ==> cn !in snapshots
      ensures forall cn ::
                first <= cn < first + n && !Dropped(first, n, cn) ==> cn in snapshots && snapshots[cn] == Good(local)
      ensures forall cn: nat :: !(first <= cn < first + n) && !Dropped(first, n, cn) ==>
                (cn in snapshots <==> cn in old(snapshots)) && (cn in snapshots ==> snapshots[cn] == old(snapshots)[cn])
    {
      var i := 0;
      while i < n
        invariant 0 <= i <= n
        invariant forall cn :: Dropped(first, i, cn) ==> cn !in snapshots
        invariant forall cn ::
                    first <= cn < first + i && !Dropped(first, i, cn) ==>
                      cn in snapshots && snapshots[cn] == Good(local)
        invariant forall cn: nat :: !(first <= cn < first + i) && !Dropped(first, i, cn) ==>
                    (cn in snapshots <==> cn in old(snapshots))
                    && (cn in snapshots ==> snapshots[cn] == old(snapshots)[cn])
      {
        SaveSnapshot(first + i, true);
        i := i + 1;
      }
    }

    /** One of n saves from number first on drops this number. */
    predicate Dropped(first: nat, n: nat, cn: nat) {
      cn > 0 && first <= cn + SNAPSHOTS_KEPT < first + n
    }

    /** The baseline for a change number, if there is a usable one; a garbled file counts as an empty manifest. */
    function Baseline(cn: nat): (r: (bool, Manifest))
      reads this`snapshots
    {
      if cn !in snapshots || snapshots[cn] == Tiny then (false, map[])
      else if snapshots[cn] == Garbled then (true, map[])
      else (true, snapshots[cn].manifest)
    }

    function Current(server: Manifest): Manifest
      reads this`local
    {
      if server != map[] then server else local
    }

    method AddNewAndChanged(baseline: Manifest, current: Manifest) returns (cs: seq<Change>)
      ensures NoRepeats(cs) && AllNeeded(cs, baseline, current, reserved) && forall i :: 0 <= i < |cs| ==>
                !cs[i].deleted
      ensures forall name ::
                name in current && !reserved(name) && Differs(baseline, current, name) ==> Changes(cs, name)
    {
      cs := [];
      var todo := current.Keys;
      while todo != {}
        invariant todo <= current.Keys && NoRepeats(cs) && AllNeeded(cs, baseline, current, reserved)
        invariant forall i :: 0 <= i < |cs| ==> !cs[i].deleted && cs[i].name !in todo
        invariant forall name ::
                    name in current && name !in todo && !reserved(name) && Differs(baseline, current, name) ==>
                      Changes(cs, name)
        decreases |todo|
      {
        var name :| name in todo;
        if !reserved(name) && (name !in baseline || baseline[name].sha != current[name].sha) {
          var e := current[name];
          Appended(cs, Change(name, e.sha, e.timestamp, e.size, false));
          cs := cs + [Change(name, e.sha, e.timestamp, e.size, false)];
        }
        todo := todo - {name};
      }
    }

    method AddDeleted(baseline: Manifest, current: Manifest, changed: seq<Change>) returns (cs: seq<Change>)
      requires NoRepeats(changed) && AllNeeded(changed, baseline, current, reserved)
               && forall i :: 0 <= i < |changed| ==> !changed[i].deleted
      requires forall name ::
                 name in current && !reserved(name) && Differs(baseline, current, name) ==> Changes(changed, name)
      ensures NoRepeats(cs) && AllNeeded(cs, baseline, current, reserved) && Complete(cs, baseline, current, reserved)
    {
      cs := changed;
      var todo := baseline.Keys;
      while todo != {}
        invariant todo <= baseline.Keys && NoRepeats(cs) && AllNeeded(cs, baseline, current, reserved)
        invariant forall i :: 0 <= i < |cs| ==> cs[i].name in current || cs[i].name !in todo
        invariant forall name :: Changes(changed, name) ==> Changes(cs, name)
        invariant forall name ::
                    name in baseline && name !in todo && name !in current && !reserved(name) ==> Changes(cs, name)
        decreases |todo|
      {
        var name :| name in todo;
        if !reserved(name) && name !in current {
          Appended(cs, Change(name, [], 0, 0, true));
          cs := cs + [Change(name, [], 0, 0, true)];
        }
        todo := todo - {name};
      }
    }

    /** ComputeManifestDelta. A server number of 0 tells the caller to fall back to the full manifest. */
    method ComputeDelta(clientCn: nat, serverCn: nat, server: Manifest) returns (d: Delta)
      ensures serverCn < clientCn ==> d == Delta([], serverCn)
      ensures serverCn >= clientCn && !Baseline(clientCn).0 ==> d == Delta([], 0)
      ensures serverCn == clientCn && Baseline(clientCn).0 ==> d == Delta([], serverCn)
      ensures serverCn > clientCn && Baseline(clientCn).0 ==> d.serverCn == serverCn && NoRepeats(d.files)
      ensures serverCn > clientCn && Baseline(clientCn).0 ==>
                AllNeeded(d.files, Baseline(clientCn).1, Current(server), reserved)
      ensures serverCn > clientCn && Baseline(clientCn).0 && Current(server) != map[] ==>
              Complete(d.files, Baseline(clientCn).1, Current(server), reserved)
      ensures serverCn > clientCn && Baseline(clientCn).0 ==>
              (Apply(View(Baseline(clientCn).1, reserved), d.files) == View(Current(server), reserved) <==>
               Current(server) != map[] || View(Baseline(clientCn).1, reserved) == map[])
    {
      d := Delta([], serverCn);
      if serverCn < clientCn {
        return;
      }
      var (found, baseline) := Baseline(clientCn);
      if serverCn == clientCn || !found {
        if !found {
          d := Delta([], 0);
        }
        return;
      }
      var current := Current(server);
      if current == map[] {
        assert View(current, reserved) == map[];
        return;
      }
      var changed := AddNewAndChanged(baseline, current);
      var files := AddDeleted(baseline, current, changed);
      DeltaReachesCurrent(files, baseline, current, reserved);
      d := Delta(files, serverCn);
    }
  }

  lemma Appended(cs: seq<Change>, c: Change)
    ensures Changes(cs + [c], c.name) && forall name :: Changes(cs, name) ==> Changes(cs + [c], name)
  {
    assert (cs + [c])[|cs|] == c;
    forall name | Changes(cs, name)
      ensures Changes(cs + [c], name)
    {
      var i :| 0 <= i < |cs| && cs[i].name == name;
      assert (cs + [c])[i] == cs[i];
    }
  }

  /** Deltas along successive change numbers compose. */
  lemma DeltasCompose(ab: seq<Change>, bc: seq<Change>, ac: seq<Change>, a: Manifest, b: Manifest, c: Manifest,
                      reserved: Name -> bool)
    requires NoRepeats(ab) && AllNeeded(ab, a, b, reserved) && Complete(ab, a, b, reserved)
    requires NoRepeats(bc) && AllNeeded(bc, b, c, reserved) && Complete(bc, b, c, reserved)
    requires NoRepeats(ac) && AllNeeded(ac, a, c, reserved) && Complete(ac, a, c, reserved)
    ensures Apply(Apply(View(a, reserved), ab), bc) == Apply(View(a, reserved), ac) == View(c, reserved)
  {
    DeltaReachesCurrent(ab, a, b, reserved);
    DeltaReachesCurrent(bc, b, c, reserved);
    DeltaReachesCurrent(ac, a, c, reserved);
  }
}
