/** The content-addressed store of one app: promote, verify-and-heal, publish, session release and
    garbage collection, over a provider that may fail at any call. */
module CloudStore {
  import opened Options
  import opened BlobGc

  datatype Entry = Entry(sha: Sha, meta: int)

  datatype CloudState = CloudState(cn: nat, session: nat, files: map<Name, Entry>)

  datatype Fetch = Fetched(state: CloudState) | NotFound | FetchFailed

  /** How the provider answers during one operation. */
  datatype Weather = Weather(net: Net, lists: bool, fetches: bool, stateUp: Reply, cnUp: Reply)

  /** Some blob is stored under this hash. */
  predicate HasHash(blobs: map<Path, Bytes>, sha: Sha) {
    exists p :: p in blobs && Addressed(p) && ShaOf(p) == sha
  }

  /** Every file entry has a blob. */
  predicate Backed(blobs: map<Path, Bytes>, files: map<Name, Entry>) {
    forall name :: name in files ==> HasHash(blobs, files[name].sha)
  }

  predicate NoPreCas(blobs: map<Path, Bytes>) {
    forall p :: p in blobs ==> Addressed(p)
  }

  /** The hashes present in a listing. */
  predicate Listed(listing: seq<Path>, sha: Sha) {
    exists i :: 0 <= i < |listing| && Addressed(listing[i]) && ShaOf(listing[i]) == sha
  }

  predicate ListedByName(listing: seq<Path>, name: Name) {
    exists i :: 0 <= i < |listing| && !Addressed(listing[i]) && listing[i] == name
  }

  lemma UploadKeepsHash(blobs: map<Path, Bytes>, p: Path, data: Bytes, sha: Sha)
    requires HasHash(blobs, sha)
    ensures HasHash(blobs[p := data], sha)
  {
    var q :| q in blobs && Addressed(q) && ShaOf(q) == sha;
    assert q in blobs[p := data];
  }

  lemma UploadGivesHash(blobs: map<Path, Bytes>, name: Name, data: Bytes, hash: Bytes -> Sha)
    requires IsHexSha(hash(data))
    ensures HasHash(blobs[CanonicalPath(name, hash(data)) := data], hash(data))
  {
    CanonicalKind(name, hash(data));
    assert CanonicalPath(name, hash(data)) in blobs[CanonicalPath(name, hash(data)) := data];
  }

  lemma UploadGivesOnly(blobs: map<Path, Bytes>, name: Name, data: Bytes, hash: Bytes -> Sha, sha: Sha)
    requires IsHexSha(hash(data)) && HasHash(blobs[CanonicalPath(name, hash(data)) := data], sha) && sha != hash(data)
    ensures HasHash(blobs, sha)
  {
    CanonicalKind(name, hash(data));
    hide CanonicalPath, KindOf;
    var q :| q in blobs[CanonicalPath(name, hash(data)) := data] && Addressed(q) && ShaOf(q) == sha;
    assert q in blobs;
  }

  /** An upload of data under its own hash keeps every hash and keeps the store sound. */
  lemma UploadedKeeps(blobs: map<Path, Bytes>, name: Name, data: Bytes, hash: Bytes -> Sha, net: Net)
    requires (forall b :: IsHexSha(hash(b))) && Sound(blobs, hash) && NoPreCas(blobs)
    ensures var p := CanonicalPath(name, hash(data)); var after := Uploaded(blobs, p, data, net);
            && Sound(after, hash) && NoPreCas(after) && (forall q :: q in blobs ==> q in after)
            && (forall sha :: HasHash(blobs, sha) ==> HasHash(after, sha))
            && (forall sha :: HasHash(after, sha) ==> HasHash(blobs, sha) || sha == hash(data))
            && (net.up(p) == Ok ==> HasHash(after, hash(data)))
  {
    var p := CanonicalPath(name, hash(data));
    CanonicalKind(name, hash(data));
    forall sha | HasHash(blobs[p := data], sha) && sha != hash(data)
      ensures HasHash(blobs, sha)
    {
      UploadGivesOnly(blobs, name, data, hash, sha);
    }
    UploadGivesHash(blobs, name, data, hash);
    forall sha | HasHash(blobs, sha)
      ensures HasHash(blobs[p := data], sha)
    {
      UploadKeepsHash(blobs, p, data, sha);
    }
    hide CanonicalPath, HasHash, KindOf;
  }

  class Store {
    const hash: Bytes -> Sha
    var blobs: map<Path, Bytes>
    var stateFile: Option<CloudState>
    var cnFile: Option<nat>
    /** Hashes confirmed durable in this session. */
    var durable: set<Sha>
    var cache: Option<seq<Path>>
    var local: map<Name, Bytes>
    var manifest: map<Name, Sha>

    /** What every operation keeps. */
    ghost predicate Inv()
      reads this
    {
      && (forall b :: IsHexSha(hash(b))) && Sound(blobs, hash) && NoPreCas(blobs)
      && (cnFile.Some? ==> stateFile.Some? && cnFile.value <= stateFile.value.cn)
      && (cache.Some? ==> forall p :: p in cache.value ==> p in blobs)
    }

    /** Every entry of the published state has a blob. */
    predicate Published()
      reads this`blobs, this`stateFile
    {
      stateFile.Some? ==> Backed(blobs, stateFile.value.files)
    }

    /** Every hash recorded as durable still has a blob. */
    predicate DurableOk()
      reads this`durable, this`blobs
    {
      forall h :: h in durable ==> HasHash(blobs, h)
    }

    function CurrentCn(): (n: int)
      reads this`stateFile
      ensures n == Cn()
    {
      if stateFile.Some? then stateFile.value.cn else -1
    }

    /** The local cache and manifest are other code's business. */
    method ChangeLocal(local: map<Name, Bytes>, manifest: map<Name, Sha>)
      requires Inv()
      modifies this`local, this`manifest
      ensures Inv() && this.local == local && this.manifest == manifest
    {
      this.local, this.manifest := local, manifest;
    }

    ghost function Cn(): int
      reads this`stateFile
    {
      if stateFile.Some? then stateFile.value.cn else -1
    }

    constructor (hash: Bytes -> Sha)
      requires forall b :: IsHexSha(hash(b))
      ensures Inv() && DurableOk() && Published() && this.hash == hash && blobs == map[] && stateFile == None
              && cnFile == None
      ensures local == map[] && manifest == map[] && cache == None && durable == {}
    {
      this.hash := hash;
      blobs, stateFile, cnFile, durable, cache, local, manifest := map[], None, None, {}, None, map[], map[];
    }

    method UploadBlob(name: Name, data: Bytes, net: Net) returns (ok: bool)
      requires Inv()
      modifies this`blobs
      ensures Inv() && blobs == Uploaded(old(blobs), CanonicalPath(name, hash(data)), data, net)
      ensures ok == (net.up(CanonicalPath(name, hash(data))) == Ok)
      ensures ok ==> HasHash(blobs, hash(data))
      ensures forall sha :: HasHash(old(blobs), sha) ==> HasHash(blobs, sha)
      ensures forall sha :: HasHash(blobs, sha) ==> HasHash(old(blobs), sha) || sha == hash(data)
    {
      hide CanonicalPath, HasHash, Sound, NoPreCas, Uploaded, IsHexSha;
      UploadedKeeps(blobs, name, data, hash, net);
      blobs := Uploaded(blobs, CanonicalPath(name, hash(data)), data, net);
      ok := net.up(CanonicalPath(name, hash(data))) == Ok;
    }

    method FetchState(w: Weather) returns (f: Fetch)
      ensures f.Fetched? ==> stateFile == Some(f.state)
      ensures f.NotFound? ==> stateFile == None
      ensures f.FetchFailed? <==> !w.fetches
      ensures f.Fetched? <==> w.fetches && stateFile.Some?
    {
      f := if !w.fetches then FetchFailed else if stateFile.Some? then Fetched(stateFile.value) else NotFound;
    }

    /** A listing of the blobs: the cached one, or a complete new one. */
    method ListBlobs(w: Weather) returns (listing: Option<seq<Path>>)
      requires Inv()
      modifies this`cache
      ensures Inv() && (listing.Some? ==> forall p :: p in listing.value ==> p in blobs)
      ensures old(cache).Some? ==> listing == old(cache)
      ensures old(cache).None? && listing.Some? ==> forall p :: p in blobs ==> p in listing.value
      ensures listing.Some? <==> old(cache).Some? || w.lists
    {
      hide Sound, NoPreCas, IsHexSha;
      if cache.Some? {
        return cache;
      }
      if !w.lists {
        return None;
      }
      var all := SeqOf(blobs.Keys);
      cache := Some(all);
      listing := cache;
    }

    // ---- verify and heal ----

    predicate ConfirmedDurable(e: Entry)
      reads this`durable
    {
      |e.sha| == 40 && e.sha in durable
    }

    function ReadLocal(name: Name): Bytes
      reads this`local
    {
      if name in local then local[name] else []
    }

    predicate InListing(listing: seq<Path>, name: Name, e: Entry) {
      (e.sha != "" && Listed(listing, e.sha)) || ListedByName(listing, name)
    }

    /** The local copy still has the entry's hash, and uploading it succeeds. */
    predicate Healable(name: Name, e: Entry, net: Net)
      reads this`local
    {
      e.sha != "" && hash(ReadLocal(name)) == e.sha && net.up(CanonicalPath(name, e.sha)) == Ok
    }

    predicate Keeps(listing: seq<Path>, name: Name, e: Entry, net: Net)
      reads this`durable, this`local
    {
      ConfirmedDurable(e) || InListing(listing, name, e) || Healable(name, e, net)
    }

    /** One entry: kept if its blob is known or can be put back, dropped otherwise. */
    method VerifyEntry(name: Name, e: Entry, listing: seq<Path>, net: Net) returns (keep: bool, healed: bool)
      requires Inv() && forall p :: p in listing ==> p in blobs
      modifies this`blobs
      ensures Inv() && (forall sha :: HasHash(old(blobs), sha) ==> HasHash(blobs, sha)) && old(blobs.Keys) <= blobs.Keys
      ensures keep <==> Keeps(listing, name, e, net)
      ensures keep ==> ConfirmedDurable(e) || HasHash(blobs, e.sha)
      ensures forall sha :: sha in durable && HasHash(blobs, sha) ==> HasHash(old(blobs), sha)
    {
      keep, healed := true, false;
      if ConfirmedDurable(e) {
        return;
      }
      if InListing(listing, name, e) {
        ListedIsThere(listing, name, e, blobs);
        return;
      }
      keep := false;
      var data := ReadLocal(name);
      if e.sha != "" && hash(data) == e.sha {
        assert |hash(data)| == 40;
        keep := UploadBlob(name, data, net);
        healed := keep;
      }
    }

    /** VerifyAndHealManifestForPublish. What is kept has a blob, as long as the hashes taken to be durable have one. */
    method VerifyAndHeal(state: CloudState, w: Weather)
      returns (ok: bool, verified: CloudState, ghost listing: seq<Path>)
      requires Inv()
      modifies this`blobs, this`cache
      ensures Inv() && (forall sha :: HasHash(old(blobs), sha) ==> HasHash(blobs, sha))
      ensures ok ==> verified.cn == state.cn && verified.session == state.session
      ensures ok ==>
                forall name ::
                  name in verified.files ==> name in state.files && verified.files[name] == state.files[name]
      ensures ok ==> (Backed(blobs, verified.files) <==> old(TrustedBacked(state.files)))
      ensures forall sha :: sha in durable && HasHash(blobs, sha) ==> HasHash(old(blobs), sha)
      ensures ok && !AllConfirmed(state.files) ==> forall name :: name in state.files ==>
        (name in verified.files <==> Keeps(listing, name, state.files[name], w.net))
      ensures AllConfirmed(state.files) ==> ok && verified == state && blobs == old(blobs) && cache == old(cache)
    {
      hide Inv, HasHash;
      verified, ok, listing := state, true, [];
      if AllConfirmed(state.files) {
        return;
      }
      var found := ListBlobs(w);
      if found.None? {
        ok := false;
        return;
      }
      listing := found.value;
      var files, todo, anyHealed := state.files, state.files.Keys, false;
      while todo != {}
        invariant Inv() && todo <= state.files.Keys && listing == found.value && forall p :: p in listing ==> p in blobs
        invariant forall sha :: HasHash(old(blobs), sha) ==> HasHash(blobs, sha)
        invariant forall sha :: sha in durable && HasHash(blobs, sha) ==> HasHash(old(blobs), sha)
        invariant forall name :: name in files ==> name in state.files && files[name] == state.files[name]
        invariant forall name :: name in todo ==> name in files
        invariant forall name ::
                    name in state.files && name !in todo ==>
                      (name in files <==> Keeps(listing, name, state.files[name], w.net))
        invariant forall name ::
                    name in files && name !in todo ==> ConfirmedDurable(files[name]) || HasHash(blobs, files[name].sha)
        decreases |todo|
      {
        var name :| name in todo;
        var keep, healed := VerifyEntry(name, files[name], found.value, w.net);
        anyHealed := anyHealed || healed;
        if !keep {
          files := files - {name};
        }
        todo := todo - {name};
      }
      if anyHealed {
        DropCache();
      }
      verified := state.(files := files);
    }

    /** Every entry that is accepted because its hash is trusted as durable does have a blob. */
    predicate TrustedBacked(files: map<Name, Entry>)
      reads this`durable, this`blobs
    {
      forall name :: name in files && ConfirmedDurable(files[name]) ==> HasHash(blobs, files[name].sha)
    }

    predicate AllConfirmed(files: map<Name, Entry>)
      reads this`durable
    {
      forall name :: name in files ==> ConfirmedDurable(files[name])
    }

    method DropCache()
      requires Inv()
      modifies this`cache
      ensures Inv() && cache == None
    {
      cache := None;
    }

    // ---- publish and release ----

    /** The second half of a publish: refuse to move the change number back, then write state and change number.
        cn.cloudredirect is only written after the state, and never to a number above it. */
    method WriteState(verified: CloudState, w: Weather) returns (ok: bool)
      requires Inv()
      modifies this`stateFile, this`cnFile
      ensures Inv() && Cn() >= old(Cn())
      ensures old(Published()) && Backed(blobs, verified.files) ==> Published()
      ensures ok ==> stateFile == Some(verified) && (verified.cn > 0 && w.cnUp == Ok ==> cnFile == Some(verified.cn))
      ensures !ok ==>
                cnFile == old(cnFile)
                && (stateFile == old(stateFile) || (stateFile == Some(verified) && w.stateUp == LostReply))
      ensures ok <==> w.fetches && (old(stateFile).Some? ==> old(stateFile).value.cn <= verified.cn) && w.stateUp == Ok
    {
      hide Sound, NoPreCas, Backed;
      ok := false;
      var current := FetchState(w);
      if current.FetchFailed? || (current.Fetched? && current.state.cn > verified.cn) {
        return;
      }
      if w.stateUp != Refused {
        stateFile := Some(verified);
      }
      if w.stateUp != Ok {
        return;
      }
      if verified.cn > 0 && w.cnUp != Refused {
        cnFile := Some(verified.cn);
      }
      ok := true;
    }

    /** PublishCloudState, verifying first. After a success the published entries all have blobs exactly if those did
        that were accepted because their hash is trusted as durable. */
    method Publish(state: CloudState, w: Weather) returns (ok: bool)
      requires Inv()
      modifies this`blobs, this`cache, this`stateFile, this`cnFile
      ensures Inv() && Cn() >= old(Cn()) && (old(DurableOk()) ==> DurableOk())
      ensures old(DurableOk() && Published()) ==> Published()
      ensures ok ==> (Published() <==> old(TrustedBacked(state.files)))
      ensures old(AllConfirmed(state.files)) ==>
                blobs == old(blobs) && cache == old(cache) && (ok ==> stateFile == Some(state))
      ensures old(AllConfirmed(state.files)) ==>
        (ok <==> w.fetches && (old(stateFile).Some? ==> old(stateFile).value.cn <= state.cn) && w.stateUp == Ok)
      ensures ok ==>
                stateFile.Some? && stateFile.value.cn == state.cn && forall name :: name in stateFile.value.files ==>
                  name in state.files
      ensures !ok ==> cnFile == old(cnFile)
    {
      hide *;
      DurableIsTrusted(state.files);
      var verified;
      ghost var listing;
      ok, verified, listing := VerifyAndHeal(state, w);
      HashesKept();
      if ok {
        ok := WriteState(verified, w);
      }
      PublishedIs(verified);
    }

    lemma DurableIsTrusted(files: map<Name, Entry>)
      ensures DurableOk() ==> TrustedBacked(files)
    {
      hide HasHash;
    }

    lemma PublishedIs(state: CloudState)
      ensures stateFile == Some(state) ==> (Published() <==> Backed(blobs, state.files))
    {
    }

    /** Blobs only added: what was backed still is. */
    twostate lemma HashesKept()
      requires (forall sha :: old(HasHash(blobs, sha)) ==> HasHash(blobs, sha)) && durable == old(durable)
               && stateFile == old(stateFile)
      ensures (old(DurableOk()) ==> DurableOk()) && (old(Published()) ==> Published())
    {
      hide HasHash;
    }

    /** ReleaseCloudSession, and any other publish that only changes the lock: files and change number are those
        fetched. */
    method SetSession(holder: nat, session: nat, w: Weather) returns (ok: bool)
      requires Inv()
      modifies this`stateFile, this`cnFile
      ensures Inv() && Cn() == old(Cn()) && (old(Published()) ==> Published())
      ensures old(stateFile).Some? ==> stateFile.Some? && stateFile.value.files == old(stateFile).value.files
      ensures ok ==> old(stateFile).Some? && stateFile == Some(old(stateFile).value.(session := session))
    {
      hide Sound, NoPreCas, Backed, HasHash;
      ok := false;
      var f := FetchState(w);
      if f.Fetched? && (f.state.session == holder || holder == 0) {
        ok := WriteState(f.state.(session := session), w);
      }
    }

    // ---- promote ----

    /** PromoteStagedBatchForCommit: on success every uploaded file's hash has a blob and counts as durable. */
    method Promote(uploads: seq<Name>, reserved: Name -> bool, drained: bool, w: Weather) returns (ok: bool)
      requires Inv()
      modifies this`blobs, this`durable, this`cache
      ensures Inv() && (old(DurableOk()) ==> DurableOk()) && (old(Published()) ==> Published())
      ensures forall sha :: HasHash(old(blobs), sha) ==> HasHash(blobs, sha)
      ensures ok ==> forall i :: 0 <= i < |uploads| ==>
        uploads[i] in local && HasHash(blobs, hash(local[uploads[i]])) && hash(local[uploads[i]]) in durable
      ensures ok <==> drained && forall i :: 0 <= i < |uploads| ==>
        !reserved(uploads[i]) && uploads[i] in local
        && w.net.up(CanonicalPath(uploads[i], hash(local[uploads[i]]))) == Ok
      ensures !ok ==> durable == old(durable)
      ensures ok ==> cache == None
    {
      hide Sound, NoPreCas, HasHash, IsHexSha, CanonicalPath, Uploaded;
      ok := drained;
      if !ok {
        return;
      }
      ok := AllReadable(uploads, reserved);
      if !ok {
        return;
      }
      var shas;
      ok, shas := UploadBatch(uploads, w.net);
      if !ok {
        return;
      }
      durable := durable + shas;
      cache := None;
    }

    method AllReadable(uploads: seq<Name>, reserved: Name -> bool) returns (ok: bool)
      ensures ok <==> forall i :: 0 <= i < |uploads| ==> !reserved(uploads[i]) && uploads[i] in local
    {
      var i := 0;
      while i < |uploads|
        invariant 0 <= i <= |uploads| && forall k :: 0 <= k < i ==> !reserved(uploads[k]) && uploads[k] in local
      {
        if reserved(uploads[i]) || uploads[i] !in local {
          return false;
        }
        i := i + 1;
      }
      ok := true;
    }

    /** All uploads are attempted; the batch succeeds when each of them does. */
    method UploadBatch(uploads: seq<Name>, net: Net) returns (ok: bool, shas: set<Sha>)
      requires Inv() && forall i :: 0 <= i < |uploads| ==> uploads[i] in local
      modifies this`blobs
      ensures Inv() && forall sha :: HasHash(old(blobs), sha) ==> HasHash(blobs, sha)
      ensures ok <==>
                forall i :: 0 <= i < |uploads| ==> net.up(CanonicalPath(uploads[i], hash(local[uploads[i]]))) == Ok
      ensures ok ==>
                forall i ::
                  0 <= i < |uploads| ==> HasHash(blobs, hash(local[uploads[i]])) && hash(local[uploads[i]]) in shas
      ensures ok ==> forall sha :: sha in shas ==> HasHash(blobs, sha)
    {
      hide Inv, HasHash;
      ok, shas := true, {};
      var i := 0;
      while i < |uploads|
        invariant 0 <= i <= |uploads| && Inv()
        invariant forall sha :: HasHash(old(blobs), sha) ==> HasHash(blobs, sha)
        invariant ok <==> forall k :: 0 <= k < i ==> net.up(CanonicalPath(uploads[k], hash(local[uploads[k]]))) == Ok
        invariant ok ==>
                    forall k ::
                      0 <= k < i ==> HasHash(blobs, hash(local[uploads[k]])) && hash(local[uploads[k]]) in shas
        invariant ok ==> forall sha :: sha in shas ==> HasHash(blobs, sha)
      {
        var data := local[uploads[i]];
        var done := UploadBlob(uploads[i], data, net);
        ok := ok && done;
        shas := shas + {hash(data)};
        i := i + 1;
      }
    }

    // ---- garbage collection ----

    /** Nothing published, nothing in the manifest: what a hash needs to survive a collection. */
    predicate Protected(sha: Sha)
      reads this`stateFile, this`manifest
    {
      stateFile.Some? && Referenced(Refs(ShasOf(stateFile.value.files), manifest), sha)
    }

    /** The first pass: what to promote and what to remove. */
    method Sort(listing: seq<Path>, r: Refs) returns (promotions: seq<Path>, orphans: seq<Path>)
      ensures promotions == Promotions(listing, listing, r) && orphans == Orphans(listing, listing, r)
    {
      hide Orphan, Promotable;
      promotions, orphans := [], [];
      var i := 0;
      while i < |listing|
        invariant 0 <= i <= |listing|
        invariant promotions == Promotions(listing[..i], listing, r) && orphans == Orphans(listing[..i], listing, r)
      {
        assert listing[..i + 1][..i] == listing[..i];
        if Orphan(listing, r, listing[i]) {
          orphans := orphans + [listing[i]];
        }
        if Promotable(listing, r, listing[i]) {
          promotions := promotions + [listing[i]];
        }
        i := i + 1;
      }
      assert listing[..i] == listing;
    }

    method PromoteLegacy(promotions: seq<Path>, r: Refs, net: Net) returns (promoted: nat)
      modifies this`blobs
      ensures blobs == PromoteAll(old(blobs), r, promotions, net, hash)
    {
      promoted := 0;
      var i := 0;
      while i < |promotions|
        invariant 0 <= i <= |promotions| && blobs == PromoteAll(old(blobs), r, promotions[..i], net, hash)
      {
        var p := promotions[i];
        assert promotions[..i + 1][..i] == promotions[..i];
        if net.down(p) && p in blobs {
          var data := blobs[p];
          if hash(data) != RefOf(r, p) {
            blobs := Removed(blobs, p, net);
          } else {
            var target := CanonicalPath(p, RefOf(r, p));
            blobs := Uploaded(blobs, target, data, net);
            if net.up(target) == Ok {
              blobs := Removed(blobs, p, net);
              promoted := promoted + 1;
            }
          }
        }
        i := i + 1;
      }
      assert promotions[..i] == promotions;
    }

    method RemoveOrphans(orphans: seq<Path>, net: Net) returns (deleted: nat)
      modifies this`blobs
      ensures blobs == RemoveAll(old(blobs), orphans, net)
    {
      deleted := 0;
      var i := 0;
      while i < |orphans|
        invariant 0 <= i <= |orphans| && blobs == RemoveAll(old(blobs), orphans[..i], net)
      {
        assert orphans[..i + 1][..i] == orphans[..i];
        blobs := Removed(blobs, orphans[i], net);
        if net.rm(orphans[i]) == Ok {
          deleted := deleted + 1;
        }
        i := i + 1;
      }
      assert orphans[..i] == orphans;
    }

    /** GarbageCollectBlobs: the number of blobs dealt with, or -1. Published entries keep their blobs; so do the
        durable hashes that are still referenced. */
    method CollectGarbage(w: Weather) returns (n: int, ghost listing: seq<Path>)
      requires Inv()
      modifies this`blobs, this`cache
      ensures Inv() && (old(Published()) ==> Published())
      ensures forall sha :: HasHash(old(blobs), sha) && Protected(sha) ==> HasHash(blobs, sha)
      ensures old(DurableOk()) && (forall sha :: sha in durable ==> Protected(sha)) ==> DurableOk()
      ensures n < 0 ==> blobs == old(blobs)
      ensures forall p :: p in blobs ==> p in old(blobs)
      ensures n >= 0 <==> (old(cache).Some? || w.lists) && (listing == [] || (w.fetches && stateFile.Some?))
      ensures n >= 0 && listing != [] ==>
        blobs == Collect(old(blobs), listing, Refs(ShasOf(stateFile.value.files), manifest), w.net, hash)
      ensures n >= 0 && old(cache).None? ==> forall p :: p in listing <==> p in old(blobs)
    {
      hide *;
      n, listing := -1, [];
      var found := ListBlobs(w);
      if found.Some? {
        listing := found.value;
        if found.value == [] {
          n := 0;
        } else {
          var f := FetchState(w);
          if f.Fetched? {
            n := CollectListed(found.value, f.state, w.net);
          }
        }
      }
      StillDurable();
    }

    /** If no hash lost its blobs, the durable ones did not either. */
    twostate lemma StillDurable()
      requires forall sha :: old(HasHash(blobs, sha) && Protected(sha)) ==> HasHash(blobs, sha)
      requires durable == old(durable)
               && (blobs == old(blobs) || forall sha :: old(HasHash(blobs, sha) && Protected(sha)) ==>
                     HasHash(blobs, sha))
      ensures old(DurableOk()) && (forall sha :: sha in durable ==> old(Protected(sha))) ==> DurableOk()
    {
      hide HasHash, Protected;
    }

    method CollectListed(listing: seq<Path>, state: CloudState, net: Net) returns (n: int)
      requires Inv() && stateFile == Some(state) && forall p :: p in listing ==> p in blobs
      modifies this`blobs, this`cache
      ensures Inv() && n >= 0 && (old(Published()) ==> Published())
      ensures forall sha :: HasHash(old(blobs), sha) && Protected(sha) ==> HasHash(blobs, sha)
      ensures blobs == Collect(old(blobs), listing, Refs(ShasOf(state.files), manifest), net, hash)
      ensures forall p :: p in blobs ==> p in old(blobs)
    {
      hide Sound, NoPreCas, Backed, HasHash, Referenced, Orphans, Promotions, PromoteAll, RemoveAll;
      var r := Refs(ShasOf(state.files), manifest);
      CollectKeeps(blobs, listing, r, net, hash, state.files);
      var promotions, orphans := Sort(listing, r);
      var promoted := PromoteLegacy(promotions, r, net);
      var deleted := RemoveOrphans(orphans, net);
      if orphans == [] {
        n := promoted;
      } else {
        cache := None;
        n := deleted + promoted;
      }
    }
  }

  function ShasOf(files: map<Name, Entry>): map<Name, Sha> {
    map name | name in files :: files[name].sha
  }

  lemma KeptHash(blobs: map<Path, Bytes>, listing: seq<Path>, r: Refs, net: Net, hash: Bytes -> Sha, sha: Sha)
    requires HasHash(blobs, sha) && Referenced(r, sha) && forall b :: IsHexSha(hash(b))
    ensures HasHash(Collect(blobs, listing, r, net, hash), sha)
  {
    var p :| p in blobs && Addressed(p) && ShaOf(p) == sha;
    ReferencedKept(blobs, listing, r, net, hash, p);
    hide Collect, Referenced;
  }

  /** Without pre-CAS blobs nothing is promoted. */
  lemma NothingPromoted(blobs: map<Path, Bytes>, listing: seq<Path>, r: Refs)
    requires NoPreCas(blobs) && forall p :: p in listing ==> p in blobs
    ensures Promotions(listing, listing, r) == []
  {
    NoMembers(Promotions(listing, listing, r));
  }

  lemma RemovedOnly(blobs: map<Path, Bytes>, ps: seq<Path>, net: Net, hash: Bytes -> Sha)
    requires Sound(blobs, hash) && NoPreCas(blobs)
    ensures Sound(RemoveAll(blobs, ps, net), hash) && NoPreCas(RemoveAll(blobs, ps, net))
    ensures forall p :: p in RemoveAll(blobs, ps, net) ==> p in blobs
  {
    forall p | p in RemoveAll(blobs, ps, net)
      ensures p in blobs && RemoveAll(blobs, ps, net)[p] == blobs[p]
    {
      RemoveOnly(blobs, ps, net, p);
    }
  }

  /** What a collection leaves behind, in a store without pre-CAS blobs. */
  lemma CollectKeeps(blobs: map<Path, Bytes>, listing: seq<Path>, r: Refs, net: Net, hash: Bytes -> Sha,
                     files: map<Name, Entry>)
    requires (forall b :: IsHexSha(hash(b))) && Sound(blobs, hash) && NoPreCas(blobs)
    requires r.cloud == ShasOf(files) && forall p :: p in listing ==> p in blobs
    ensures var after := Collect(blobs, listing, r, net, hash);
            && Sound(after, hash) && NoPreCas(after) && (Backed(blobs, files) ==> Backed(after, files))
            && (forall sha :: HasHash(blobs, sha) && Referenced(r, sha) ==> HasHash(after, sha))
            && (forall p :: p in after ==> p in blobs)
            && (Orphans(listing, listing, r) == [] ==> after == blobs)
  {
    NothingPromoted(blobs, listing, r);
    RemovedOnly(blobs, Orphans(listing, listing, r), net, hash);
    forall sha | HasHash(blobs, sha) && Referenced(r, sha)
      ensures HasHash(Collect(blobs, listing, r, net, hash), sha)
    {
      KeptHash(blobs, listing, r, net, hash, sha);
    }
    if Backed(blobs, files) {
      forall name | name in files
        ensures Referenced(r, files[name].sha)
      {
        EntryReferenced(blobs, files, name, r);
      }
    }
    hide Referenced, HasHash, Sound, NoPreCas, Orphans, Promotions, RemoveAll;
  }

  lemma EntryReferenced(blobs: map<Path, Bytes>, files: map<Name, Entry>, name: Name, r: Refs)
    requires Backed(blobs, files) && name in files && r.cloud == ShasOf(files)
    ensures Referenced(r, files[name].sha)
  {
    var p :| p in blobs && Addressed(p) && ShaOf(p) == files[name].sha;
    assert name in r.cloud && r.cloud[name] == files[name].sha;
  }

  lemma ListedIsThere(listing: seq<Path>, name: Name, e: Entry, blobs: map<Path, Bytes>)
    requires NoPreCas(blobs) && forall p :: p in listing ==> p in blobs
    requires (e.sha != "" && Listed(listing, e.sha)) || ListedByName(listing, name)
    ensures HasHash(blobs, e.sha)
  {
    if e.sha != "" && Listed(listing, e.sha) {
      var i :| 0 <= i < |listing| && Addressed(listing[i]) && ShaOf(listing[i]) == e.sha;
      assert listing[i] in blobs;
    }
  }

  method SeqOf(s: set<Path>) returns (r: seq<Path>)
    ensures forall p :: p in r <==> p in s
  {
    r := [];
    var todo := s;
    while todo != {}
      invariant todo <= s && forall p :: p in r <==> p in s && p !in todo
      decreases |todo|
    {
      var p :| p in todo;
      r := r + [p];
      todo := todo - {p};
    }
  }

  // ---- runs ----

  datatype Step =
    | DoPromote(uploads: seq<Name>, reserved: Name -> bool, drained: bool, w: Weather)
    | DoPublish(state: CloudState, w: Weather)
    | DoSetSession(holder: nat, session: nat, w: Weather)
    | DoCollect(w: Weather)
    | DoLocalChange(local: map<Name, Bytes>, manifest: map<Name, Sha>)

  /** One operation. A published state stays backed by blobs; the durable hashes stay so unless a collection
      finds one of them referenced nowhere. */
  method TakeStep(s: Store, step: Step)
    requires s.Inv() && s.DurableOk() && s.Published()
    modifies s
    ensures s.Inv() && s.Published() && s.Cn() >= old(s.Cn())
    ensures !step.DoCollect? || (forall h :: h in old(s.durable) ==> old(s.Protected(h))) ==> s.DurableOk()
  {
    hide *;
    match step
    case DoPromote(uploads, reserved, drained, w) => var ok := s.Promote(uploads, reserved, drained, w);
    case DoPublish(state, w) => var ok := s.Publish(state, w);
    case DoSetSession(holder, session, w) => var ok := s.SetSession(holder, session, w);
    case DoCollect(w) => var n, _ := s.CollectGarbage(w);
    case DoLocalChange(local, manifest) => s.ChangeLocal(local, manifest);
  }

  /** Any run, up to the first collection that takes the last blob of a durable hash: in every state the change
      number is at least what it was before, cn.cloudredirect is not above the published one, and every
      published entry has a blob. */
  method RunSteps(s: Store, steps: seq<Step>) returns (done: nat, cns: seq<int>)
    requires s.Inv() && s.DurableOk() && s.Published()
    modifies s
    ensures s.Inv() && s.Published() && done <= |steps| && (done == |steps| || !s.DurableOk())
    ensures |cns| == done + 1 && forall i, j :: 0 <= i <= j < |cns| ==> cns[i] <= cns[j]
    ensures cns[0] == old(s.Cn()) && cns[done] == s.Cn()
    ensures s.cnFile.Some? ==> s.cnFile.value <= s.Cn()
  {
    hide HasHash, Sound, NoPreCas, Backed;
    done, cns := 0, [s.CurrentCn()];
    while done < |steps| && s.DurableOk()
      invariant done <= |steps| && s.Inv() && s.Published()
      invariant |cns| == done + 1 && (forall i, j :: 0 <= i <= j < |cns| ==> cns[i] <= cns[j])
      invariant cns[0] == old(s.Cn()) && cns[done] == s.Cn()
    {
      TakeStep(s, steps[done]);
      cns := cns + [s.CurrentCn()];
      done := done + 1;
    }
  }

  const CALM: Weather := Weather(Net(_ => Ok, _ => Ok, _ => true), true, true, Ok, Ok)

  lemma ListingNotEmpty(blobs: map<Path, Bytes>, listing: seq<Path>, sha: Sha)
    requires HasHash(blobs, sha) && forall p :: p in blobs ==> p in listing
    ensures listing != []
  {
  }

  method PromoteOneFile(hash: Bytes -> Sha, data: Bytes) returns (s: Store)
    requires forall b :: IsHexSha(hash(b))
    ensures fresh(s) && s.hash == hash && s.Inv() && hash(data) in s.durable && HasHash(s.blobs, hash(data))
    ensures s.stateFile == None && s.cache == None && s.manifest == map[]
  {
    s := new Store(hash);
    hide HasHash, Sound, NoPreCas, Backed, CanonicalPath, Store.Inv;
    s.ChangeLocal(map["a" := data], map[]);
    var promoted := s.Promote(["a"], _ => false, true, CALM);
    assert ["a"][0] == "a";
  }

  /** A batch is promoted but not published, and then collected. */
  method PromoteThenCollect(hash: Bytes -> Sha, data: Bytes) returns (s: Store)
    requires forall b :: IsHexSha(hash(b))
    ensures fresh(s) && s.hash == hash && s.Inv() && hash(data) in s.durable && !HasHash(s.blobs, hash(data))
    ensures s.stateFile == Some(CloudState(1, 0, map[]))
  {
    hide HasHash, Sound, NoPreCas, Backed, Collect, Referenced, KeepPath, Store.Inv, Store.Published, Store.DurableOk,
         Store.Protected;
    s := PromoteOneFile(hash, data);
    var first := s.Publish(CloudState(1, 0, map[]), CALM);
    assert s.stateFile == Some(CloudState(1, 0, map[])) && s.cache == None;
    ghost var before := s.blobs;
    var n, listing := s.CollectGarbage(CALM);
    assert n >= 0 && ShasOf(map[]) == map[];
    ListingNotEmpty(before, listing, hash(data));
    Unreferenced(before, listing, CALM.net, hash, hash(data));
  }

  /** A hash recorded as durable is trusted without looking: collected in between, it is published without a blob. */
  method DurableHashTrusted(hash: Bytes -> Sha, data: Bytes) returns (published: CloudState, blobs: map<Path, Bytes>)
    requires forall b :: IsHexSha(hash(b))
    ensures "a" in published.files && published.files["a"].sha == hash(data) && !HasHash(blobs, hash(data))
  {
    var s := PromoteThenCollect(hash, data);
    assert |hash(data)| == 40;
    hide HasHash, Sound, NoPreCas, Backed, Store.Inv;
    var second := s.Publish(CloudState(2, 0, map["a" := Entry(hash(data), 0)]), CALM);
    published, blobs := s.stateFile.value, s.blobs;
  }

  /** An undisturbed collection with nothing referenced leaves nothing. */
  lemma Unreferenced(blobs: map<Path, Bytes>, listing: seq<Path>, net: Net, hash: Bytes -> Sha, sha: Sha)
    requires Calm(net) && (forall b :: IsHexSha(hash(b))) && forall p :: p in listing <==> p in blobs
    ensures !HasHash(Collect(blobs, listing, Refs(map[], map[]), net, hash), sha)
  {
    var after := Collect(blobs, listing, Refs(map[], map[]), net, hash);
    forall p | p in after
      ensures false
    {
      LeftIsReferenced(blobs, listing, Refs(map[], map[]), net, hash, p);
    }
  }
}
