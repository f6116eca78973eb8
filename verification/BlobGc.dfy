/** Which blobs garbage collection removes: the decisions of GarbageCollectBlobs and what they guarantee.
    Paths are relative to the app's blobs/ directory. */
module BlobGc {
  type Bytes = seq<int>
  type Path = string
  type Name = string
  type Sha = string

  predicate IsHexSha(s: string) {
    |s| == 40 && forall i :: 0 <= i < 40 ==> '0' <= s[i] <= '9' || 'a' <= s[i] <= 'f'
  }

  /** The last slash in s[..n], or -1. */
  function LastSlash(s: string, n: nat): (i: int)
    requires n <= |s|
    ensures -1 <= i < n && (i >= 0 ==> s[i] == '/') && forall k :: i < k < n ==> s[k] != '/'
  {
    if n == 0 then -1 else if s[n - 1] == '/' then n - 1 else LastSlash(s, n - 1)
  }

  /** name/sha, sha alone (an older layout), or a plain file name (from before content addressing). */
  datatype Kind = Canonical(sha: Sha) | LegacySha(sha: Sha) | PreCas

  function KindOf(p: Path): Kind {
    var i := LastSlash(p, |p|);
    if i >= 0 && IsHexSha(p[i + 1..]) then Canonical(p[i + 1..])
    else if IsHexSha(p) then LegacySha(p)
    else PreCas
  }

  function CanonicalPath(name: Name, sha: Sha): Path {
    name + "/" + sha
  }

  lemma CanonicalKind(name: Name, sha: Sha)
    requires IsHexSha(sha)
    ensures KindOf(CanonicalPath(name, sha)) == Canonical(sha)
  {
    var p := CanonicalPath(name, sha);
    var i := LastSlash(p, |p|);
    assert p[|name|] == '/';
    assert forall k :: |name| < k < |p| ==> p[k] == sha[k - |name| - 1];
    assert i == |name|;
    assert p[i + 1..] == sha;
  }

  // ---- what is referenced ----

  /** The hashes the fetched cloud state and the local manifest give for each name; empty means none. */
  datatype Refs = Refs(cloud: map<Name, Sha>, manifest: map<Name, Sha>)

  predicate Refers(m: map<Name, Sha>, sha: Sha) {
    exists name :: name in m && m[name] == sha && sha != ""
  }

  predicate Referenced(r: Refs, sha: Sha) {
    Refers(r.cloud, sha) || Refers(r.manifest, sha)
  }

  predicate KeepPath(r: Refs, p: Path) {
    (exists name :: name in r.cloud && r.cloud[name] != "" && p == CanonicalPath(name, r.cloud[name])) ||
    (exists name :: name in r.manifest && r.manifest[name] != "" && p == CanonicalPath(name, r.manifest[name]))
  }

  /** The hash a name stands for: the local manifest wins. */
  function RefOf(r: Refs, name: Name): Sha {
    if name in r.manifest && r.manifest[name] != "" then r.manifest[name]
    else if name in r.cloud then r.cloud[name]
    else ""
  }

  /** A canonical blob that is listed and referenced by its path. */
  predicate Existing(listing: seq<Path>, r: Refs, p: Path) {
    p in listing && KindOf(p).Canonical? && KeepPath(r, p)
  }

  predicate Promotable(listing: seq<Path>, r: Refs, p: Path) {
    KindOf(p).PreCas? && RefOf(r, p) != "" && !Existing(listing, r, CanonicalPath(p, RefOf(r, p)))
  }

  predicate Orphan(listing: seq<Path>, r: Refs, p: Path) {
    match KindOf(p)
    case Canonical(sha) => !KeepPath(r, p) && !Referenced(r, sha)
    case LegacySha(sha) => !Referenced(r, sha)
    case PreCas => !Promotable(listing, r, p)
  }

  // ---- the provider, and the two removal passes ----

  datatype Reply = Ok | Refused | LostReply

  /** How the provider answers each call; a lost reply means the call took effect but reported failure. */
  datatype Net = Net(up: Path -> Reply, rm: Path -> Reply, down: Path -> bool)

  function Removed(blobs: map<Path, Bytes>, p: Path, net: Net): map<Path, Bytes> {
    if net.rm(p) == Refused then blobs else blobs - {p}
  }

  function Uploaded(blobs: map<Path, Bytes>, p: Path, data: Bytes, net: Net): map<Path, Bytes> {
    if net.up(p) == Refused then blobs else blobs[p := data]
  }

  /** Moves one pre-CAS blob to its canonical path, if its bytes hash to what the name stands for. */
  function PromoteOne(blobs: map<Path, Bytes>, r: Refs, p: Path, net: Net, hash: Bytes -> Sha): map<Path, Bytes> {
    if !net.down(p) || p !in blobs then blobs
    else if hash(blobs[p]) != RefOf(r, p) then Removed(blobs, p, net)
    else
      var target := CanonicalPath(p, RefOf(r, p));
      var after := Uploaded(blobs, target, blobs[p], net);
      if net.up(target) != Ok then after else Removed(after, p, net)
  }

  function PromoteAll(blobs: map<Path, Bytes>, r: Refs, ps: seq<Path>, net: Net, hash: Bytes -> Sha): map<Path, Bytes> {
    if |ps| == 0 then blobs else PromoteOne(PromoteAll(blobs, r, ps[..|ps| - 1], net, hash), r, ps[|ps| - 1], net, hash)
  }

  function RemoveAll(blobs: map<Path, Bytes>, ps: seq<Path>, net: Net): map<Path, Bytes> {
    if |ps| == 0 then blobs else Removed(RemoveAll(blobs, ps[..|ps| - 1], net), ps[|ps| - 1], net)
  }

  function Orphans(listing: seq<Path>, all: seq<Path>, r: Refs): (o: seq<Path>)
    ensures forall p :: p in o <==> p in listing && Orphan(all, r, p)
  {
    if |listing| == 0 then []
    else Orphans(listing[..|listing| - 1], all, r) + if Orphan(all, r, listing[|listing| - 1])
         then [listing[|listing| - 1]] else []
  }

  function Promotions(listing: seq<Path>, all: seq<Path>, r: Refs): (o: seq<Path>)
    ensures forall p :: p in o <==> p in listing && Promotable(all, r, p)
  {
    if |listing| == 0 then []
    else Promotions(listing[..|listing| - 1], all, r) + if Promotable(all, r, listing[|listing| - 1])
         then [listing[|listing| - 1]] else []
  }

  /** The blobs after a collection over this listing, which may be out of date. */
  function Collect(blobs: map<Path, Bytes>, listing: seq<Path>, r: Refs, net: Net,
                   hash: Bytes -> Sha): map<Path, Bytes> {
    RemoveAll(PromoteAll(blobs, r, Promotions(listing, listing, r), net, hash), Orphans(listing, listing, r), net)
  }

  // ---- no referenced hash loses a blob ----

  predicate Addressed(p: Path) {
    !KindOf(p).PreCas?
  }

  predicate AllPreCas(ps: seq<Path>) {
    forall i :: 0 <= i < |ps| ==> !Addressed(ps[i])
  }

  /** Promotion removes none but the copies it promotes, and everything it writes has its own hash. */
  lemma {:induction false} PromoteKeeps(blobs: map<Path, Bytes>, r: Refs, ps: seq<Path>, net: Net, hash: Bytes -> Sha,
                                        p: Path)
    requires p in blobs && p !in ps
    ensures var b := PromoteAll(blobs, r, ps, net, hash);
            p in b
            && (b[p] == blobs[p]
                || (exists q :: q in ps && p == CanonicalPath(q, RefOf(r, q)) && hash(b[p]) == RefOf(r, q)))
  {
    if |ps| == 0 {
    } else {
      var k := |ps| - 1;
      PromoteKeeps(blobs, r, ps[..k], net, hash, p);
      var m := PromoteAll(blobs, r, ps[..k], net, hash);
      var q := ps[k];
      assert q in ps;
      if m[p] != blobs[p] {
        var q' :| q' in ps[..k] && p == CanonicalPath(q', RefOf(r, q')) && hash(m[p]) == RefOf(r, q');
        assert q' in ps;
      }
    }
  }

  lemma {:induction false} RemoveOnly(blobs: map<Path, Bytes>, ps: seq<Path>, net: Net, p: Path)
    ensures p in RemoveAll(blobs, ps, net) ==> p in blobs && RemoveAll(blobs, ps, net)[p] == blobs[p]
    ensures p in blobs && p !in ps ==> p in RemoveAll(blobs, ps, net)
  {
    if |ps| == 0 {
    } else {
      RemoveOnly(blobs, ps[..|ps| - 1], net, p);
    }
  }

  /** The hash a hash-addressed path carries. */
  function ShaOf(p: Path): Sha
    requires Addressed(p)
  {
    KindOf(p).sha
  }

  /** For any listing, even a stale one, and however the provider answers: a hash-addressed blob whose hash the
      fetched state or the local manifest refers to is still there, and still has that hash if it had it. */
  lemma ReferencedKept(blobs: map<Path, Bytes>, listing: seq<Path>, r: Refs, net: Net, hash: Bytes -> Sha, p: Path)
    requires p in blobs && Addressed(p) && Referenced(r, ShaOf(p)) && forall b :: IsHexSha(hash(b))
    ensures var after := Collect(blobs, listing, r, net, hash);
            p in after && (hash(blobs[p]) == ShaOf(p) ==> hash(after[p]) == ShaOf(p))
  {
    var ps, os := Promotions(listing, listing, r), Orphans(listing, listing, r);
    var b := PromoteAll(blobs, r, ps, net, hash);
    PromoteKeeps(blobs, r, ps, net, hash, p);
    RemoveOnly(b, os, net, p);
    if b[p] != blobs[p] {
      var q :| q in ps && p == CanonicalPath(q, RefOf(r, q)) && hash(b[p]) == RefOf(r, q);
      CanonicalKind(q, RefOf(r, q));
    }
    hide PromoteAll, RemoveAll, Orphans, Promotions, KindOf, Referenced;
  }

  /** Every provider call succeeds. */
  ghost predicate Calm(net: Net) {
    forall p :: net.rm(p) == Ok && net.up(p) == Ok && net.down(p)
  }

  /** Cloud state and manifest give the same hash for a name. */
  predicate Agree(r: Refs) {
    forall name :: name in r.cloud && name in r.manifest && r.manifest[name] != "" ==> r.cloud[name] == r.manifest[name]
  }

  // ---- a matching copy outlives its name only as verified bytes ----

  /** The content of every hash-addressed blob has that hash. */
  predicate Sound(blobs: map<Path, Bytes>, hash: Bytes -> Sha) {
    forall p :: p in blobs && Addressed(p) ==> hash(blobs[p]) == ShaOf(p)
  }

  lemma CanonicalApart(a: Name, x: Sha, b: Name, y: Sha)
    requires IsHexSha(x) && IsHexSha(y) && CanonicalPath(a, x) == CanonicalPath(b, y)
    ensures a == b && x == y
  {
    var p := CanonicalPath(a, x);
    assert p[..|p| - 41] == a && p[|p| - 40..] == x;
    assert CanonicalPath(b, y)[..|p| - 41] == b && CanonicalPath(b, y)[|p| - 40..] == y;
  }

  lemma PromoteOneMatching(m: map<Path, Bytes>, r: Refs, q: Path, net: Net, hash: Bytes -> Sha, p: Path, sha: Sha)
    requires (forall b :: IsHexSha(hash(b))) && !Addressed(p) && !Addressed(q) && sha == RefOf(r, p) && IsHexSha(sha)
    requires p in m ==> hash(m[p]) == sha
    requires p !in m ==> CanonicalPath(p, sha) in m && hash(m[CanonicalPath(p, sha)]) == sha
    ensures var b := PromoteOne(m, r, q, net, hash); var target := CanonicalPath(p, sha);
            && (p in b ==> p in m && b[p] == m[p])
            && (p !in b ==> target in b && hash(b[target]) == sha)
  {
    hide KindOf, CanonicalPath, IsHexSha, RefOf;
    var target := CanonicalPath(p, sha);
    CanonicalKind(p, sha);
    if q in m && hash(m[q]) == RefOf(r, q) {
      var t := CanonicalPath(q, RefOf(r, q));
      CanonicalKind(q, RefOf(r, q));
      if t == target {
        CanonicalApart(q, RefOf(r, q), p, sha);
      }
    }
  }

  /** Promotion takes a matching copy away only after its bytes are at the canonical path. */
  lemma {:induction false} PromoteMatching(blobs: map<Path, Bytes>, r: Refs, ps: seq<Path>, net: Net,
                                           hash: Bytes -> Sha, p: Path)
    requires p in blobs && hash(blobs[p]) == RefOf(r, p) && (forall b :: IsHexSha(hash(b))) && AllPreCas(ps)
             && !Addressed(p)
    ensures var b := PromoteAll(blobs, r, ps, net, hash); var target := CanonicalPath(p, RefOf(r, p));
            && (p in b ==> b[p] == blobs[p])
            && (p !in b ==> target in b && hash(b[target]) == RefOf(r, p))
  {
    hide KindOf, CanonicalPath, IsHexSha, RefOf, PromoteOne;
    if |ps| == 0 {
    } else {
      var k := |ps| - 1;
      PromoteMatching(blobs, r, ps[..k], net, hash, p);
      assert !Addressed(ps[k]);
      PromoteOneMatching(PromoteAll(blobs, r, ps[..k], net, hash), r, ps[k], net, hash, p, RefOf(r, p));
    }
  }

  /** A listed copy that matches is not promoted if the listing already names its canonical path; then there must be a
      blob with the right content. The listing may be out of date otherwise. */
  predicate Covered(blobs: map<Path, Bytes>, listing: seq<Path>, r: Refs, hash: Bytes -> Sha, p: Path) {
    var target := CanonicalPath(p, RefOf(r, p));
    p in listing && Existing(listing, r, target) ==> target in blobs && hash(blobs[target]) == RefOf(r, p)
  }

  /** The bytes a name stands for are still at the copy or at the canonical path. */
  predicate CopyKept(blobs: map<Path, Bytes>, after: map<Path, Bytes>, r: Refs, hash: Bytes -> Sha, p: Path)
    requires p in blobs
  {
    var target := CanonicalPath(p, RefOf(r, p));
    (p in after && after[p] == blobs[p]) || (target in after && hash(after[target]) == RefOf(r, p))
  }

  /** Promotion leaves the content of a canonical path alone, or puts the right content there. */
  lemma TargetAfterPromotion(blobs: map<Path, Bytes>, r: Refs, ps: seq<Path>, net: Net, hash: Bytes -> Sha, p: Path)
    requires (forall b :: IsHexSha(hash(b))) && AllPreCas(ps) && IsHexSha(RefOf(r, p))
    requires var target := CanonicalPath(p, RefOf(r, p)); target in blobs && hash(blobs[target]) == RefOf(r, p)
    ensures var b, target := PromoteAll(blobs, r, ps, net, hash), CanonicalPath(p, RefOf(r, p));
            target in b && hash(b[target]) == RefOf(r, p)
  {
    hide PromoteAll, KindOf, CanonicalPath, IsHexSha, RefOf;
    var sha, target := RefOf(r, p), CanonicalPath(p, RefOf(r, p));
    CanonicalKind(p, sha);
    assert target !in ps by { NotAmong(ps, target); }
    PromoteKeeps(blobs, r, ps, net, hash, target);
    var b := PromoteAll(blobs, r, ps, net, hash);
    if b[target] != blobs[target] {
      var q :| q in ps && target == CanonicalPath(q, RefOf(r, q)) && hash(b[target]) == RefOf(r, q);
      CanonicalApart(q, RefOf(r, q), p, sha);
    }
  }

  lemma NotAmong(ps: seq<Path>, p: Path)
    requires AllPreCas(ps) && Addressed(p)
    ensures p !in ps
  {
  }

  /** A pre-CAS copy whose bytes match what its name stands for goes away only when the canonical path holds
      bytes with that hash. */
  lemma MatchingCopyKept(blobs: map<Path, Bytes>, listing: seq<Path>, r: Refs, net: Net, hash: Bytes -> Sha, p: Path)
    requires (forall b :: IsHexSha(hash(b))) && Covered(blobs, listing, r, hash, p)
    requires p in blobs && !Addressed(p) && hash(blobs[p]) == RefOf(r, p)
    ensures CopyKept(blobs, Collect(blobs, listing, r, net, hash), r, hash, p)
  {
    var ps, os := Promotions(listing, listing, r), Orphans(listing, listing, r);
    var sha, target := RefOf(r, p), CanonicalPath(p, RefOf(r, p));
    PromotionsArePreCas(listing, listing, r);
    NotEmpty(sha);
    KeepsTarget(r, p);
    hide PromoteAll, RemoveAll, Orphans, Promotions, KindOf, CanonicalPath, IsHexSha, RefOf, KeepPath, Referenced;
    var b := PromoteAll(blobs, r, ps, net, hash);
    PromoteMatching(blobs, r, ps, net, hash, p);
    RemoveOnly(b, os, net, p);
    RemoveOnly(b, os, net, target);
    if p in b && p in os {
      TargetAfterPromotion(blobs, r, ps, net, hash, p);
    }
  }

  lemma NotEmpty(sha: Sha)
    requires IsHexSha(sha)
    ensures sha != ""
  {
  }

  lemma KeepsTarget(r: Refs, p: Path)
    requires IsHexSha(RefOf(r, p))
    ensures var target := CanonicalPath(p, RefOf(r, p)); KeepPath(r, target) && KindOf(target) == Canonical(RefOf(r, p))
  {
    NotEmpty(RefOf(r, p));
    CanonicalKind(p, RefOf(r, p));
    hide KindOf, CanonicalPath, IsHexSha;
  }

  /** If every provider call succeeds, a matching copy is kept exactly if it is covered. */
  lemma MatchingCopyKeptIff(blobs: map<Path, Bytes>, listing: seq<Path>, r: Refs, net: Net, hash: Bytes -> Sha, p: Path)
    requires Calm(net) && (forall b :: IsHexSha(hash(b)))
    requires p in blobs && !Addressed(p) && hash(blobs[p]) == RefOf(r, p)
    ensures CopyKept(blobs, Collect(blobs, listing, r, net, hash), r, hash, p) <==> Covered(blobs, listing, r, hash, p)
  {
    if Covered(blobs, listing, r, hash, p) {
      MatchingCopyKept(blobs, listing, r, net, hash, p);
    } else {
      UncoveredLost(blobs, listing, r, net, hash, p);
    }
    hide Collect, Covered, CopyKept;
  }

  lemma UncoveredLost(blobs: map<Path, Bytes>, listing: seq<Path>, r: Refs, net: Net, hash: Bytes -> Sha, p: Path)
    requires Calm(net) && (forall b :: IsHexSha(hash(b)))
    requires p in blobs && !Addressed(p) && hash(blobs[p]) == RefOf(r, p) && !Covered(blobs, listing, r, hash, p)
    ensures !CopyKept(blobs, Collect(blobs, listing, r, net, hash), r, hash, p)
  {
    var ps, os := Promotions(listing, listing, r), Orphans(listing, listing, r);
    var sha, target := RefOf(r, p), CanonicalPath(p, RefOf(r, p));
    PromotionsArePreCas(listing, listing, r);
    NotEmpty(sha);
    KeepsTarget(r, p);
    hide PromoteAll, RemoveAll, Orphans, Promotions, KindOf, CanonicalPath, IsHexSha, RefOf, KeepPath, Referenced, Calm;
    var b := PromoteAll(blobs, r, ps, net, hash);
    RemoveAllGone(b, os, net, p);
    RemoveOnly(b, os, net, target);
    PromoteOrigin(blobs, r, ps, net, hash, target);
    if q :| q in ps && q in blobs && IsHexSha(RefOf(r, q)) && target == CanonicalPath(q, RefOf(r, q)) {
      CanonicalApart(q, RefOf(r, q), p, sha);
    }
  }

  /** What is there after promotion was there before, or is a promoted copy. */
  lemma {:induction false} PromoteOrigin(blobs: map<Path, Bytes>, r: Refs, ps: seq<Path>, net: Net, hash: Bytes -> Sha,
                                         x: Path)
    requires (forall b :: IsHexSha(hash(b))) && AllPreCas(ps)
    ensures var b := PromoteAll(blobs, r, ps, net, hash);
            x in b ==> (x in blobs && b[x] == blobs[x]) ||
                       (exists q :: q in ps && q in blobs && IsHexSha(RefOf(r, q)) && x == CanonicalPath(q, RefOf(r, q))
                                    && b[x] == blobs[q] && hash(blobs[q]) == RefOf(r, q))
  {
    if |ps| == 0 {
    } else {
      var k := |ps| - 1;
      var q, m := ps[k], PromoteAll(blobs, r, ps[..k], net, hash);
      assert q in ps && !Addressed(q);
      PromoteOrigin(blobs, r, ps[..k], net, hash, x);
      PromoteOrigin(blobs, r, ps[..k], net, hash, q);
      PreCasIsNoTarget(q, r);
      PromoteOneAt(m, r, q, net, hash, x);
      hide PromoteOne, KindOf, CanonicalPath, IsHexSha, RefOf;
      if x in m && !(x in blobs && m[x] == blobs[x]) {
        var q' :| q' in ps[..k] && q' in blobs && IsHexSha(RefOf(r, q')) && x == CanonicalPath(q', RefOf(r, q'))
                  && m[x] == blobs[q'] && hash(blobs[q']) == RefOf(r, q');
        assert q' in ps;
      }
    }
  }

  lemma PreCasIsNoTarget(p: Path, r: Refs)
    requires !Addressed(p)
    ensures forall q :: IsHexSha(RefOf(r, q)) ==> p != CanonicalPath(q, RefOf(r, q))
  {
    forall q | IsHexSha(RefOf(r, q))
      ensures p != CanonicalPath(q, RefOf(r, q))
    {
      CanonicalKind(q, RefOf(r, q));
    }
    hide KindOf, CanonicalPath, IsHexSha, RefOf;
  }

  lemma PromoteOneAt(m: map<Path, Bytes>, r: Refs, q: Path, net: Net, hash: Bytes -> Sha, x: Path)
    ensures var b := PromoteOne(m, r, q, net, hash);
            x in b ==>
              (x in m && b[x] == m[x])
              || (q in m && hash(m[q]) == RefOf(r, q) && x == CanonicalPath(q, RefOf(r, q)) && b[x] == m[q])
  {
    hide CanonicalPath, RefOf;
  }

  /** A listing that still names a canonical blob which is gone costs the only matching copy. */
  lemma StaleListingLoses(p: Path, data: Bytes, net: Net, hash: Bytes -> Sha)
    requires Calm(net) && (forall b :: IsHexSha(hash(b))) && !Addressed(p)
    ensures var r := Refs(map[p := hash(data)], map[p := hash(data)]);
            Agree(r) && Collect(map[p := data], [p, CanonicalPath(p, hash(data))], r, net, hash) == map[]
  {
    var sha := hash(data);
    var r, target := Refs(map[p := sha], map[p := sha]), CanonicalPath(p, sha);
    NotEmpty(sha);
    assert RefOf(r, p) == sha;
    KeepsTarget(r, p);
    var blobs, listing := map[p := data], [p, target];
    NothingPromotable(listing, r, p, sha);
    hide Orphans, Promotions, KindOf, CanonicalPath, IsHexSha, RefOf, KeepPath, Referenced, RemoveAll;
    assert PromoteAll(blobs, r, [], net, hash) == blobs;
    RemoveAllGone(blobs, Orphans(listing, listing, r), net, p);
    forall x | x in RemoveAll(blobs, Orphans(listing, listing, r), net)
      ensures false
    {
      RemoveOnly(blobs, Orphans(listing, listing, r), net, x);
    }
  }

  lemma NothingPromotable(listing: seq<Path>, r: Refs, p: Path, sha: Sha)
    requires !Addressed(p) && RefOf(r, p) == sha && IsHexSha(sha) && listing == [p, CanonicalPath(p, sha)]
    ensures Promotions(listing, listing, r) == [] && p in Orphans(listing, listing, r)
  {
    KeepsTarget(r, p);
    var target := CanonicalPath(p, sha);
    hide Orphans, Promotions, KindOf, CanonicalPath, IsHexSha, RefOf, KeepPath, Referenced;
    assert target in listing && p in listing;
    assert !Promotable(listing, r, p) && !Promotable(listing, r, target);
    NoMembers(Promotions(listing, listing, r));
  }

  // ---- a second collection removes nothing ----

  /** p is where one of ps is promoted to. */
  predicate Target(r: Refs, ps: seq<Path>, p: Path) {
    exists q :: q in ps && IsHexSha(RefOf(r, q)) && p == CanonicalPath(q, RefOf(r, q))
  }

  lemma TargetMore(r: Refs, ps: seq<Path>, q: Path, p: Path)
    requires Target(r, ps, p) || (IsHexSha(RefOf(r, q)) && p == CanonicalPath(q, RefOf(r, q)))
    ensures Target(r, ps + [q], p)
  {
    if Target(r, ps, p) {
      var q' :| q' in ps && IsHexSha(RefOf(r, q')) && p == CanonicalPath(q', RefOf(r, q'));
      assert q' in ps + [q];
    } else {
      assert q in ps + [q];
    }
  }

  lemma TargetIsReferenced(r: Refs, ps: seq<Path>, p: Path)
    requires Target(r, ps, p)
    ensures Addressed(p) && KeepPath(r, p)
  {
    var q :| q in ps && IsHexSha(RefOf(r, q)) && p == CanonicalPath(q, RefOf(r, q));
    CanonicalKind(q, RefOf(r, q));
    assert RefOf(r, q) != "" by { assert |RefOf(r, q)| == 40; }
    hide KindOf, CanonicalPath, IsHexSha;
  }

  lemma PromoteOneKeys(m: map<Path, Bytes>, r: Refs, q: Path, net: Net, hash: Bytes -> Sha, p: Path)
    requires Calm(net) && (forall b :: IsHexSha(hash(b))) && !Addressed(q)
    ensures var b := PromoteOne(m, r, q, net, hash);
            && (p in b ==> p in m || (IsHexSha(RefOf(r, q)) && p == CanonicalPath(q, RefOf(r, q))))
            && q !in b && (p !in m && !Addressed(p) ==> p !in b)
  {
    if q in m && hash(m[q]) == RefOf(r, q) {
      CanonicalKind(q, RefOf(r, q));
    }
    hide KindOf, CanonicalPath, IsHexSha, RefOf;
  }

  lemma {:induction false} PromoteKeys(blobs: map<Path, Bytes>, r: Refs, ps: seq<Path>, net: Net, hash: Bytes -> Sha,
                                       p: Path)
    requires Calm(net) && (forall b :: IsHexSha(hash(b))) && AllPreCas(ps)
    ensures var b := PromoteAll(blobs, r, ps, net, hash);
            (p in b ==> p in blobs || Target(r, ps, p)) && (p in ps ==> p !in b)
  {
    if |ps| == 0 {
    } else {
      var k := |ps| - 1;
      var q := ps[k];
      assert !Addressed(q) && (p in ps ==> !Addressed(p));
      hide Target, PromoteOne, KindOf, CanonicalPath, IsHexSha, RefOf, Calm, Addressed;
      PromoteKeys(blobs, r, ps[..k], net, hash, p);
      PromoteOneKeys(PromoteAll(blobs, r, ps[..k], net, hash), r, q, net, hash, p);
      assert ps[..k] + [q] == ps;
      if Target(r, ps[..k], p) || (IsHexSha(RefOf(r, q)) && p == CanonicalPath(q, RefOf(r, q))) {
        TargetMore(r, ps[..k], q, p);
      }
    }
  }

  lemma {:induction false} RemoveAllGone(blobs: map<Path, Bytes>, ps: seq<Path>, net: Net, p: Path)
    requires Calm(net) && p in ps
    ensures p !in RemoveAll(blobs, ps, net)
  {
    var k := |ps| - 1;
    if p != ps[k] {
      RemoveAllGone(blobs, ps[..k], net, p);
    }
  }

  /** What is left after an undisturbed collection over a complete listing is referenced and hash-addressed. */
  lemma LeftIsReferenced(blobs: map<Path, Bytes>, listing: seq<Path>, r: Refs, net: Net, hash: Bytes -> Sha, p: Path)
    requires Calm(net) && (forall b :: IsHexSha(hash(b))) && forall q :: q in listing <==> q in blobs
    requires p in Collect(blobs, listing, r, net, hash)
    ensures Addressed(p) && (KeepPath(r, p) || Referenced(r, ShaOf(p)))
  {
    var ps, os := Promotions(listing, listing, r), Orphans(listing, listing, r);
    PromotionsArePreCas(listing, listing, r);
    hide PromoteAll, RemoveAll, Orphans, Promotions, KindOf, Target, Calm, KeepPath, Referenced, IsHexSha;
    var b := PromoteAll(blobs, r, ps, net, hash);
    RemoveOnly(b, os, net, p);
    PromoteKeys(blobs, r, ps, net, hash, p);
    if p in os {
      RemoveAllGone(b, os, net, p);
    }
    if Target(r, ps, p) {
      TargetIsReferenced(r, ps, p);
    }
  }

  lemma PromotionsArePreCas(listing: seq<Path>, all: seq<Path>, r: Refs)
    ensures AllPreCas(Promotions(listing, all, r))
  {
    var ps := Promotions(listing, all, r);
    forall i | 0 <= i < |ps|
      ensures !Addressed(ps[i])
    {
      assert ps[i] in ps;
    }
  }

  lemma SlashAt(name: Name, sha: Sha)
    ensures |name| < |CanonicalPath(name, sha)| && CanonicalPath(name, sha)[|name|] == '/'
  {
  }

  lemma HasSlash(r: Refs, p: Path)
    requires KeepPath(r, p)
    ensures !KindOf(p).LegacySha?
  {
    if name :| name in r.cloud && r.cloud[name] != "" && p == CanonicalPath(name, r.cloud[name]) {
      SlashAt(name, r.cloud[name]);
    } else {
      var name :| name in r.manifest && r.manifest[name] != "" && p == CanonicalPath(name, r.manifest[name]);
      SlashAt(name, r.manifest[name]);
    }
  }

  lemma KeptIsIdle(all: seq<Path>, r: Refs, p: Path)
    requires Addressed(p) && (KeepPath(r, p) || Referenced(r, ShaOf(p)))
    ensures !Promotable(all, r, p) && (Orphan(all, r, p) ==> false)
  {
    if KeepPath(r, p) {
      HasSlash(r, p);
    }
  }

  lemma NoMembers(s: seq<Path>)
    ensures (forall p :: p !in s) ==> s == []
  {
    if |s| > 0 {
      assert s[0] in s;
    }
  }

  /** If every provider call succeeds, collecting again on the unchanged state removes nothing. */
  lemma SecondCollectionIdle(blobs: map<Path, Bytes>, listing: seq<Path>, again: seq<Path>, r: Refs, net: Net,
                             hash: Bytes -> Sha)
    requires Calm(net) && (forall b :: IsHexSha(hash(b))) && forall q :: q in listing <==> q in blobs
    requires forall q :: q in again <==> q in Collect(blobs, listing, r, net, hash)
    ensures Orphans(again, again, r) == [] && Promotions(again, again, r) == []
    ensures var after := Collect(blobs, listing, r, net, hash); Collect(after, again, r, net, hash) == after
  {
    var os, ps := Orphans(again, again, r), Promotions(again, again, r);
    hide Orphans, Promotions, Orphan, Promotable, KeepPath, Referenced, KindOf, PromoteOne, Calm;
    forall p | p in again
      ensures !Promotable(again, r, p) && !Orphan(again, r, p)
    {
      LeftIsReferenced(blobs, listing, r, net, hash, p);
      KeptIsIdle(again, r, p);
    }
    NoMembers(os);
    NoMembers(ps);
  }

  // ---- where the two sources of references disagree ----

  /** Where cloud state and manifest agree, the covered copies the cloud state stands for are kept as bytes. */
  lemma AgreedCopyKept(blobs: map<Path, Bytes>, listing: seq<Path>, r: Refs, net: Net, hash: Bytes -> Sha, p: Path)
    requires (forall b :: IsHexSha(hash(b))) && Covered(blobs, listing, r, hash, p) && Agree(r)
    requires p in blobs && !Addressed(p) && p in r.cloud && hash(blobs[p]) == r.cloud[p]
    ensures RefOf(r, p) == r.cloud[p] && CopyKept(blobs, Collect(blobs, listing, r, net, hash), r, hash, p)
  {
    MatchingCopyKept(blobs, listing, r, net, hash, p);
    hide Collect, Covered, CopyKept;
  }

  /** Where they disagree the manifest wins, and the only copy of what the cloud state stands for is removed. */
  lemma DisagreementLoses(p: Path, data: Bytes, other: Sha, net: Net, hash: Bytes -> Sha)
    requires Calm(net) && (forall b :: IsHexSha(hash(b))) && !Addressed(p) && IsHexSha(other) && other != hash(data)
    ensures var r := Refs(map[p := hash(data)], map[p := other]);
            Referenced(r, hash(data)) && Collect(map[p := data], [p], r, net, hash) == map[]
  {
    var r := Refs(map[p := hash(data)], map[p := other]);
    NotEmpty(hash(data));
    NotEmpty(other);
    hide IsHexSha, LastSlash, KindOf, CanonicalPath;
    assert p in r.cloud && r.cloud[p] == hash(data);
    LonePromotable(p, other, r);
    OneListed(p, r);
    assert [p][..0] == [];
    assert PromoteAll(map[p := data], r, [], net, hash) == map[p := data];
    assert map[p := data] - {p} == map[];
  }

  lemma LonePromotable(p: Path, other: Sha, r: Refs)
    requires !Addressed(p) && IsHexSha(other) && RefOf(r, p) == other && other != ""
    ensures Promotable([p], r, p)
  {
    CanonicalKind(p, other);
    assert CanonicalPath(p, other) != p by { assert Addressed(CanonicalPath(p, other)); }
    hide IsHexSha, LastSlash, KindOf, CanonicalPath, RefOf;
  }

  lemma OneListed(p: Path, r: Refs)
    requires Promotable([p], r, p) && !Addressed(p)
    ensures Promotions([p], [p], r) == [p] && Orphans([p], [p], r) == []
  {
    hide IsHexSha, LastSlash, KindOf, CanonicalPath, RefOf, Existing;
    assert [p][..0] == [];
  }

  // ---- which contents survive ----

  /** The blob's bytes are kept: at its own path, or promoted. */
  predicate Stays(blobs: map<Path, Bytes>, listing: seq<Path>, r: Refs, hash: Bytes -> Sha, q: Path)
    requires q in blobs
  {
    if Addressed(q) then !Orphan(listing, r, q) else Promotable(listing, r, q) && hash(blobs[q]) == RefOf(r, q)
  }

  /** Some blob holds bytes with this hash. */
  predicate HasContent(blobs: map<Path, Bytes>, hash: Bytes -> Sha, sha: Sha) {
    exists q :: q in blobs && hash(blobs[q]) == sha
  }

  /** Over a complete listing no hash-addressed blob is overwritten. */
  lemma AddressedUnchanged(blobs: map<Path, Bytes>, listing: seq<Path>, r: Refs, net: Net, hash: Bytes -> Sha, q: Path)
    requires (forall b :: IsHexSha(hash(b))) && q in listing && q in blobs && Addressed(q)
    ensures var b := PromoteAll(blobs, r, Promotions(listing, listing, r), net, hash); q in b && b[q] == blobs[q]
  {
    var ps := Promotions(listing, listing, r);
    PromotionsArePreCas(listing, listing, r);
    NotAmong(ps, q);
    hide PromoteAll, Promotions, KindOf, CanonicalPath, IsHexSha, RefOf, KeepPath;
    PromoteKeeps(blobs, r, ps, net, hash, q);
    var b := PromoteAll(blobs, r, ps, net, hash);
    if b[q] != blobs[q] {
      var q' :| q' in ps && q == CanonicalPath(q', RefOf(r, q')) && hash(b[q]) == RefOf(r, q');
      KeepsTarget(r, q');
      assert false;
    }
  }

  lemma StayingSurvives(blobs: map<Path, Bytes>, listing: seq<Path>, r: Refs, net: Net, hash: Bytes -> Sha, q: Path)
    requires Calm(net) && (forall b :: IsHexSha(hash(b))) && (forall p :: p in listing <==> p in blobs)
    requires q in blobs && Stays(blobs, listing, r, hash, q)
    ensures HasContent(Collect(blobs, listing, r, net, hash), hash, hash(blobs[q]))
  {
    var ps, os := Promotions(listing, listing, r), Orphans(listing, listing, r);
    PromotionsArePreCas(listing, listing, r);
    hide PromoteAll, RemoveAll, Orphans, Promotions, KindOf, CanonicalPath, IsHexSha, RefOf, KeepPath, Referenced,
         Promotable, Calm;
    var b := PromoteAll(blobs, r, ps, net, hash);
    if Addressed(q) {
      AddressedUnchanged(blobs, listing, r, net, hash, q);
      RemoveOnly(b, os, net, q);
      assert q in RemoveAll(b, os, net);
    } else {
      var target := CanonicalPath(q, RefOf(r, q));
      PromoteMatching(blobs, r, ps, net, hash, q);
      PromoteKeys(blobs, r, ps, net, hash, q);
      KeepsTarget(r, q);
      RemoveOnly(b, os, net, target);
      assert target in RemoveAll(b, os, net);
    }
  }

  lemma SurvivingStays(blobs: map<Path, Bytes>, listing: seq<Path>, r: Refs, net: Net, hash: Bytes -> Sha, x: Path)
    requires Calm(net) && (forall b :: IsHexSha(hash(b))) && (forall p :: p in listing <==> p in blobs)
    requires x in Collect(blobs, listing, r, net, hash)
    ensures exists q ::
              q in blobs && hash(blobs[q]) == hash(Collect(blobs, listing, r, net, hash)[x])
              && Stays(blobs, listing, r, hash, q)
  {
    var ps, os := Promotions(listing, listing, r), Orphans(listing, listing, r);
    PromotionsArePreCas(listing, listing, r);
    hide PromoteAll, RemoveAll, Orphans, Promotions, KindOf, CanonicalPath, IsHexSha, RefOf, KeepPath, Referenced,
         Promotable, Calm, Existing;
    var b := PromoteAll(blobs, r, ps, net, hash);
    RemoveOnly(b, os, net, x);
    if x in os {
      RemoveAllGone(b, os, net, x);
    }
    PromoteKeys(blobs, r, ps, net, hash, x);
    PromoteOrigin(blobs, r, ps, net, hash, x);
    if x in blobs && b[x] == blobs[x] {
      assert Stays(blobs, listing, r, hash, x);
    } else {
      var q :| q in ps && q in blobs && b[x] == blobs[q] && hash(blobs[q]) == RefOf(r, q);
      InPromotions(ps, q);
      assert Stays(blobs, listing, r, hash, q);
    }
  }

  lemma InPromotions(ps: seq<Path>, q: Path)
    requires AllPreCas(ps) && q in ps
    ensures !Addressed(q)
  {
  }

  /** An undisturbed collection over a complete listing keeps a content exactly if some blob with it stays. */
  lemma ContentKeptIff(blobs: map<Path, Bytes>, listing: seq<Path>, r: Refs, net: Net, hash: Bytes -> Sha, sha: Sha)
    requires Calm(net) && (forall b :: IsHexSha(hash(b))) && (forall p :: p in listing <==> p in blobs)
    ensures HasContent(Collect(blobs, listing, r, net, hash), hash, sha) <==>
            exists q :: q in blobs && hash(blobs[q]) == sha && Stays(blobs, listing, r, hash, q)
  {
    hide Collect, Stays, Calm, IsHexSha;
    var after := Collect(blobs, listing, r, net, hash);
    if HasContent(after, hash, sha) {
      var x :| x in after && hash(after[x]) == sha;
      SurvivingStays(blobs, listing, r, net, hash, x);
    }
    if q :| q in blobs && hash(blobs[q]) == sha && Stays(blobs, listing, r, hash, q) {
      StayingSurvives(blobs, listing, r, net, hash, q);
    }
  }

  /** The bytes of a copy the cloud state stands for survive such a collection exactly if the manifest does not overrule
      the cloud state for its name, or another blob with the same hash stays. */
  lemma CloudCopyKeptIff(blobs: map<Path, Bytes>, listing: seq<Path>, r: Refs, net: Net, hash: Bytes -> Sha, p: Path)
    requires Calm(net) && (forall b :: IsHexSha(hash(b))) && Sound(blobs, hash)
             && (forall q :: q in listing <==> q in blobs)
    requires p in blobs && !Addressed(p) && p in r.cloud && hash(blobs[p]) == r.cloud[p]
    ensures HasContent(Collect(blobs, listing, r, net, hash), hash, r.cloud[p]) <==>
            RefOf(r, p) == r.cloud[p]
            || exists q :: q in blobs && q != p && hash(blobs[q]) == r.cloud[p] && Stays(blobs, listing, r, hash, q)
  {
    var sha := r.cloud[p];
    ContentKeptIff(blobs, listing, r, net, hash, sha);
    if RefOf(r, p) == sha {
      NotEmpty(sha);
      KeepsTarget(r, p);
      var target := CanonicalPath(p, sha);
      hide KindOf, CanonicalPath, IsHexSha, RefOf, KeepPath, Referenced, Collect, HasContent, Calm;
      if Promotable(listing, r, p) {
        assert Stays(blobs, listing, r, hash, p);
      } else {
        assert Existing(listing, r, target);
        assert Stays(blobs, listing, r, hash, target);
      }
    } else {
      assert !Stays(blobs, listing, r, hash, p);
    }
    hide Collect, HasContent, Stays, Calm, IsHexSha;
  }
}
