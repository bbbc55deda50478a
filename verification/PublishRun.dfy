/** What a whole run of S3 publication guarantees when no other process touches the store meanwhile. */
module PublishRun {
  import opened Errors
  import opened Strings
  import opened Keys
  import opened Objects
  import opened Publisher

  /** The state after `n` calls, the i-th answered by `plan(t0 + i)`. A crash is a run that stops at some `n`. */
  function Run(p: Pub, b: Bucket, plan: nat -> Call, t0: nat, n: nat, hash: Bytes -> string): (r: (Pub, Bucket))
    requires OwnKeys(p)
    ensures OwnKeys(r.0) && r.0.art == p.art
  {
    if n == 0 then (p, b)
    else
      var (q, c) := Run(p, b, plan, t0, n - 1, hash);
      OwnKeysStep(q, c, plan(t0 + n - 1), hash);
      StepFrame(q, c, plan(t0 + n - 1), hash);
      Step(q, c, plan(t0 + n - 1), hash)
  }

  lemma RunStep(p: Pub, b: Bucket, plan: nat -> Call, t0: nat, n: nat, hash: Bytes -> string)
    requires OwnKeys(p)
    ensures var (q, c) := Run(p, b, plan, t0, n, hash);
      Run(p, b, plan, t0, n + 1, hash) == Step(q, c, plan(t0 + n), hash)
  {
    hide Step, OwnKeys;
  }

  lemma RunOn(p: Pub, b: Bucket, plan: nat -> Call, t0: nat, n: nat, hash: Bytes -> string, q: Pub, c: Bucket)
    requires OwnKeys(p) && Run(p, b, plan, t0, n, hash) == (q, c)
    ensures OwnKeys(q) && OwnKeys(Step(q, c, plan(t0 + n), hash).0)
    ensures Run(p, b, plan, t0, n + 1, hash) == Step(q, c, plan(t0 + n), hash)
  {
    hide Step, OwnKeys;
    OwnKeysStep(q, c, plan(t0 + n), hash);
  }

  // ---- exact contents at every point ------------------------------------------------------------------------------

  ghost predicate Holds(b: Bucket, d: string, keys: set<string>) {
    forall k | Inside(k, d) :: k in b <==> k in keys
  }

  predicate ReportsResidue(notes: seq<Note>) { exists i | 0 <= i < |notes| :: notes[i].Residue? }

  ghost predicate OnlyKeepNotes(p: Pub) {
    (forall x | x in p.notes :: x.ReadbackKept?) && (forall x | x in p.errors :: x.NotRemoved?)
  }

  /** The exact contents of the directory at each point of an undisturbed run. */
  ghost predicate Exact(p: Pub, b: Bucket, hash: Bytes -> string) {
    var d := p.art.name;
    var payload, checksum, metadata := PayloadKey(d), ChecksumKey(d), MetadataKey(d);
    match p.pc
    case CheckEmpty => p.notes == [] && p.errors == []
    case PutPayload => Holds(b, d, {}) && p.notes == [] && p.errors == []
    case PutChecksum => Holds(b, d, {payload}) && p.notes == [] && p.errors == []
    case OpenReadback => Holds(b, d, {payload, checksum}) && p.notes == [] && p.errors == []
    case Download => Holds(b, d, {payload, checksum}) && p.notes == [] && p.errors == []
    case DropReadback => Holds(b, d, {payload, checksum}) && p.notes == [] && p.errors == []
    case PutMetadata => Holds(b, d, {payload, checksum}) && p.notes == [] && p.errors == []
    case Finished(Published(name, sha, size, unixtime)) =>
      Holds(b, d, {payload, checksum, metadata}) && name == d && b[metadata].body == p.art.metadata
      && Manifest(size, sha, unixtime) == p.manifest && Matches(b[payload].body, size, sha, hash)
    case Finished(Refused(_)) => true
    case Finished(Failed(code, notes)) =>
      code == p.code && (Unverified in notes || (ReportsResidue(notes) <==> !EmptyDir(b, d)))
    case _ => OnlyKeepNotes(p)
  }

  lemma ExactStart(p: Pub, b: Bucket, c: Call, hash: Bytes -> string)
    requires Exact(p, b, hash) && p.pc.CheckEmpty?
    ensures Exact(Forward(p, b, c, hash).0, b, hash)
  {
    assert forall k | Inside(k, p.art.name) && k in b :: k in Listing(b, Prefix(p));
    hide Inside, Listing, PayloadKey, ChecksumKey, MetadataKey, Matches, ParseManifest;
  }

  lemma ExactUpload(p: Pub, b: Bucket, c: Call, hash: Bytes -> string)
    requires Exact(p, b, hash) && (p.pc.PutPayload? || p.pc.PutChecksum? || p.pc.OpenReadback?)
    ensures Exact(Forward(p, b, c, hash).0, Forward(p, b, c, hash).1, hash)
  {
    ThreeKeys(p.art.name);
    hide PayloadKey, ChecksumKey, MetadataKey, Matches, Reverse, Inside;
  }

  lemma ExactCommit(p: Pub, b: Bucket, c: Call, hash: Bytes -> string)
    requires Safe(p, b, hash) && Exact(p, b, hash) && (p.pc.Download? || p.pc.DropReadback? || p.pc.PutMetadata?)
    ensures Exact(Forward(p, b, c, hash).0, Forward(p, b, c, hash).1, hash)
  {
    ThreeKeys(p.art.name);
    hide PayloadKey, ChecksumKey, MetadataKey, Matches, Reverse, OwnKeys, Inside;
  }

  lemma EmptyListing(b: Bucket, d: string)
    ensures Listing(b, d + "/") == [] <==> EmptyDir(b, d)
  {
    var l := Listing(b, d + "/");
    if l != [] { assert l[0] in l; }
    assert forall k | Inside(k, d) && k in b :: k in l;
  }

  lemma LastNote(notes: seq<Note>, last: Note)
    ensures last in notes + [last]
    ensures last.Residue? ==> ReportsResidue(notes + [last])
  {
    assert (notes + [last])[|notes|] == last;
  }

  lemma ExactVerify(p: Pub, b: Bucket, c: Call, hash: Bytes -> string)
    requires Exact(p, b, hash) && p.pc.Verify?
    ensures Exact(Backward(p, b, c).0, b, hash)
  {
    EmptyListing(b, p.art.name);
    hide Listing, EmptyDir, Inside, PayloadKey, ChecksumKey, MetadataKey, Matches, Holds;
    var q := Backward(p, b, c).0;
    if !c.Returns() {
      LastNote(p.notes + p.errors, Unverified);
      assert q.notes == p.notes + p.errors + [Unverified];
    } else if Listing(b, Prefix(p)) != [] {
      LastNote(p.notes + p.errors, Residue(Listing(b, Prefix(p))));
      assert q.notes == p.notes + p.errors + [Residue(Listing(b, Prefix(p)))];
    } else {
      assert q.notes == p.notes;
      assert forall i | 0 <= i < |q.notes| :: q.notes[i] in p.notes;
    }
  }

  lemma ExactBackward(p: Pub, b: Bucket, c: Call, hash: Bytes -> string)
    requires WellFormed(p) && Exact(p, b, hash) && CleaningUp(p.pc)
    ensures Exact(Backward(p, b, c).0, Backward(p, b, c).1, hash)
  {
    hide Listing, EmptyDir, Inside, PayloadKey, ChecksumKey, MetadataKey, Matches, Holds, Reverse, ReportsResidue;
    if p.pc.Verify? {
      ExactVerify(p, b, c, hash);
    } else if p.pc.Relist? && !c.Returns() {
      LastNote(p.notes + p.errors, Unverified);
      assert Backward(p, b, c).0.notes == p.notes + p.errors + [Unverified];
    }
  }

  lemma ExactStep(p: Pub, b: Bucket, c: Call, hash: Bytes -> string)
    requires Safe(p, b, hash) && Exact(p, b, hash)
    ensures Exact(Step(p, b, c, hash).0, Step(p, b, c, hash).1, hash)
  {
    if CleaningUp(p.pc) {
      ExactBackward(p, b, c, hash);
    } else if p.pc.CheckEmpty? {
      ExactStart(p, b, c, hash);
    } else if p.pc.Download? || p.pc.DropReadback? || p.pc.PutMetadata? {
      ExactCommit(p, b, c, hash);
    } else if !p.pc.Finished? {
      ExactUpload(p, b, c, hash);
    }
    hide Exact, Forward, Backward;
  }

  // ---- whole runs -------------------------------------------------------------------------------------------------

  lemma {:induction false} RunKeeps(art: Artifact, b0: Bucket, plan: nat -> Call, t0: nat, n: nat, hash: Bytes -> string)
    requires NoSlash(art.name)
    ensures var (p, b) := Run(Start(art), b0, plan, t0, n, hash);
      Safe(p, b, hash) && Exact(p, b, hash) && SameOutside(b0, b, art.name) && (Untouched(p.pc) ==> b == b0)
  {
    if n == 0 {
    } else {
      RunKeeps(art, b0, plan, t0, n - 1, hash);
      var (p, b) := Run(Start(art), b0, plan, t0, n - 1, hash);
      var c := plan(t0 + n - 1);
      SafeStep(p, b, c, hash);
      ExactStep(p, b, c, hash);
      StepFrame(p, b, c, hash);
      UntouchedBefore(p, b, c, hash);
      hide Safe, Exact, Step, Inside;
    }
  }

  lemma UntouchedBefore(p: Pub, b: Bucket, c: Call, hash: Bytes -> string)
    requires WellFormed(p)
    ensures Untouched(Step(p, b, c, hash).0.pc) ==> Untouched(p.pc)
  {
    hide Listing, Reverse, Matches, ParseManifest, PayloadKey, ChecksumKey, MetadataKey, Prefix;
  }

  // ---- the first call ---------------------------------------------------------------------------------------------

  /** Nothing lies under the name. */
  ghost predicate Free(b: Bucket, name: string) {
    forall k | k in b :: !(name + "/" <= k)
  }

  lemma FreeIsEmpty(b: Bucket, d: string)
    ensures Free(b, d) <==> EmptyDir(b, d)
  {
  }

  /** What the first call leads to. */
  lemma FirstCall(art: Artifact, b: Bucket, c: Call, hash: Bytes -> string)
    ensures var q := Step(Start(art), b, c, hash).0;
      Step(Start(art), b, c, hash).1 == b && q.art == art
      && if !c.Returns() || !Free(b, art.name) then q.pc == Finished(Refused(E_STORAGE))
         else if q.pc.Finished?
         then q.pc == Finished(Refused(E_INTEGRITY))
              && forall size, sha, unixtime :: !Described(art.metadata, size, sha, unixtime, c.now)
         else q.pc == PutPayload && Described(art.metadata, q.manifest.size, q.manifest.sha, q.manifest.unixtime, c.now)
  {
    EmptyListing(b, art.name);
    FreeIsEmpty(b, art.name);
    ManifestMeans(art.metadata, c.now);
    hide Listing, Free, EmptyDir, ParseManifest, Described, PayloadKey, ChecksumKey, MetadataKey, Matches, Inside;
  }

  lemma ManifestStep(p: Pub, b: Bucket, c: Call, hash: Bytes -> string)
    requires WellFormed(p)
    ensures p.pc.Finished? ==> Step(p, b, c, hash) == (p, b)
    ensures !Untouched(p.pc) ==> Step(p, b, c, hash).0.manifest == p.manifest
  {
    hide Listing, Reverse, Matches, ParseManifest, PayloadKey, ChecksumKey, MetadataKey, Prefix;
  }

  /** It refuses at once or not at all, and what it has read out of the metadata stays. */
  lemma {:induction false} FirstCallDecides(art: Artifact, b0: Bucket, plan: nat -> Call, t0: nat, n: nat,
                                            hash: Bytes -> string)
    requires NoSlash(art.name) && n > 0
    ensures var (p, b) := Run(Start(art), b0, plan, t0, n, hash); var first := Step(Start(art), b0, plan(t0), hash);
      if first.0.pc.Finished? then (p, b) == first else !Untouched(p.pc) && p.manifest == first.0.manifest
  {
    RunStep(Start(art), b0, plan, t0, n - 1, hash);
    if n == 1 {
      RunNone(Start(art), b0, plan, t0, hash);
      FirstCall(art, b0, plan(t0), hash);
    } else {
      FirstCallDecides(art, b0, plan, t0, n - 1, hash);
      UntouchedSame(art, b0, plan, t0, n - 1, hash);
      var (q, c) := Run(Start(art), b0, plan, t0, n - 1, hash);
      hide *;
      UntouchedBefore(q, c, plan(t0 + n - 1), hash);
      ManifestStep(q, c, plan(t0 + n - 1), hash);
    }
  }

  // ---- what is promised at the end --------------------------------------------------------------------------------

  /** The backup, object by object: the payload has the size and the digest, the metadata is the artifact's own and says
      the same, and there is nothing else. */
  ghost predicate Delivered(b: Bucket, art: Artifact, sha: string, size: int, hash: Bytes -> string) {
    var payload, checksum, metadata := art.name + "/backup.tar.enc", art.name + "/backup.sha256", art.name + "/metadata.json";
    (forall k | art.name + "/" <= k :: k in b <==> k in {payload, checksum, metadata})
    && payload in b && checksum in b && metadata in b
    && b[payload].body.Blob? && |b[payload].body.data| == size && hash(b[payload].body.data) == sha
    && b[metadata].body == art.metadata && art.metadata.Json?
    && art.metadata.meta.size == Some(size) && art.metadata.meta.sha == Some(sha)
  }

  lemma IsDelivered(b: Bucket, art: Artifact, sha: string, size: int, hash: Bytes -> string)
    requires Holds(b, art.name, {PayloadKey(art.name), ChecksumKey(art.name), MetadataKey(art.name)})
    requires b[MetadataKey(art.name)].body == art.metadata && Matches(b[PayloadKey(art.name)].body, size, sha, hash)
    requires art.metadata.Json? && art.metadata.meta.size == Some(size) && art.metadata.meta.sha == Some(sha)
    ensures Delivered(b, art, sha, size, hash)
  {
    PlainKeys(art.name);
    assert forall k :: Inside(k, art.name) <==> art.name + "/" <= k;
    ThreeKeys(art.name);
    hide Inside, PayloadKey, ChecksumKey, MetadataKey;
  }

  lemma DeliveredHolds(b: Bucket, art: Artifact, sha: string, size: int, hash: Bytes -> string)
    requires Delivered(b, art, sha, size, hash)
    ensures Complete(b, art.name)
    ensures b[MetadataKey(art.name)].body == art.metadata && Verified(b[PayloadKey(art.name)].body, art.metadata, hash)
  {
    PlainKeys(art.name);
    hide PayloadKey, ChecksumKey, MetadataKey;
  }

  /** How publication may end: it refuses exactly when it cannot list, something is there or the local metadata says
      nothing, and then leaves the store alone; a success has left exactly the three objects, the payload of the size and
      the digest that it returns; a failure either leaves the directory empty or says that it does not or could not
      look. Nothing outside the directory changes. */
  ghost predicate Ends(art: Artifact, b0: Bucket, b: Bucket, r: PublishResult, first: Call, hash: Bytes -> string) {
    (forall k | !(art.name + "/" <= k) :: (k in b <==> k in b0) && (k in b ==> b[k] == b0[k]))
    && (r == Refused(E_STORAGE) <==> !first.Returns() || !Free(b0, art.name))
    && match r
       case Refused(code) =>
         b == b0 && (code == E_STORAGE || code == E_INTEGRITY)
         && (code == E_INTEGRITY ==> forall size, sha, time :: !Described(art.metadata, size, sha, time, first.now))
       case Published(name, sha, size, unixtime) =>
         name == art.name && Delivered(b, art, sha, size, hash)
         && Described(art.metadata, size, sha, unixtime, first.now)
       case Failed(_, notes) => Unverified in notes || (ReportsResidue(notes) <==> !Free(b, art.name))
  }

  /** Publication under any fault schedule, at its end. */
  lemma PublishOutcome(art: Artifact, b0: Bucket, plan: nat -> Call, t0: nat, n: nat, hash: Bytes -> string)
    requires NoSlash(art.name)
    requires Run(Start(art), b0, plan, t0, n, hash).0.pc.Finished?
    ensures var (p, b) := Run(Start(art), b0, plan, t0, n, hash); Ends(art, b0, b, p.pc.result, plan(t0), hash)
  {
    var (p, b) := Run(Start(art), b0, plan, t0, n, hash);
    RunKeeps(art, b0, plan, t0, n, hash);
    assert p.art == art;
    assert n > 0 by { if n == 0 { RunNone(Start(art), b0, plan, t0, hash); } }
    hide Run, Step, Free, Described, Delivered, ReportsResidue, Safe, Exact, OwnKeys, SameOutside, Call.Returns;
    FirstCallDecides(art, b0, plan, t0, n, hash);
    FirstCall(art, b0, plan(t0), hash);
    EndMeans(p, b, hash);
    OutsideMeans(b0, b, art.name);
  }

  lemma OutsideMeans(b: Bucket, b': Bucket, d: string)
    requires SameOutside(b, b', d)
    ensures forall k | !(d + "/" <= k) :: (k in b <==> k in b') && (k in b ==> b[k] == b'[k])
  {
    forall k | !(d + "/" <= k) ensures (k in b <==> k in b') && (k in b ==> b[k] == b'[k]) { assert SameAt(b, b', k); }
  }

  /** The invariants at the end of a run. */
  lemma EndMeans(p: Pub, b: Bucket, hash: Bytes -> string)
    requires Safe(p, b, hash) && Exact(p, b, hash) && p.pc.Finished?
    ensures match p.pc.result
      case Refused(_) => true
      case Published(name, sha, size, unixtime) =>
        name == p.art.name && Delivered(b, p.art, sha, size, hash) && p.manifest == Manifest(size, sha, unixtime)
      case Failed(_, notes) => Unverified in notes || (ReportsResidue(notes) <==> !Free(b, p.art.name))
  {
    FreeIsEmpty(b, p.art.name);
    ThreeKeys(p.art.name);
    hide Inside, PayloadKey, ChecksumKey, MetadataKey, OwnKeys, Matches, EmptyDir, Free, Delivered, ReportsResidue;
    if p.pc.result.Published? { IsDelivered(b, p.art, p.pc.result.sha, p.pc.result.size, hash); }
  }

  /** The first call lets a publication begin only on an empty directory. */
  lemma BeginsOnEmpty(p: Pub, b: Bucket, c: Call, hash: Bytes -> string)
    requires WellFormed(p) && Untouched(p.pc) && !Untouched(Step(p, b, c, hash).0.pc)
    ensures EmptyDir(b, p.art.name)
  {
    EmptyListing(b, p.art.name);
    hide Listing, EmptyDir, ParseManifest;
  }

  lemma UntouchedSame(art: Artifact, b0: Bucket, plan: nat -> Call, t0: nat, n: nat, hash: Bytes -> string)
    requires NoSlash(art.name)
    ensures var (p, b) := Run(Start(art), b0, plan, t0, n, hash);
      WellFormed(p) && p.art == art && (Untouched(p.pc) ==> b == b0)
  {
    RunKeeps(art, b0, plan, t0, n, hash);
    hide Run, Safe, Exact;
  }

  lemma {:induction false} BegunOnEmpty(art: Artifact, b0: Bucket, plan: nat -> Call, t0: nat, n: nat, hash: Bytes -> string)
    requires NoSlash(art.name)
    ensures !Untouched(Run(Start(art), b0, plan, t0, n, hash).0.pc) ==> EmptyDir(b0, art.name)
  {
    hide Step, Safe, Exact, EmptyDir, Inside;
    if n > 0 {
      BegunOnEmpty(art, b0, plan, t0, n - 1, hash);
      UntouchedSame(art, b0, plan, t0, n - 1, hash);
      RunStep(Start(art), b0, plan, t0, n - 1, hash);
      var (p, b) := Run(Start(art), b0, plan, t0, n - 1, hash);
      hide Run, Untouched;
      if Untouched(p.pc) && !Untouched(Step(p, b, plan(t0 + n - 1), hash).0.pc) {
        BeginsOnEmpty(p, b, plan(t0 + n - 1), hash);
      }
    }
  }

  /** At every point of a run, hence after a crash at any point, the catalogue of any cluster is the old one or the old
      one with one verified entry more. */
  lemma AtomicPublish(art: Artifact, b0: Bucket, plan: nat -> Call, t0: nat, n: nat, hash: Bytes -> string,
                      cluster: string)
    requires NoSlash(art.name)
    ensures var b := Run(Start(art), b0, plan, t0, n, hash).1;
      CatalogueOf(b, cluster) == CatalogueOf(b0, cluster)
      || AddsVerified(CatalogueOf(b0, cluster), CatalogueOf(b, cluster), art.name, art.metadata, hash)
  {
    hide Run, Exact, CatalogueOf;
    RunKeeps(art, b0, plan, t0, n, hash);
    var (p, b) := Run(Start(art), b0, plan, t0, n, hash);
    if !Untouched(p.pc) {
      BegunOnEmpty(art, b0, plan, t0, n, hash);
      CatalogueFrame(b0, b, cluster, art.name);
      NotYetListed(b0, cluster, art.name);
      if IsEntry(b, cluster, art.name) { SafeEntry(p, b, hash); }
    }
  }

  /** Publication of a backup of any cluster never touches the owner marker or a drill marker. */
  lemma PublishKeepsMarkers(art: Artifact, b0: Bucket, plan: nat -> Call, t0: nat, n: nat, hash: Bytes -> string,
                            cluster: string, other: string)
    requires NoSlash(art.name) && ClusterPrefix(cluster) <= art.name
    ensures var b := Run(Start(art), b0, plan, t0, n, hash).1;
      SameAt(b0, b, OWNER_KEY) && SameAt(b0, b, DrillKey(other))
  {
    RunKeeps(art, b0, plan, t0, n, hash);
    MarkersOutside(cluster, art.name, other);
    hide Run, Exact, Safe, Inside;
  }

  lemma NotYetListed(b: Bucket, cluster: string, d: string)
    requires EmptyDir(b, d)
    ensures CatalogueOf(b, cluster) - {d} == CatalogueOf(b, cluster)
  {
    CatalogueDomain(b, cluster);
    ThreeKeys(d);
  }

  lemma SafeEntry(p: Pub, b: Bucket, hash: Bytes -> string)
    requires Safe(p, b, hash) && Complete(b, p.art.name) && !Untouched(p.pc)
    ensures b[MetadataKey(p.art.name)].body == p.art.metadata
    ensures Verified(b[PayloadKey(p.art.name)].body, p.art.metadata, hash)
  {
  }

  /** When publication returns normally, the catalogue of the artifact's own cluster has gained exactly that entry. */
  lemma PublishedIsListed(art: Artifact, b0: Bucket, plan: nat -> Call, t0: nat, n: nat, hash: Bytes -> string,
                          cluster: string)
    requires NoSlash(art.name) && ClusterPrefix(cluster) <= art.name
    requires art.metadata.Json? && BelongsTo(art.metadata.meta, cluster) && Unixtime(art.metadata.meta).Some?
    requires Run(Start(art), b0, plan, t0, n, hash).0.pc.Finished?
    requires Run(Start(art), b0, plan, t0, n, hash).0.pc.result.Published?
    ensures var b := Run(Start(art), b0, plan, t0, n, hash).1;
      AddsVerified(CatalogueOf(b0, cluster), CatalogueOf(b, cluster), art.name, art.metadata, hash)
  {
    PublishOutcome(art, b0, plan, t0, n, hash);
    RunKeeps(art, b0, plan, t0, n, hash);
    var (p, b) := Run(Start(art), b0, plan, t0, n, hash);
    hide Run, Exact, Safe, CatalogueOf, Described, Free, Delivered;
    DeliveredHolds(b, art, p.pc.result.sha, p.pc.result.size, hash);
    BegunOnEmpty(art, b0, plan, t0, n, hash);
    NotYetListed(b0, cluster, art.name);
    CatalogueFrame(b0, b, cluster, art.name);
    assert IsEntry(b, cluster, art.name);
    var e := EntryOf(b, art.name);
    assert e.meta == art.metadata.meta;
  }

  // ---- the primary error ------------------------------------------------------------------------------------------

  /** The error that a failing call raises at each point of the `try` block. */
  function PrimaryCode(pc: Pc): Code
    requires Writing(pc)
  {
    if pc.OpenReadback? || pc.Download? then E_INTEGRITY else E_STORAGE
  }

  /** On the way out with this code, or out with it. */
  predicate Raising(p: Pub, code: Code) {
    (CleaningUp(p.pc) && p.code == code) || (p.pc.Finished? && p.pc.result.Failed? && p.pc.result.code == code)
  }

  lemma RaisingStep(p: Pub, b: Bucket, c: Call, hash: Bytes -> string, code: Code)
    requires WellFormed(p)
    ensures Raising(p, code) ==> Raising(Step(p, b, c, hash).0, code)
    ensures Writing(p.pc) && CleaningUp(Step(p, b, c, hash).0.pc) ==> Raising(Step(p, b, c, hash).0, PrimaryCode(p.pc))
  {
    hide Listing, Reverse, Matches, ParseManifest, PayloadKey, ChecksumKey, MetadataKey, Prefix;
  }

  /** Whatever goes wrong during the clean-up, the error finally raised has the code of the first failure. */
  lemma {:induction false} PrimaryCodeKept(p: Pub, b: Bucket, plan: nat -> Call, t0: nat, i: nat, n: nat,
                                           hash: Bytes -> string)
    requires OwnKeys(p) && i < n
    requires Writing(Run(p, b, plan, t0, i, hash).0.pc) && CleaningUp(Run(p, b, plan, t0, i + 1, hash).0.pc)
    ensures Raising(Run(p, b, plan, t0, n, hash).0, PrimaryCode(Run(p, b, plan, t0, i, hash).0.pc))
    decreases n
  {
    hide Run, Inside, Writing, CleaningUp, Raising, PrimaryCode, Step;
    var code := PrimaryCode(Run(p, b, plan, t0, i, hash).0.pc);
    var (q, c) := Run(p, b, plan, t0, n - 1, hash);
    RunStep(p, b, plan, t0, n - 1, hash);
    RaisingStep(q, c, plan(t0 + n - 1), hash, code);
    if n > i + 1 {
      PrimaryCodeKept(p, b, plan, t0, i, n - 1, hash);
    }
  }

  // ---- runs in which the calls work -------------------------------------------------------------------------------

  predicate Work(plan: nat -> Call, t0: nat, n: nat) {
    forall i | t0 <= i < t0 + n :: plan(i).outcome.Works?
  }

  lemma {:induction false} RunAdd(p: Pub, b: Bucket, plan: nat -> Call, t0: nat, m: nat, n: nat, hash: Bytes -> string)
    requires OwnKeys(p)
    ensures var (q, c) := Run(p, b, plan, t0, m, hash);
      Run(p, b, plan, t0, m + n, hash) == Run(q, c, plan, t0 + m, n, hash)
  {
    hide OwnKeys, Step;
    if n > 0 {
      RunAdd(p, b, plan, t0, m, n - 1, hash);
      var (q, c) := Run(p, b, plan, t0, m, hash);
      RunStep(p, b, plan, t0, m + n - 1, hash);
      RunStep(q, c, plan, t0 + m, n - 1, hash);
    } else {
      assert m + n == m;
    }
  }

  /** The successful path, call by call. */
  lemma ReturningCall(p: Pub, b: Bucket, c: Call, m: Manifest, hash: Bytes -> string)
    requires WellFormed(p) && c.Returns()
    ensures var (q, b') := Step(p, b, c, hash); var a := p.art; var k := PayloadKey(a.name);
      q.art == a
      && (p.pc.CheckEmpty? && EmptyDir(b, a.name) && ParseManifest(a.metadata, c.now) == Some(m)
          ==> q.pc == PutPayload && q.manifest == m && b' == b)
      && (p.pc.PutPayload? ==> q.pc == PutChecksum && q.manifest == p.manifest && b' == Put(b, k, Blob(a.payload), c))
      && (p.pc.PutChecksum?
          ==> q.pc == OpenReadback && q.manifest == p.manifest && b' == Put(b, ChecksumKey(a.name), Blob(a.checksum), c))
      && (p.pc.OpenReadback? ==> q.pc == Download && q.manifest == p.manifest && b' == b)
      && (p.pc.Download? && k in b && Matches(b[k].body, p.manifest.size, p.manifest.sha, hash)
          ==> q.pc == DropReadback && q.manifest == p.manifest && b' == b)
      && (p.pc.DropReadback? ==> q.pc == PutMetadata && q.manifest == p.manifest && b' == b)
      && (p.pc.PutMetadata?
          ==> q.pc == Finished(Published(a.name, p.manifest.sha, p.manifest.size, p.manifest.unixtime))
              && b' == Put(b, MetadataKey(a.name), a.metadata, c))
  {
    EmptyListing(b, p.art.name);
    hide Listing, EmptyDir, Inside, PayloadKey, ChecksumKey, MetadataKey, Matches, ParseManifest, Reverse, Put;
  }

  /** A readback that is not what the metadata says is an integrity error. */
  lemma WrongReadback(p: Pub, b: Bucket, c: Call, hash: Bytes -> string)
    requires WellFormed(p) && p.pc.Download?
    requires PayloadKey(p.art.name) in b
             ==> !Matches(b[PayloadKey(p.art.name)].body, p.manifest.size, p.manifest.sha, hash)
    ensures CleaningUp(Step(p, b, c, hash).0.pc) && PrimaryCode(p.pc) == E_INTEGRITY
  {
    hide Listing, Reverse, Matches, ParseManifest, PayloadKey, ChecksumKey, MetadataKey, Prefix;
  }

  /** The first step, and the run from there. */
  lemma {:induction false} RunCons(p: Pub, b: Bucket, plan: nat -> Call, t0: nat, n: nat, hash: Bytes -> string)
    requires OwnKeys(p) && n > 0
    ensures OwnKeys(Step(p, b, plan(t0), hash).0)
    ensures var (q, c) := Step(p, b, plan(t0), hash);
      Run(p, b, plan, t0, n, hash) == Run(q, c, plan, t0 + 1, n - 1, hash)
  {
    OwnKeysStep(p, b, plan(t0), hash);
    assert Run(p, b, plan, t0, 0, hash) == (p, b);
    RunStep(p, b, plan, t0, 0, hash);
    RunAdd(p, b, plan, t0, 1, n - 1, hash);
  }

  /** Once the listing, both uploads and the readback file have returned, the download is next. */
  lemma UploadsReturn(art: Artifact, b: Bucket, plan: nat -> Call, t0: nat, m: Manifest, hash: Bytes -> string)
    requires EmptyDir(b, art.name) && ParseManifest(art.metadata, plan(t0).now) == Some(m)
    requires forall i | t0 <= i < t0 + 4 :: plan(i).Returns()
    ensures var (q, c) := Run(Start(art), b, plan, t0, 4, hash);
      q.pc == Download && q.art == art && q.manifest == m
      && c == Put(Put(b, PayloadKey(art.name), Blob(art.payload), plan(t0 + 1)),
                  ChecksumKey(art.name), Blob(art.checksum), plan(t0 + 2))
  {
    var p := Start(art);
    RunNone(p, b, plan, t0, hash);
    var b1 := Put(b, PayloadKey(art.name), Blob(art.payload), plan(t0 + 1));
    var b2 := Put(b1, ChecksumKey(art.name), Blob(art.checksum), plan(t0 + 2));
    hide Run, Step, EmptyDir, Inside, PayloadKey, ChecksumKey, MetadataKey, Matches, ParseManifest, OwnKeys, Put;
    for i := 0 to 4
      invariant var (q, c) := Run(p, b, plan, t0, i, hash);
        q.art == art && (i > 0 ==> q.manifest == m) && c == (if i < 2 then b else if i < 3 then b1 else b2)
        && (match i case 0 => q == p case 1 => q.pc.PutPayload? case 2 => q.pc.PutChecksum? case 3 => q.pc.OpenReadback?
            case _ => q.pc.Download?)
    {
      var (q, c) := Run(p, b, plan, t0, i, hash);
      RunStep(p, b, plan, t0, i, hash);
      ReturningCall(q, c, plan(t0 + i), m, hash);
    }
  }

  /** What lies under the payload key after both uploads. */
  lemma StoredPayload(b: Bucket, art: Artifact, put: Call, next: Call)
    requires put.Returns()
    ensures var k := PayloadKey(art.name);
      var c := Put(Put(b, k, Blob(art.payload), put), ChecksumKey(art.name), Blob(art.checksum), next);
      k in c && c[k].body == Blob(if put.outcome.Garbles? then put.outcome.data else art.payload)
  {
    ThreeKeys(art.name);
    hide PayloadKey, ChecksumKey, MetadataKey, Inside;
  }

  /** The listing, both uploads and the readback file have returned, and what is stored as the payload is of another size
      or of another digest than the metadata says. */
  ghost predicate WronglyStored(art: Artifact, b: Bucket, plan: nat -> Call, t0: nat, hash: Bytes -> string) {
    Free(b, art.name) && (forall i | t0 <= i < t0 + 4 :: plan(i).Returns())
    && var stored := if plan(t0 + 1).outcome.Garbles? then plan(t0 + 1).outcome.data else art.payload;
      exists size, sha, unixtime :: Described(art.metadata, size, sha, unixtime, plan(t0).now)
                                    && (|stored| != size || hash(stored) != sha)
  }

  /** The readback decides: such a run ends in an integrity error, whatever the calls after that do. */
  lemma WrongReadbackFails(art: Artifact, b: Bucket, plan: nat -> Call, t0: nat, n: nat, hash: Bytes -> string)
    requires WronglyStored(art, b, plan, t0, hash)
    requires Run(Start(art), b, plan, t0, n, hash).0.pc.Finished?
    ensures var end := Run(Start(art), b, plan, t0, n, hash).0.pc.result; end.Failed? && end.code == E_INTEGRITY
  {
    var stored := if plan(t0 + 1).outcome.Garbles? then plan(t0 + 1).outcome.data else art.payload;
    var size, sha, unixtime :| Described(art.metadata, size, sha, unixtime, plan(t0).now)
                               && (|stored| != size || hash(stored) != sha);
    var p, m := Start(art), Manifest(size, sha, unixtime);
    FreeIsEmpty(b, art.name);
    ManifestMeans(art.metadata, plan(t0).now);
    if ParseManifest(art.metadata, plan(t0).now).Some? {
      DescribedOnce(art.metadata, ParseManifest(art.metadata, plan(t0).now).value, size, sha, unixtime, plan(t0).now);
    }
    UploadsReturn(art, b, plan, t0, m, hash);
    StoredPayload(b, art, plan(t0 + 1), plan(t0 + 2));
    var (q, c) := Run(p, b, plan, t0, 4, hash);
    assert PayloadKey(art.name) in c ==> !Matches(c[PayloadKey(art.name)].body, size, sha, hash);
    assert OwnKeys(p);
    hide Run, Step, Free, Matches;
    RefutedDownload(p, b, plan, t0, n, hash);
  }

  lemma RefutedDownload(p: Pub, b: Bucket, plan: nat -> Call, t0: nat, n: nat, hash: Bytes -> string)
    requires OwnKeys(p)
    requires var (q, c) := Run(p, b, plan, t0, 4, hash); var k := PayloadKey(q.art.name);
      q.pc.Download? && (k in c ==> !Matches(c[k].body, q.manifest.size, q.manifest.sha, hash))
    requires Run(p, b, plan, t0, n, hash).0.pc.Finished?
    ensures Raising(Run(p, b, plan, t0, n, hash).0, E_INTEGRITY)
  {
    var (q, c) := Run(p, b, plan, t0, 4, hash);
    WrongReadback(q, c, plan(t0 + 4), hash);
    RunStep(p, b, plan, t0, 4, hash);
    hide Run, Step, PayloadKey, Matches, OwnKeys, PrimaryCode;
    if n <= 4 {
      FinishedStays(p, b, plan, t0, n, 4, hash);
    } else {
      hide CleaningUp, Raising;
      PrimaryCodeKept(p, b, plan, t0, 4, n, hash);
    }
  }

  lemma {:induction false} FinishedStays(p: Pub, b: Bucket, plan: nat -> Call, t0: nat, n: nat, m: nat,
                                         hash: Bytes -> string)
    requires OwnKeys(p) && n <= m && Run(p, b, plan, t0, n, hash).0.pc.Finished?
    ensures Run(p, b, plan, t0, m, hash) == Run(p, b, plan, t0, n, hash)
    decreases m
  {
    if n < m {
      FinishedStays(p, b, plan, t0, n, m - 1, hash);
      RunStep(p, b, plan, t0, m - 1, hash);
      hide Run, OwnKeys;
    }
  }

  lemma ThreeObjects(b: Bucket, art: Artifact, p: Call, c: Call, m: Call)
    requires p.outcome.Works? && c.outcome.Works? && m.outcome.Works?
    ensures Put(Put(Put(b, PayloadKey(art.name), Blob(art.payload), p), ChecksumKey(art.name), Blob(art.checksum), c),
                MetadataKey(art.name), art.metadata, m)
            == b[art.name + "/backup.tar.enc" := Obj(Blob(art.payload), Some(p.now))]
                [art.name + "/backup.sha256" := Obj(Blob(art.checksum), Some(c.now))]
                [art.name + "/metadata.json" := Obj(art.metadata, Some(m.now))]
  {
    PlainKeys(art.name);
    hide PayloadKey, ChecksumKey, MetadataKey;
  }

  /** With seven calls that work and a payload that is what its metadata says, the backup is published: the store has
      gained the three files as they are. */
  lemma PublishSucceeds(art: Artifact, b: Bucket, plan: nat -> Call, t0: nat, size: int, sha: string, unixtime: int,
                        hash: Bytes -> string)
    requires Free(b, art.name) && Work(plan, t0, 7) && Described(art.metadata, size, sha, unixtime, plan(t0).now)
    requires |art.payload| == size && hash(art.payload) == sha
    ensures var (p, b') := Run(Start(art), b, plan, t0, 7, hash);
      p.pc == Finished(Published(art.name, sha, size, unixtime))
      && b' == b[art.name + "/backup.tar.enc" := Obj(Blob(art.payload), Some(plan(t0 + 1).now))]
                [art.name + "/backup.sha256" := Obj(Blob(art.checksum), Some(plan(t0 + 2).now))]
                [art.name + "/metadata.json" := Obj(art.metadata, Some(plan(t0 + 6).now))]
  {
    assert OwnKeys(Start(art));
    hide Run, Step, EmptyDir, Start, OwnKeys;
    FreeIsEmpty(b, art.name);
    ManifestMeans(art.metadata, plan(t0).now);
    DescribedOnce(art.metadata, ParseManifest(art.metadata, plan(t0).now).value, size, sha, unixtime, plan(t0).now);
    hide Free, Described, ParseManifest;
    UploadsReturn(art, b, plan, t0, Manifest(size, sha, unixtime), hash);
    StoredPayload(b, art, plan(t0 + 1), plan(t0 + 2));
    ThreeObjects(b, art, plan(t0 + 1), plan(t0 + 2), plan(t0 + 6));
    hide PayloadKey, ChecksumKey, MetadataKey, Put;
    CommitReturns(Start(art), b, plan, t0, hash);
  }

  /** From the download on: three working calls and the metadata is there. */
  lemma CommitReturns(p: Pub, b: Bucket, plan: nat -> Call, t0: nat, hash: Bytes -> string)
    requires OwnKeys(p) && forall i | t0 + 4 <= i < t0 + 7 :: plan(i).outcome.Works?
    requires var (q, c) := Run(p, b, plan, t0, 4, hash); var k := PayloadKey(q.art.name);
      q.pc == Download && k in c && Matches(c[k].body, q.manifest.size, q.manifest.sha, hash)
    ensures var (q, c) := Run(p, b, plan, t0, 4, hash); var m := q.manifest; var (r, d) := Run(p, b, plan, t0, 7, hash);
      r.pc == Finished(Published(q.art.name, m.sha, m.size, m.unixtime))
      && d == Put(c, MetadataKey(q.art.name), q.art.metadata, plan(t0 + 6))
  {
    hide Run, Step, PayloadKey, ChecksumKey, MetadataKey, Matches, OwnKeys, Put;
    var (q, c) := Run(p, b, plan, t0, 4, hash);
    RunStep(p, b, plan, t0, 4, hash);
    RunStep(p, b, plan, t0, 5, hash);
    RunStep(p, b, plan, t0, 6, hash);
    ReturningCall(q, c, plan(t0 + 4), q.manifest, hash);
    ReturningCall(Run(p, b, plan, t0, 5, hash).0, c, plan(t0 + 5), q.manifest, hash);
    ReturningCall(Run(p, b, plan, t0, 6, hash).0, c, plan(t0 + 6), q.manifest, hash);
  }

  lemma WorkingRemoval(p: Pub, b: Bucket, c: Call, hash: Bytes -> string)
    requires WellFormed(p) && (p.pc.Undo? || p.pc.Sweep?) && c.outcome.Works?
    ensures var (q, b') := Step(p, b, c, hash);
      q.code == p.code && q.notes == p.notes && q.art == p.art && b' == b - {p.pc.keys[0]}
      && q.pc == if p.pc.Undo? then UndoFrom(p.pc.keys[1..]) else SweepFrom(p.pc.keys[1..])
  {
  }

  /** The keys still to be removed are gone once each removal has worked. */
  lemma {:induction false} RemovalsWork(p: Pub, b: Bucket, plan: nat -> Call, t0: nat, n: nat, hash: Bytes -> string)
    requires OwnKeys(p) && (p.pc.Undo? || p.pc.Sweep?) && n == |p.pc.keys| && Work(plan, t0, n)
    ensures var (q, b') := Run(p, b, plan, t0, n, hash);
      q.code == p.code && q.notes == p.notes && q.art == p.art && b' == Without(b, p.pc.keys)
      && q.pc == if p.pc.Undo? then Relist else Verify
    decreases n
  {
    hide Run, Step, Inside;
    RunCons(p, b, plan, t0, n, hash);
    WorkingRemoval(p, b, plan(t0), hash);
    var (q, c) := Step(p, b, plan(t0), hash);
    if n > 1 {
      RemovalsWork(q, c, plan, t0 + 1, n - 1, hash);
    } else {
      RunNone(q, c, plan, t0 + 1, hash);
    }
  }

  lemma SweepEmpties(b: Bucket, d: string)
    ensures EmptyDir(Without(b, Listing(b, d + "/")), d)
  {
    WithoutKeys(b, Listing(b, d + "/"));
  }

  lemma WorkingCheck(p: Pub, b: Bucket, c: Call, hash: Bytes -> string)
    requires WellFormed(p) && c.outcome.Works?
    ensures var (q, b') := Step(p, b, c, hash);
      (p.pc.Relist? ==> q.pc == SweepFrom(Listing(b, Prefix(p))) && q.code == p.code && q.notes == p.notes && b' == b)
      && (p.pc.Verify? && EmptyDir(b, p.art.name) ==> q.pc == Finished(Failed(p.code, p.notes)) && b' == b)
  {
    EmptyListing(b, p.art.name);
    hide Listing, EmptyDir, Inside;
    assert p.notes + [] == p.notes;
  }

  /** A clean-up whose store calls work empties the directory and raises the primary error with nothing to add. */
  lemma CleanUpWorks(p: Pub, b: Bucket, plan: nat -> Call, t0: nat, n: nat, hash: Bytes -> string)
    requires OwnKeys(p) && p.pc.Relist? && n == |Listing(b, Prefix(p))| && Work(plan, t0, n + 2)
    ensures var (q, b') := Run(p, b, plan, t0, n + 2, hash);
      q.pc == Finished(Failed(p.code, p.notes)) && EmptyDir(b', p.art.name)
  {
    var l := Listing(b, Prefix(p));
    hide Run, Step, Listing, Inside, EmptyDir;
    SweepEmpties(b, p.art.name);
    WorkingCheck(p, b, plan(t0), hash);
    RunCons(p, b, plan, t0, n + 1, hash);
    RunStep(p, b, plan, t0, n + 1, hash);
    var (q, c) := Step(p, b, plan(t0), hash);
    if n > 0 {
      RemovalsWork(q, c, plan, t0 + 1, n, hash);
    } else {
      RunNone(q, c, plan, t0 + 1, hash);
    }
    var (r, d) := Run(p, b, plan, t0, n + 1, hash);
    WorkingCheck(r, d, plan(t0 + n + 1), hash);
  }

  lemma RunNone(p: Pub, b: Bucket, plan: nat -> Call, t0: nat, hash: Bytes -> string)
    requires OwnKeys(p)
    ensures Run(p, b, plan, t0, 0, hash) == (p, b)
  {
  }
}
