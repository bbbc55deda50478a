/** What the object store holds, and the catalogue of usable backups that a set of objects stands for. */
module Objects {
  import opened Errors
  import opened Strings
  import opened Keys

  type Bytes = seq<bv8>

  /** `created_unixtime` as JSON delivers it; `Other` is any value that is not an int, with what `int(...)` makes of it. */
  datatype Created = Absent | Int(n: int) | Other(converted: Option<int>)

  datatype Meta = Meta(cluster: string, format: int, created: Created, size: Option<int>, sha: Option<string>)

  datatype Body = Blob(data: Bytes) | Json(meta: Meta)

  /** `modified` is the store's `last_modified`. */
  datatype Obj = Obj(body: Body, modified: Option<int>)

  type Bucket = map<string, Obj>

  /** What publish reads out of the local metadata file. */
  datatype Manifest = Manifest(size: int, sha: string, unixtime: int)

  function ParseManifest(body: Body, now: int): Option<Manifest> {
    if !body.Json? || body.meta.size.None? || body.meta.sha.None? then None
    else
      match body.meta.created
      case Absent => Some(Manifest(body.meta.size.value, body.meta.sha.value, now))
      case Int(n) => Some(Manifest(body.meta.size.value, body.meta.sha.value, n))
      case Other(None) => None
      case Other(Some(n)) => Some(Manifest(body.meta.size.value, body.meta.sha.value, n))
  }

  /** The local metadata file names a size and a digest, and no creation time that is not a number. */
  ghost predicate Described(metadata: Body, size: int, sha: string, unixtime: int, now: int) {
    metadata.Json? && metadata.meta.size == Some(size) && metadata.meta.sha == Some(sha)
    && match metadata.meta.created
       case Absent => unixtime == now
       case Int(n) => unixtime == n
       case Other(converted) => converted == Some(unixtime)
  }

  lemma ManifestMeans(metadata: Body, now: int)
    ensures var m := ParseManifest(metadata, now);
      if m.Some? then Described(metadata, m.value.size, m.value.sha, m.value.unixtime, now)
      else forall size, sha, unixtime :: !Described(metadata, size, sha, unixtime, now)
  {
  }

  lemma DescribedOnce(metadata: Body, m: Manifest, size: int, sha: string, unixtime: int, now: int)
    requires Described(metadata, m.size, m.sha, m.unixtime, now) && Described(metadata, size, sha, unixtime, now)
    ensures m == Manifest(size, sha, unixtime)
  {
  }

  /** artifacts.py `metadata_unixtime`: a non-negative JSON integer or an error. */
  function Unixtime(m: Meta): Option<int> {
    if m.created.Int? && m.created.n >= 0 then Some(m.created.n) else None
  }

  predicate BelongsTo(m: Meta, cluster: string) {
    m.cluster == cluster && m.format in {1, 2, 3}
  }

  predicate Matches(body: Body, size: int, sha: string, hash: Bytes -> string) {
    body.Blob? && |body.data| == size && hash(body.data) == sha
  }

  predicate Complete(b: Bucket, d: string) {
    PayloadKey(d) in b && ChecksumKey(d) in b && MetadataKey(d) in b
  }

  /** The payload has the size and the SHA that the metadata names. */
  predicate Verified(payload: Body, metadata: Body, hash: Bytes -> string) {
    metadata.Json? && metadata.meta.size.Some? && metadata.meta.sha.Some?
    && Matches(payload, metadata.meta.size.value, metadata.meta.sha.value, hash)
  }

  /** The payload is a file of the size and of the digest that the metadata names: the same, said on the bytes. */
  ghost predicate Fits(payload: Body, metadata: Body, hash: Bytes -> string) {
    payload.Blob? && metadata.Json?
    && metadata.meta.size == Some(|payload.data|) && metadata.meta.sha == Some(hash(payload.data))
  }

  lemma VerifiedFits(payload: Body, metadata: Body, hash: Bytes -> string)
    ensures Verified(payload, metadata, hash) <==> Fits(payload, metadata, hash)
  {
  }

  predicate Committed(b: Bucket, d: string) { PayloadKey(d) in b && MetadataKey(d) in b }

  /** No directory that has its commit marker holds a payload other than the one the marker describes; in particular
      every directory with all three objects is verified. */
  ghost predicate Sound(b: Bucket, hash: Bytes -> string) {
    forall d | NoSlash(d) && Committed(b, d) :: Verified(b[PayloadKey(d)].body, b[MetadataKey(d)].body, hash)
  }

  /** The same, key by key. */
  ghost predicate NothingTorn(b: Bucket, hash: Bytes -> string) {
    forall d: string | '/' !in d && d + "/backup.tar.enc" in b && d + "/metadata.json" in b ::
      Fits(b[d + "/backup.tar.enc"].body, b[d + "/metadata.json"].body, hash)
  }

  lemma SoundIff(b: Bucket, hash: Bytes -> string)
    ensures Sound(b, hash) <==> NothingTorn(b, hash)
  {
    forall d: string ensures PayloadKey(d) == d + "/backup.tar.enc" && MetadataKey(d) == d + "/metadata.json" { PlainKeys(d); }
    forall p, m ensures Verified(p, m, hash) <==> Fits(p, m, hash) { VerifiedFits(p, m, hash); }
    hide PayloadKey, MetadataKey, Verified, Fits;
    if NothingTorn(b, hash) {
      forall d | NoSlash(d) && Committed(b, d) ensures Verified(b[PayloadKey(d)].body, b[MetadataKey(d)].body, hash) {
        assert Fits(b[d + "/backup.tar.enc"].body, b[d + "/metadata.json"].body, hash);
      }
    }
    if Sound(b, hash) {
      forall d: string | '/' !in d && d + "/backup.tar.enc" in b && d + "/metadata.json" in b
        ensures Fits(b[d + "/backup.tar.enc"].body, b[d + "/metadata.json"].body, hash)
      {
        assert Committed(b, d);
      }
    }
  }

  ghost predicate SameAt(b: Bucket, b': Bucket, k: string) {
    (k in b <==> k in b') && (k in b ==> b[k] == b'[k])
  }

  ghost predicate SameOutside(b: Bucket, b': Bucket, d: string) {
    forall k | !Inside(k, d) :: SameAt(b, b', k)
  }

  ghost predicate SameInside(b: Bucket, b': Bucket, d: string) {
    forall k | Inside(k, d) :: SameAt(b, b', k)
  }

  /** Every object of `b'` was in `b`. */
  ghost predicate Shrinks(b: Bucket, b': Bucket) {
    forall k | k in b' :: k in b && b[k] == b'[k]
  }

  ghost predicate EmptyDir(b: Bucket, d: string) {
    forall k | k in b :: !Inside(k, d)
  }

  function Listing(b: Bucket, prefix: string): (q: seq<string>)
    ensures forall k :: k in q <==> k in b && prefix <= k
    ensures Ascending(q)
  {
    Enumerate(set k | k in b && prefix <= k)
  }

  function Without(b: Bucket, keys: seq<string>): Bucket {
    if keys == [] then b else Without(b - {keys[0]}, keys[1..])
  }

  lemma {:induction false} WithoutKeys(b: Bucket, keys: seq<string>)
    ensures forall k :: k in Without(b, keys) <==> k in b && k !in keys
    ensures Shrinks(b, Without(b, keys))
  {
    if keys != [] {
      WithoutKeys(b - {keys[0]}, keys[1..]);
      assert keys == [keys[0]] + keys[1..];
    }
  }

  // ---- the abstract catalogue -------------------------------------------------------------------------------------

  datatype Entry = Entry(payload: Body, meta: Meta)

  type Catalogue = map<string, Entry>

  /** What publication may do to the catalogue: nothing, or one entry more, whose payload is verified. */
  ghost predicate AddsVerified(c: Catalogue, c': Catalogue, name: string, metadata: Body, hash: Bytes -> string) {
    exists e :: c' == c[name := e] && Json(e.meta) == metadata && Verified(e.payload, metadata, hash)
  }

  /** What retention leaves of it. */
  function Recent(c: Catalogue, cutoff: int): Catalogue {
    map d | d in c && (Unixtime(c[d].meta).Some? ==> Unixtime(c[d].meta).value >= cutoff) :: c[d]
  }

  /** What may be fetched from it. */
  ghost predicate NewestOf(c: Catalogue, name: string) {
    name in c && Unixtime(c[name].meta).Some?
    && forall d | d in c && Unixtime(c[d].meta).Some? :: Unixtime(c[d].meta).value <= Unixtime(c[name].meta).value
  }

  predicate IsEntry(b: Bucket, cluster: string, d: string) {
    NoSlash(d) && ClusterPrefix(cluster) <= d && Complete(b, d)
    && b[MetadataKey(d)].body.Json? && BelongsTo(b[MetadataKey(d)].body.meta, cluster)
    && Unixtime(b[MetadataKey(d)].body.meta).Some?
  }

  function EntryOf(b: Bucket, d: string): Entry
    requires Complete(b, d) && b[MetadataKey(d)].body.Json?
  {
    Entry(b[PayloadKey(d)].body, b[MetadataKey(d)].body.meta)
  }

  function Dirs(b: Bucket): set<string> { set k | k in b :: Dir(k) }

  /** The backups of a cluster that `fetch_latest` would consider. */
  function CatalogueOf(b: Bucket, cluster: string): Catalogue {
    map d | d in Dirs(b) && IsEntry(b, cluster, d) :: EntryOf(b, d)
  }

  lemma CatalogueDomain(b: Bucket, cluster: string)
    ensures forall d :: d in CatalogueOf(b, cluster) <==> IsEntry(b, cluster, d)
    ensures forall d | IsEntry(b, cluster, d) :: CatalogueOf(b, cluster)[d] == EntryOf(b, d)
  {
    forall d | IsEntry(b, cluster, d) ensures d in Dirs(b) {
      KeyOfParts(d, METADATA);
    }
  }

  /** The catalogue, read off the keys and the metadata: the directories under the cluster prefix with all three objects,
      whose metadata names this cluster, a supported format and a non-negative creation time. */
  lemma CatalogueIs(b: Bucket, cluster: string, d: string)
    ensures d in CatalogueOf(b, cluster) <==>
      '/' !in d && "galera-" + cluster + "-" <= d
      && d + "/backup.tar.enc" in b && d + "/backup.sha256" in b && d + "/metadata.json" in b
      && match b[d + "/metadata.json"].body
         case Blob(_) => false
         case Json(m) => m.cluster == cluster && 1 <= m.format <= 3 && m.created.Int? && m.created.n >= 0
    ensures d in CatalogueOf(b, cluster) ==>
      b[d + "/metadata.json"].body.Json?
      && CatalogueOf(b, cluster)[d] == Entry(b[d + "/backup.tar.enc"].body, b[d + "/metadata.json"].body.meta)
  {
    CatalogueDomain(b, cluster);
    PlainKeys(d);
    hide CatalogueOf, PayloadKey, ChecksumKey, MetadataKey;
  }

  /** A change confined to one directory changes at most that entry of the catalogue. */
  lemma CatalogueFrame(b: Bucket, b': Bucket, cluster: string, d: string)
    requires NoSlash(d) && SameOutside(b, b', d)
    ensures !IsEntry(b', cluster, d) ==> CatalogueOf(b', cluster) == CatalogueOf(b, cluster) - {d}
    ensures IsEntry(b', cluster, d) ==> CatalogueOf(b', cluster) == CatalogueOf(b, cluster)[d := EntryOf(b', d)]
  {
    var c, c' := CatalogueOf(b, cluster), CatalogueOf(b', cluster);
    CatalogueDomain(b, cluster);
    CatalogueDomain(b', cluster);
    hide CatalogueOf, Inside, PayloadKey, ChecksumKey, MetadataKey, ClusterPrefix, IsEntry, EntryOf;
    forall e | e != d ensures (e in c <==> e in c') && (e in c ==> c[e] == c'[e]) {
      EntryFrame(b, b', cluster, d, e);
    }
  }

  lemma EntryFrame(b: Bucket, b': Bucket, cluster: string, d: string, e: string)
    requires NoSlash(d) && SameOutside(b, b', d) && e != d
    ensures IsEntry(b, cluster, e) == IsEntry(b', cluster, e)
    ensures IsEntry(b, cluster, e) ==> EntryOf(b, e) == EntryOf(b', e)
  {
    if NoSlash(e) {
      KeysOutside(d, e);
    }
  }

  lemma KeysOutside(d: string, e: string)
    requires NoSlash(d) && NoSlash(e) && e != d
    ensures !Inside(PayloadKey(e), d) && !Inside(ChecksumKey(e), d) && !Inside(MetadataKey(e), d)
  {
    ThreeKeys(e);
    forall k | Inside(k, e) ensures !Inside(k, d) {
      if Inside(k, d) { DisjointDirs(k, d, e); }
    }
  }

  /** Soundness survives a change of one directory that leaves this directory sound. */
  lemma SoundFrame(b: Bucket, b': Bucket, d: string, hash: Bytes -> string)
    requires NoSlash(d) && SameOutside(b, b', d) && Sound(b, hash)
    requires Committed(b', d) ==> Verified(b'[PayloadKey(d)].body, b'[MetadataKey(d)].body, hash)
    ensures Sound(b', hash)
  {
    forall e | NoSlash(e) && Committed(b', e)
      ensures Verified(b'[PayloadKey(e)].body, b'[MetadataKey(e)].body, hash)
    {
      if e != d {
        KeysOutside(d, e);
        assert Committed(b, e);
      }
    }
  }

  lemma SoundShrinks(b: Bucket, b': Bucket, hash: Bytes -> string)
    requires Shrinks(b, b') && Sound(b, hash)
    ensures Sound(b', hash)
  {
    forall e | NoSlash(e) && Committed(b', e)
      ensures Verified(b'[PayloadKey(e)].body, b'[MetadataKey(e)].body, hash)
    {
      assert Committed(b, e);
    }
  }
}
