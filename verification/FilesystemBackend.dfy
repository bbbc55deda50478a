/** `FilesystemBackend.publish`, `prune` and `fetch_latest`, proved against the same catalogue as the S3 backend. */
module FilesystemBackend {
  import opened Errors
  import opened Strings
  import opened Keys
  import opened Objects
  import opened Filesystem

  // ---- publication ------------------------------------------------------------------------------------------------

  /** Before the rename: at most the partial directory differs. */
  ghost predicate Before(s: Disk, t: Disk, name: string) { SameBut(s, t, PartialOf(name)) }

  /** A complete backup whose payload is the one its metadata describes. */
  ghost predicate VerifiedNode(n: Node, metadata: Body, hash: Bytes -> string) {
    IsComplete(n) && n.files[METADATA].body == metadata && Verified(n.files[PAYLOAD].body, metadata, hash)
  }

  /** After the rename: the partial directory is gone and the backup is there, complete and verified. */
  ghost predicate After(s: Disk, t: Disk, art: Artifact, hash: Bytes -> string) {
    var name := art.name;
    (forall k | k != name && k != PartialOf(name) :: SameChild(s, t, k))
    && name !in s && PartialOf(name) !in t && name in t && VerifiedNode(t[name], art.metadata.body, hash)
  }

  /** A state that publication may leave behind. */
  ghost predicate Passes(s: Disk, t: Disk, art: Artifact, hash: Bytes -> string) {
    Before(s, t, art.name) || After(s, t, art, hash)
  }

  /** A state while publication is at work: its directory looks young to retention. */
  ghost predicate Working(s: Disk, t: Disk, art: Artifact, since: Option<int>, hash: Bytes -> string) {
    (Before(s, t, art.name) && (since.Some? ==> Young(t, PartialOf(art.name), since.value))) || After(s, t, art, hash)
  }

  /** The staged copies, not yet checked. */
  ghost predicate Staged(t: Disk, art: Artifact) {
    var p := PartialOf(art.name);
    p in t && IsComplete(t[p]) && t[p].files[METADATA].body == art.metadata.body
  }

  ghost predicate Staging(t: Disk, name: string) { PartialOf(name) in t && t[PartialOf(name)].Tree? }

  lemma WrittenWorks(s: Disk, t: Disk, art: Artifact, file: string, body: Body, mtime: int, now: int)
    requires Staging(t, art.name) && Before(s, t, art.name)
    ensures var u := Written(t, PartialOf(art.name), file, body, mtime, now);
      Staging(u, art.name) && Before(s, u, art.name) && u[PartialOf(art.name)].mtime == now
      && u[PartialOf(art.name)].files == t[PartialOf(art.name)].files[file := File(body, mtime)]
  {
    var u := Written(t, PartialOf(art.name), file, body, mtime, now);
    forall k | k != PartialOf(art.name) ensures SameChild(s, u, k) { assert SameChild(s, t, k); }
  }

  /** The rename turns a staged and checked copy into the backup. */
  lemma RenamePasses(s: Disk, t: Disk, art: Artifact, hash: Bytes -> string)
    requires Before(s, t, art.name) && Staged(t, art) && art.name !in s
    requires Verified(t[PartialOf(art.name)].files[PAYLOAD].body, art.metadata.body, hash)
    ensures art.name !in t && PartialOf(art.name) != art.name
    ensures After(s, t[art.name := t[PartialOf(art.name)]] - {PartialOf(art.name)}, art, hash)
  {
    var p := PartialOf(art.name);
    assert |p| > |art.name|;
    assert SameChild(s, t, art.name);
    var u := t[art.name := t[p]] - {p};
    forall k | k != art.name && k != p ensures SameChild(s, u, k) { assert SameChild(s, t, k); }
  }

  lemma Unchanged(s: Disk, name: string)
    ensures Before(s, s, name) && (PartialOf(name) !in s ==> s == s - {PartialOf(name)}) && PartialOf(name) != name
  {
    assert |PartialOf(name)| > |name|;
  }

  lemma StillThere(s: Disk, t: Disk, name: string)
    requires Before(s, t, name)
    ensures name in s <==> name in t
  {
    assert |PartialOf(name)| > |name|;
    assert SameChild(s, t, name);
  }

  lemma MadeDir(s: Disk, t: Disk, art: Artifact, now: int, since: Option<int>, hash: Bytes -> string)
    requires Before(s, t, art.name) && PartialOf(art.name) !in t
    requires since.Some? ==> now >= since.value
    ensures var u := t[PartialOf(art.name) := Tree(map[], now)];
      Before(s, u, art.name) && Staging(u, art.name) && Working(s, u, art, since, hash)
    ensures Working(s, t, art, since, hash)
  {
    var u := t[PartialOf(art.name) := Tree(map[], now)];
    forall k | k != PartialOf(art.name) ensures SameChild(s, u, k) { assert SameChild(s, t, k); }
  }

  lemma WorkingPasses(s: Disk, art: Artifact, since: Option<int>, hash: Bytes -> string)
    ensures forall t: Disk | Working(s, t, art, since, hash) :: Passes(s, t, art, hash)
    ensures forall t: Disk | After(s, t, art, hash) :: Working(s, t, art, since, hash)
  {
  }

  lemma BeforePasses(s: Disk, t: Disk, art: Artifact, hash: Bytes -> string)
    requires Before(s, t, art.name)
    ensures Passes(s, t, art, hash)
  {
  }

  lemma AfterHasNoPartial(s: Disk, t: Disk, art: Artifact, hash: Bytes -> string)
    requires Passes(s, t, art, hash) && PartialOf(art.name) in t
    ensures Before(s, t, art.name)
  {
  }

  lemma RemovalKeeps(s: Disk, t: Disk, name: string)
    requires Before(s, t, name)
    ensures forall u: Disk | Removing(t, u, PartialOf(name)) :: Before(s, u, name)
  {
    forall u: Disk | Removing(t, u, PartialOf(name)) ensures Before(s, u, name) {
      forall k | k != PartialOf(name) ensures SameChild(s, u, k) { assert SameChild(s, t, k) && SameChild(t, u, k); }
    }
  }

  /** The backup as it lies there, file by file: the payload has the size and the digest that publish returns, the metadata
      is the artifact's own and says the same, and beside it nothing has changed but the partial directory, which is gone. */
  ghost predicate Delivered(s: Disk, t: Disk, art: Artifact, p: Published, now: int, hash: Bytes -> string) {
    p.name == art.name && Described(art.metadata.body, p.size, p.sha, p.unixtime, now)
    && (forall k | k != art.name && k != ".partial-" + art.name :: (k in t <==> k in s) && (k in t ==> t[k] == s[k]))
    && art.name !in s && ".partial-" + art.name !in t && art.name in t && t[art.name].Tree?
    && var files := t[art.name].files;
       files.Keys == {"backup.tar.enc", "backup.sha256", "metadata.json"}
       && files["backup.tar.enc"].body.Blob? && |files["backup.tar.enc"].body.data| == p.size
       && hash(files["backup.tar.enc"].body.data) == p.sha && files["metadata.json"].body == art.metadata.body
  }

  lemma IsDelivered(s: Disk, t: Disk, art: Artifact, p: Published, now: int, hash: Bytes -> string)
    requires After(s, t, art, hash) && t[art.name].files.Keys == {PAYLOAD, CHECKSUM, METADATA} && Describes(p, art, now)
    ensures Delivered(s, t, art, p, now, hash)
  {
    VerifiedFits(t[art.name].files[PAYLOAD].body, art.metadata.body, hash);
    forall k | k != art.name && k != ".partial-" + art.name ensures (k in t <==> k in s) && (k in t ==> t[k] == s[k]) {
      assert SameChild(s, t, k);
    }
    hide Verified, SameChild;
  }

  /** What publish returns is what the metadata says. */
  ghost predicate Describes(p: Published, art: Artifact, now: int) {
    p.name == art.name && Described(art.metadata.body, p.size, p.sha, p.unixtime, now)
  }

  // ---- retention --------------------------------------------------------------------------------------------------

  predicate AllOlder(n: Node, cutoff: int)
    requires n.Tree?
  {
    n.mtime < cutoff && forall f | f in n.files :: n.files[f].mtime < cutoff
  }

  predicate Readable(n: Node) {
    n.Tree? && METADATA in n.files && n.files[METADATA].body.Json? && Unixtime(n.files[METADATA].body.meta).Some?
  }

  /** A finished directory whose metadata does not say when it was made. */
  predicate Unreadable(s: Disk, cluster: string, k: string) {
    k in s && s[k].Tree? && !(PartialPrefix(cluster) <= k) && ClusterPrefix(cluster) <= k && METADATA in s[k].files
    && !Readable(s[k])
  }

  ghost predicate SomeUnreadable(s: Disk, cluster: string) {
    exists k | k in s :: Unreadable(s, cluster, k)
  }

  /** An abandoned partial directory, or a backup whose metadata is older than the cutoff. */
  predicate Expired(s: Disk, cluster: string, cutoff: int, k: string) {
    k in s && s[k].Tree?
    && if PartialPrefix(cluster) <= k then AllOlder(s[k], cutoff)
       else ClusterPrefix(cluster) <= k && Readable(s[k]) && Unixtime(s[k].files[METADATA].body.meta).value < cutoff
  }

  ghost predicate PassesAt(s: Disk, t: Disk, cluster: string, cutoff: int, k: string) {
    if Expired(s, cluster, cutoff, k) then k in t ==> t[k] == s[k] || Eroded(s[k], t[k]) else SameChild(s, t, k)
  }

  /** A state that retention goes through: what is not to go is untouched, what is to go may have lost files. */
  ghost predicate PrunePasses(s: Disk, t: Disk, cluster: string, cutoff: int) {
    forall k: string :: PassesAt(s, t, cluster, cutoff, k)
  }

  /** The first `i` children have been dealt with. */
  ghost predicate Swept(s: Disk, t: Disk, cluster: string, cutoff: int, order: seq<string>, i: nat)
    requires i <= |order|
  {
    forall k: string :: if Expired(s, cluster, cutoff, k) && k in order[..i] then k !in t else SameChild(s, t, k)
  }

  /** The state after a complete run. */
  ghost predicate IsPruned(s: Disk, t: Disk, cluster: string, cutoff: int) {
    forall k: string :: if Expired(s, cluster, cutoff, k) then k !in t else SameChild(s, t, k)
  }

  /** A partial directory of the cluster with nothing in it younger than `days` days, itself included, or a finished one
      whose metadata says that it is older. */
  predicate Aged(s: Disk, cluster: string, now: int, days: int, k: string) {
    k in s && s[k].Tree?
    && if ".partial-galera-" + cluster + "-" <= k then
         now - s[k].mtime > days * 86400 && forall f | f in s[k].files :: now - s[k].files[f].mtime > days * 86400
       else
         "galera-" + cluster + "-" <= k && "metadata.json" in s[k].files
         && match s[k].files["metadata.json"].body
            case Blob(_) => false
            case Json(m) => m.created.Int? && m.created.n >= 0 && now - m.created.n > days * 86400
  }

  ghost predicate WindowAt(s: Disk, t: Disk, cluster: string, now: int, days: int, k: string) {
    if Aged(s, cluster, now, days, k)
    then k in t ==> t[k] == s[k] || (t[k].Tree? && forall f | f in t[k].files ::
                                       f in s[k].files && t[k].files[f] == s[k].files[f])
    else (k in t <==> k in s) && (k in t ==> t[k] == s[k])
  }

  /** What is not older than the window is as it was; what is may have lost files, or be gone. */
  ghost predicate WindowPasses(s: Disk, t: Disk, cluster: string, now: int, days: int) {
    forall k: string :: WindowAt(s, t, cluster, now, days, k)
  }

  ghost predicate Windowed(s: Disk, t: Disk, cluster: string, now: int, days: int) {
    forall k: string ::
      if Aged(s, cluster, now, days, k) then k !in t else (k in t <==> k in s) && (k in t ==> t[k] == s[k])
  }

  lemma AgedIsExpired(s: Disk, cluster: string, now: int, days: int)
    ensures forall k :: Aged(s, cluster, now, days, k) <==> Expired(s, cluster, now - days * 86400, k)
    ensures (set k | k in s && Aged(s, cluster, now, days, k)) == set k | k in s && Expired(s, cluster, now - days * 86400, k)
  {
    assert PartialPrefix(cluster) == ".partial-galera-" + cluster + "-";
    hide PartialPrefix;
  }

  lemma WindowIsPrune(s: Disk, cluster: string, now: int, days: int)
    ensures forall t :: PrunePasses(s, t, cluster, now - days * 86400) ==> WindowPasses(s, t, cluster, now, days)
    ensures forall t :: IsPruned(s, t, cluster, now - days * 86400) ==> Windowed(s, t, cluster, now, days)
  {
    AgedIsExpired(s, cluster, now, days);
    var cutoff := now - days * 86400;
    hide Expired, Aged;
    forall t: Disk | PrunePasses(s, t, cluster, cutoff) ensures WindowPasses(s, t, cluster, now, days) {
      forall k: string ensures WindowAt(s, t, cluster, now, days, k) { assert PassesAt(s, t, cluster, cutoff, k); }
    }
  }

  ghost function ExpiredAmong(s: Disk, cluster: string, cutoff: int, order: seq<string>): set<string> {
    set k | k in order && Expired(s, cluster, cutoff, k)
  }

  /** One order in which the directory may be read. */
  ghost predicate Lists(order: seq<string>, s: Disk) {
    (forall k :: k in order <==> k in s) && forall i, j | 0 <= i < j < |order| :: order[i] != order[j]
  }

  lemma NothingSwept(s: Disk, cluster: string, cutoff: int, order: seq<string>)
    ensures Swept(s, s, cluster, cutoff, order, 0) && ExpiredAmong(s, cluster, cutoff, order[..0]) == {}
  {
  }

  lemma SameVerdict(s: Disk, t: Disk, cluster: string, cutoff: int, k: string)
    requires SameChild(s, t, k)
    ensures Expired(s, cluster, cutoff, k) == Expired(t, cluster, cutoff, k)
    ensures Unreadable(s, cluster, k) == Unreadable(t, cluster, k)
  {
  }

  lemma ListedIsThere(s: Disk, order: seq<string>, i: nat)
    requires i < |order| && Lists(order, s)
    ensures order[i] in s
  {
  }

  lemma ExpiredIsTree(s: Disk, cluster: string, cutoff: int, k: string)
    requires Expired(s, cluster, cutoff, k)
    ensures k in s && s[k].Tree?
  {
  }

  lemma AllReadable(s: Disk, cluster: string, order: seq<string>)
    requires Lists(order, s) && forall j | 0 <= j < |order| :: !Unreadable(s, cluster, order[j])
    ensures !SomeUnreadable(s, cluster)
  {
    hide Unreadable;
    forall k | k in s ensures !Unreadable(s, cluster, k) { assert k in order; }
  }

  lemma SweptPasses(s: Disk, t: Disk, cluster: string, cutoff: int, order: seq<string>, i: nat)
    requires i <= |order| && Swept(s, t, cluster, cutoff, order, i)
    ensures PrunePasses(s, t, cluster, cutoff)
  {
    forall k: string ensures PassesAt(s, t, cluster, cutoff, k) {
      assert if Expired(s, cluster, cutoff, k) && k in order[..i] then k !in t else SameChild(s, t, k);
    }
  }

  /** A child whose turn it is, is still as it was. */
  lemma SweptTurn(s: Disk, t: Disk, cluster: string, cutoff: int, order: seq<string>, i: nat)
    requires i < |order| && Lists(order, s) && Swept(s, t, cluster, cutoff, order, i)
    ensures SameChild(s, t, order[i]) && order[i] in t
  {
    var k := order[i];
    assert k !in order[..i];
    hide Expired;
    assert SameChild(s, t, k);
  }

  lemma SweptKept(s: Disk, t: Disk, cluster: string, cutoff: int, order: seq<string>, i: nat)
    requires i < |order| && Lists(order, s) && Swept(s, t, cluster, cutoff, order, i)
    requires !Expired(s, cluster, cutoff, order[i])
    ensures Swept(s, t, cluster, cutoff, order, i + 1)
    ensures ExpiredAmong(s, cluster, cutoff, order[..i + 1]) == ExpiredAmong(s, cluster, cutoff, order[..i])
  {
    hide Expired;
    assert order[..i + 1] == order[..i] + [order[i]];
    forall k: string
      ensures if Expired(s, cluster, cutoff, k) && k in order[..i + 1] then k !in t else SameChild(s, t, k)
    {
      assert if Expired(s, cluster, cutoff, k) && k in order[..i] then k !in t else SameChild(s, t, k);
    }
  }

  lemma SweptRemoved(s: Disk, t: Disk, cluster: string, cutoff: int, order: seq<string>, i: nat)
    requires i < |order| && Lists(order, s) && Swept(s, t, cluster, cutoff, order, i)
    requires Expired(s, cluster, cutoff, order[i])
    ensures Swept(s, t - {order[i]}, cluster, cutoff, order, i + 1)
    ensures |ExpiredAmong(s, cluster, cutoff, order[..i + 1])| == |ExpiredAmong(s, cluster, cutoff, order[..i])| + 1
  {
    OneMoreExpired(s, cluster, cutoff, order, i);
    hide Expired, ExpiredAmong;
    var done, last := order[..i], order[i];
    assert order[..i + 1] == done + [last] && last !in done;
    var u := t - {last};
    forall k: string
      ensures if Expired(s, cluster, cutoff, k) && k in done + [last] then k !in u else SameChild(s, u, k)
    {
      assert if Expired(s, cluster, cutoff, k) && k in done then k !in t else SameChild(s, t, k);
    }
  }

  lemma OneMoreExpired(s: Disk, cluster: string, cutoff: int, order: seq<string>, i: nat)
    requires i < |order| && Lists(order, s) && Expired(s, cluster, cutoff, order[i])
    ensures |ExpiredAmong(s, cluster, cutoff, order[..i + 1])| == |ExpiredAmong(s, cluster, cutoff, order[..i])| + 1
  {
    hide Expired;
    var done, last := order[..i], order[i];
    assert order[..i + 1] == done + [last] && last !in done;
    assert ExpiredAmong(s, cluster, cutoff, done + [last]) == ExpiredAmong(s, cluster, cutoff, done) + {last};
  }

  /** Every state on the way from a swept disk to one without an expired child is a state of retention. */
  lemma RemovalPasses(s: Disk, t: Disk, cluster: string, cutoff: int, order: seq<string>, i: nat)
    requires i < |order| && Lists(order, s) && Swept(s, t, cluster, cutoff, order, i)
    requires Expired(s, cluster, cutoff, order[i])
    ensures forall u: Disk | Removing(t, u, order[i]) :: PrunePasses(s, u, cluster, cutoff)
  {
    SweptTurn(s, t, cluster, cutoff, order, i);
    hide Expired;
    forall u: Disk | Removing(t, u, order[i]) ensures PrunePasses(s, u, cluster, cutoff) {
      forall k: string ensures PassesAt(s, u, cluster, cutoff, k) {
        assert if Expired(s, cluster, cutoff, k) && k in order[..i] then k !in t else SameChild(s, t, k);
        if k != order[i] { assert SameChild(t, u, k); }
      }
    }
  }

  lemma SweptAll(s: Disk, t: Disk, cluster: string, cutoff: int, order: seq<string>)
    requires Lists(order, s) && Swept(s, t, cluster, cutoff, order, |order|)
    ensures IsPruned(s, t, cluster, cutoff)
    ensures ExpiredAmong(s, cluster, cutoff, order[..|order|]) == set k | k in s && Expired(s, cluster, cutoff, k)
  {
    hide Expired, AllOlder;
    assert order[..|order|] == order;
    forall k: string ensures if Expired(s, cluster, cutoff, k) then k !in t else SameChild(s, t, k) {
      assert if Expired(s, cluster, cutoff, k) && k in order then k !in t else SameChild(s, t, k);
    }
  }

  // ---- fetch ------------------------------------------------------------------------------------------------------

  /** A complete backup of this cluster, or maybe of it, whose metadata does not say when it was made. */
  predicate Broken(n: Node, cluster: string) {
    IsComplete(n) && (!n.files[METADATA].body.Json?
      || (BelongsTo(n.files[METADATA].body.meta, cluster) && Unixtime(n.files[METADATA].body.meta).None?))
  }

  predicate EntryAt(s: Disk, cluster: string, d: string) {
    d in s && ClusterPrefix(cluster) <= d && NodeIsEntry(s[d], cluster)
  }

  function CreatedAt(s: Disk, d: string): int
    requires d in s && Readable(s[d])
  {
    Unixtime(s[d].files[METADATA].body.meta).value
  }

  ghost predicate NoneBroken(s: Disk, cluster: string, order: seq<string>, n: nat)
    requires n <= |order| && forall d | d in order :: d in s
  {
    forall j | 0 <= j < n && ClusterPrefix(cluster) <= order[j] :: !Broken(s[order[j]], cluster)
  }

  /** The newest entry among the first `n` children, the first of them if several are equally new. */
  ghost predicate Newest(s: Disk, cluster: string, order: seq<string>, n: nat, best: Option<string>)
    requires n <= |order|
  {
    if best.None? then forall j | 0 <= j < n :: !EntryAt(s, cluster, order[j])
    else
      EntryAt(s, cluster, best.value)
      && exists i | 0 <= i < n :: order[i] == best.value
           && forall j | 0 <= j < n && EntryAt(s, cluster, order[j]) ::
                if j < i then CreatedAt(s, order[j]) < CreatedAt(s, best.value)
                else CreatedAt(s, order[j]) <= CreatedAt(s, best.value)
  }

  lemma NewestMore(s: Disk, cluster: string, order: seq<string>, n: nat, best: Option<string>)
    requires n < |order| && Newest(s, cluster, order, n, best)
    ensures !EntryAt(s, cluster, order[n]) ==> Newest(s, cluster, order, n + 1, best)
    ensures EntryAt(s, cluster, order[n])
            ==> (if best.None? || CreatedAt(s, best.value) < CreatedAt(s, order[n])
                 then Newest(s, cluster, order, n + 1, Some(order[n])) else Newest(s, cluster, order, n + 1, best))
  {
    hide ClusterPrefix, NodeIsEntry;
  }

  ghost predicate SomeBroken(s: Disk, cluster: string) {
    exists d | d in s :: ClusterPrefix(cluster) <= d && Broken(s[d], cluster)
  }

  lemma NewestIsNewest(s: Disk, cluster: string, order: seq<string>, best: Option<string>)
    requires Lists(order, s) && Newest(s, cluster, order, |order|, best) && NoneBroken(s, cluster, order, |order|)
    ensures !SomeBroken(s, cluster)
    ensures best.None? ==> CatalogueOn(s, cluster) == map[]
    ensures best.Some? ==> NewestOf(CatalogueOn(s, cluster), best.value) && NodeIsEntry(s[best.value], cluster)
                           && CatalogueOn(s, cluster)[best.value] == NodeEntry(s[best.value])
  {
    assert forall d | EntryAt(s, cluster, d) :: Readable(s[d]);
    hide ClusterPrefix, NodeIsEntry, Readable;
    forall d | d in s ensures exists j | 0 <= j < |order| :: order[j] == d { assert d in order; }
    assert forall d :: d in CatalogueOn(s, cluster) <==> EntryAt(s, cluster, d);
    assert best.Some? ==> forall d | EntryAt(s, cluster, d) :: CreatedAt(s, d) <= CreatedAt(s, best.value);
  }

  ghost predicate AllWork(plan: nat -> Call, t0: nat, t1: nat) {
    forall t | t0 <= t < t1 :: plan(t).fault.Works?
  }

  lemma FailedCall(plan: nat -> Call, t0: nat, t: nat)
    requires t0 <= t
    ensures !plan(t).fault.Works? ==> forall t1: nat | t < t1 :: !AllWork(plan, t0, t1)
  {
  }

  lemma NoneYet(plan: nat -> Call, t0: nat)
    ensures AllWork(plan, t0, t0)
  {
  }

  lemma OneMoreWorks(plan: nat -> Call, t0: nat, t: nat)
    ensures AllWork(plan, t0, t) && plan(t).fault.Works? ==> AllWork(plan, t0, t + 1)
  {
  }

  lemma NamesDiffer()
    ensures PAYLOAD != CHECKSUM && PAYLOAD != METADATA && CHECKSUM != METADATA
  {
    assert PAYLOAD[7] != CHECKSUM[7] && PAYLOAD[0] != METADATA[0] && CHECKSUM[0] != METADATA[0];
  }

  class Backend {
    const store: FileStore
    const cluster: string
    const hash: Bytes -> string
    /** Whether `preflight` has recorded the identity of the mount. */
    var identified: bool

    constructor (store: FileStore, cluster: string, hash: Bytes -> string)
      ensures this.store == store && this.cluster == cluster && this.hash == hash && !identified
    {
      this.store, this.cluster, this.hash, this.identified := store, cluster, hash, false;
    }

    /** `_verify_mount_identity`: the mount is the one seen at preflight, or E_STORAGE. */
    method VerifyIdentity() returns (same: bool)
      modifies store`tick
      ensures store.tick == AfterIdentity(old(store.tick)) && same == Identified(old(store.tick))
    {
      if !identified { return true; }
      var c := store.NextCall();
      same := c.fault.Works?;
    }

    /** A check of the mount that starts with call `t`, and the call after it. */
    predicate Identified(t: nat)
      reads this
    {
      identified ==> store.plan(t).fault.Works?
    }

    function AfterIdentity(t: nat): nat
      reads this
    {
      if identified then t + 1 else t
    }

    /** Since `seen0` the disk has only been in states of a publication at work. */
    ghost predicate AtWork(s: Disk, seen0: set<Disk>, art: Artifact, since: Option<int>)
      reads store
    {
      store.children in store.seen && seen0 <= store.seen
      && forall t | t in store.seen :: t in seen0 || Working(s, t, art, since, hash)
    }

    ghost predicate ClockFrom(since: Option<int>)
      reads store
    {
      since.Some? ==> forall i | store.tick <= i :: store.plan(i).now >= since.value
    }

    /** One copy into the partial directory. */
    method CopyOne(art: Artifact, file: string, source: File, ghost s: Disk, ghost since: Option<int>) returns (ok: bool)
      requires Staging(store.children, art.name) && Before(s, store.children, art.name)
      requires store.children in store.seen && ClockFrom(since)
      modifies store
      ensures Staging(store.children, art.name) && Before(s, store.children, art.name)
      ensures AtWork(s, old(store.seen), art, since) && ClockFrom(since)
      ensures ok == store.plan(old(store.tick)).Returns() && store.tick == old(store.tick) + 1
      ensures ok ==> store.children[PartialOf(art.name)].files
                     == old(store.children)[PartialOf(art.name)].files
                        [file := File(store.plan(old(store.tick)).Lands(source.body), source.mtime)]
    {
      ghost var t, c := store.children, store.plan(store.tick);
      WrittenWorks(s, t, art, file, Blob(c.during), c.now, c.now);
      WrittenWorks(s, t, art, file, c.Lands(source.body), source.mtime, c.now);
      hide Before, After, Verified, SameBut;
      ok := store.CopyIn(PartialOf(art.name), file, source);
    }

    /** The three files as the copies land that start with call `t`, each with its source's time. */
    function StagedFiles(art: Artifact, t: nat): map<string, File>
      reads this
    {
      map["backup.tar.enc" := File(store.plan(t).Lands(art.payload.body), art.payload.mtime),
          "backup.sha256" := File(store.plan(t + 1).Lands(art.checksum.body), art.checksum.mtime),
          "metadata.json" := File(store.plan(t + 2).Lands(art.metadata.body), art.metadata.mtime)]
    }

    /** The three copies, in the order of the source: metadata last. */
    method Stage(art: Artifact, ghost s: Disk, ghost since: Option<int>) returns (ok: bool)
      requires Staging(store.children, art.name) && Before(s, store.children, art.name)
      requires store.children[PartialOf(art.name)].files == map[]
      requires store.children in store.seen && ClockFrom(since)
      modifies store
      ensures Staging(store.children, art.name) && Before(s, store.children, art.name)
      ensures AtWork(s, old(store.seen), art, since) && ClockFrom(since)
      ensures ok <==> forall i | old(store.tick) <= i < old(store.tick) + 3 :: store.plan(i).Returns()
      ensures old(store.tick) <= store.tick && (ok ==> store.tick == old(store.tick) + 3)
      ensures ok && art.metadata.body.Json? ==> Staged(store.children, art)
      ensures ok ==> store.children[PartialOf(art.name)].files == StagedFiles(art, old(store.tick))
    {
      hide Before, After, Verified, SameBut, Working;
      NamesDiffer();
      ok := CopyOne(art, PAYLOAD, art.payload, s, since);
      if !ok { return; }
      ok := CopyOne(art, CHECKSUM, art.checksum, s, since);
      if !ok { return; }
      ok := CopyOne(art, METADATA, art.metadata, s, since);
    }

    /** What the `try` block complains of, if its first call is number `t`: a copy raised; what landed is not what the
        metadata describes; the mount has changed; the rename raised. */
    function TryFailure(art: Artifact, t: nat): Option<Failure>
      reads this
    {
      if exists i | t <= i < t + 3 :: !store.plan(i).Returns() then Some(Uncoded)
      else
        var f := CheckFailure(art, store.plan(t).Lands(art.payload.body), t + 3);
        if f.Some? then f else CommitFailure(AfterIdentity(t + 5))
    }

    function CommitFailure(t: nat): Option<Failure>
      reads this
    {
      if !store.plan(t).Returns() then Some(Uncoded) else if !Identified(t + 1) then Some(Coded(E_STORAGE, 0)) else None
    }

    /** The backup holds the files of the copies that started with call `t`, and publish has returned what its metadata
        said when it was read. */
    ghost predicate Made(art: Artifact, t: nat, p: Published)
      reads this, store
    {
      Describes(p, art, store.plan(t + 3).now) && art.name in store.children && store.children[art.name].Tree?
      && store.children[art.name].files == StagedFiles(art, t)
    }

    /** The `try` block: copy, check the copy against the metadata, check the mount, rename, check the mount again. */
    method CopyAndRename(art: Artifact, ghost s: Disk, ghost since: Option<int>) returns (r: Result<Published>)
      requires Staging(store.children, art.name) && Before(s, store.children, art.name) && art.name !in s
      requires store.children[PartialOf(art.name)].files == map[]
      requires store.children in store.seen && ClockFrom(since)
      modifies store
      ensures AtWork(s, old(store.seen), art, since)
      ensures Passes(s, store.children, art, hash) && old(store.tick) <= store.tick
      ensures r.Ok? ==> After(s, store.children, art, hash) && Made(art, old(store.tick), r.value)
      ensures r.Ok? ==> store.tick == AfterIdentity(AfterIdentity(old(store.tick) + 5) + 1)
      ensures if r.Ok? then TryFailure(art, old(store.tick)).None? else TryFailure(art, old(store.tick)) == Some(r.failure)
      ensures PartialOf(art.name) in store.children ==> store.children[PartialOf(art.name)].Tree?
    {
      WorkingPasses(s, art, since, hash);
      hide Before, After, Verified, SameBut, VerifiedNode, Matches, Staged, Working, Described;
      var copied := Stage(art, s, since);
      if !copied { return Err(Uncoded); }
      var m := CheckCopy(art);
      if m.Err? { return Err(m.failure); }
      ManifestMeans(art.metadata.body, store.plan(old(store.tick) + 3).now);
      r := Commit(art, m.value, s, since);
    }

    /** What `CheckCopy` complains of: the metadata or the copy cannot be read, they do not match, the mount has changed. */
    function CheckFailure(art: Artifact, payload: Body, t: nat): Option<Failure>
      reads this
    {
      var meta := ParseManifest(art.metadata.body, store.plan(t).now);
      if !store.plan(t).Returns() || meta.None? || !store.plan(t + 1).Returns() then Some(Uncoded)
      else if !Matches(payload, meta.value.size, meta.value.sha, hash) then Some(Coded(E_INTEGRITY, 0))
      else if !Identified(t + 2) then Some(Coded(E_STORAGE, 0)) else None
    }

    /** The copy against the metadata, then the mount. */
    method CheckCopy(art: Artifact) returns (r: Result<Manifest>)
      requires Staging(store.children, art.name) && IsComplete(store.children[PartialOf(art.name)])
      modifies store`tick
      ensures old(store.tick) <= store.tick
      ensures var f := CheckFailure(art, store.children[PartialOf(art.name)].files[PAYLOAD].body, old(store.tick));
        match r
        case Err(e) => f == Some(e)
        case Ok(m) => f.None? && ParseManifest(art.metadata.body, store.plan(old(store.tick)).now) == Some(m)
                      && Matches(store.children[PartialOf(art.name)].files[PAYLOAD].body, m.size, m.sha, hash)
                      && store.tick == AfterIdentity(old(store.tick) + 2)
    {
      hide Matches;
      var c := store.NextCall();
      var manifest := ParseManifest(art.metadata.body, c.now);
      if !c.Returns() || manifest.None? { return Err(Uncoded); }
      c := store.NextCall();
      if !c.Returns() { return Err(Uncoded); }
      var m := manifest.value;
      if !Matches(store.children[PartialOf(art.name)].files[PAYLOAD].body, m.size, m.sha, hash) {
        return Err(Coded(E_INTEGRITY, 0));
      }
      var same := VerifyIdentity();
      if !same { return Err(Coded(E_STORAGE, 0)); }
      r := Ok(m);
    }

    /** The rename of a staged and checked copy. */
    method Commit(art: Artifact, m: Manifest, ghost s: Disk, ghost since: Option<int>) returns (r: Result<Published>)
      requires Staging(store.children, art.name) && Before(s, store.children, art.name) && art.name !in s
      requires Staged(store.children, art) && store.children in store.seen
      requires art.metadata.body.Json? && art.metadata.body.meta.size == Some(m.size)
               && art.metadata.body.meta.sha == Some(m.sha)
      requires Matches(store.children[PartialOf(art.name)].files[PAYLOAD].body, m.size, m.sha, hash)
      modifies store
      ensures Passes(s, store.children, art, hash) && old(store.tick) <= store.tick && store.children in store.seen
      ensures old(store.seen) <= store.seen
      ensures forall t | t in store.seen :: t in old(store.seen) || After(s, t, art, hash)
      ensures r.Ok? ==> After(s, store.children, art, hash)
                        && r.value == Published(art.name, m.sha, m.size, m.unixtime)
                        && art.name in store.children && store.children[art.name].Tree?
                        && store.children[art.name].files == old(store.children)[PartialOf(art.name)].files
                        && store.tick == AfterIdentity(old(store.tick) + 1)
      ensures if r.Ok? then CommitFailure(old(store.tick)).None? else CommitFailure(old(store.tick)) == Some(r.failure)
      ensures PartialOf(art.name) in store.children ==> store.children[PartialOf(art.name)].Tree?
    {
      RenamePasses(s, store.children, art, hash);
      hide Before, SameBut, VerifiedNode, Matches;
      var ok := store.Rename(PartialOf(art.name), art.name);
      if !ok { return Err(Uncoded); }
      var same := VerifyIdentity();
      if !same { return Err(Coded(E_STORAGE, 0)); }
      r := Ok(Published(art.name, m.sha, m.size, m.unixtime));
    }

    ghost predicate LastCallFailed()
      reads store
    {
      store.tick > 0 && !store.plan(store.tick - 1).fault.Works?
    }

    /** What has to be out of the way before the directory can be made. */
    method Prepare(art: Artifact) returns (ready: bool)
      requires store.children in store.seen
      modifies store
      ensures ready == Prepares(old(store.children), art, old(store.tick))
      ensures ready ==> store.tick == MkdirCall(old(store.children), art, old(store.tick))
                        && PartialOf(art.name) !in store.children
      ensures old(store.seen) <= store.seen && store.children in store.seen && old(store.tick) <= store.tick
      ensures forall t | t in store.seen :: t in old(store.seen) || Removing(old(store.children), t, PartialOf(art.name))
      ensures Removing(old(store.children), store.children, PartialOf(art.name))
      ensures ready ==> art.name !in store.children
    {
      ghost var s := store.children;
      var partial := PartialOf(art.name);
      Unchanged(s, art.name);
      RemovalKeeps(s, s, art.name);
      RemovingNothing(s, partial);
      hide Before, Removing, PartialOf, FileStore.Clears, SameBut;
      ready := VerifyIdentity();
      if !ready { return; }
      ready := store.RemoveTree(partial);
      if !ready { return; }
      StillThere(s, store.children, art.name);
      ready := art.name !in store.children;
    }

    /** The `except` block: a partial directory is removed, or the error says that it is not. */
    method TidyUp(art: Artifact, primary: Failure, ghost s: Disk) returns (f: Failure)
      requires store.children in store.seen && Passes(s, store.children, art, hash)
      requires PartialOf(art.name) in store.children ==> store.children[PartialOf(art.name)].Tree?
      modifies store
      ensures old(store.seen) <= store.seen && store.children in store.seen && Passes(s, store.children, art, hash)
      ensures forall t | t in store.seen :: t in old(store.seen) || Passes(s, t, art, hash)
      ensures (f == primary && PartialOf(art.name) !in store.children)
              || (f == Combine(primary, Coded(E_STORAGE, 0), E_STORAGE) && LastCallFailed())
    {
      f := primary;
      var partial := PartialOf(art.name);
      hide Before, After, Removing, PartialOf;
      if partial in store.children {
        AfterHasNoPartial(s, store.children, art, hash);
        RemovalKeeps(s, store.children, art.name);
        var removed := store.RemoveTree(partial);
        if !removed { f := Combine(primary, Coded(E_STORAGE, 0), E_STORAGE); }
      }
    }

    /** The call with which the directory is made, if publish starts with call `t` on the disk `s`. */
    function MkdirCall(s: Disk, art: Artifact, t: nat): nat
      reads this
    {
      AfterIdentity(t) + store.CallsToRemove(s, PartialOf(art.name))
    }

    /** The call after a publish that succeeds. */
    function EndCall(s: Disk, art: Artifact, t: nat): nat
      reads this
    {
      AfterIdentity(AfterIdentity(MkdirCall(s, art, t) + 6) + 1)
    }

    /** Nothing speaks against making the directory: the mount, a stale directory of this name, an existing backup. */
    predicate Prepares(s: Disk, art: Artifact, t: nat)
      reads this
    {
      Identified(t) && store.Clears(s, PartialOf(art.name), AfterIdentity(t)) && art.name !in s
    }

    /** The directory is made by this publish. */
    predicate Begins(s: Disk, art: Artifact, t: nat)
      reads this
    {
      Prepares(s, art, t) && store.plan(MkdirCall(s, art, t)).Returns()
    }

    /** How a publish ends that started with call `t` on the disk `s`. */
    ghost predicate Ends(s: Disk, art: Artifact, t: nat, r: Result<Published>)
      reads this, store
    {
      if !Begins(s, art, t)
      then r == Err(if Prepares(s, art, t) then Uncoded else Coded(E_STORAGE, 0)) && Before(s, store.children, art.name)
           && (Removing(s, store.children, PartialOf(art.name)) || Prepares(s, art, t))
      else Outcome(TryFailure(art, MkdirCall(s, art, t) + 1), art, r)
    }

    /** `publish`. Every state the disk has been in meanwhile either differs from the old one in the partial directory
        alone, or has the backup, complete and verified; while a publication that succeeds is at work, its directory has
        a recent time. It succeeds exactly if the directory can be made and the `try` block has nothing to complain of;
        a failure of that block keeps its code; and a directory that this publish made and leaves is reported. */
    method Publish(art: Artifact, ghost since: Option<int>) returns (r: Result<Published>)
      requires store.children in store.seen && ClockFrom(since)
      modifies store
      ensures old(store.seen) <= store.seen && store.children in store.seen
      ensures forall t | t in store.seen :: t in old(store.seen) || Passes(old(store.children), t, art, hash)
      ensures Passes(old(store.children), store.children, art, hash)
      ensures r.Ok? ==> After(old(store.children), store.children, art, hash)
      ensures Promised(old(store.children), art, old(store.tick), r)
      ensures r.Ok? ==> forall t | t in store.seen && t !in old(store.seen) ::
                Removing(old(store.children), t, PartialOf(art.name)) || Working(old(store.children), t, art, since, hash)
      ensures Ends(old(store.children), art, old(store.tick), r)
    {
      ghost var s, t := store.children, store.tick;
      r := MakeAndFill(art, since);
      hide *;
      PublishMeans(s, art, t, r);
    }

    method MakeAndFill(art: Artifact, ghost since: Option<int>) returns (r: Result<Published>)
      requires store.children in store.seen && ClockFrom(since)
      modifies store
      ensures old(store.seen) <= store.seen && store.children in store.seen
      ensures forall t | t in store.seen :: t in old(store.seen) || Passes(old(store.children), t, art, hash)
      ensures Passes(old(store.children), store.children, art, hash)
      ensures r.Ok? ==> After(old(store.children), store.children, art, hash)
                        && Made(art, MkdirCall(old(store.children), art, old(store.tick)) + 1, r.value)
      ensures r.Ok? ==> store.tick == EndCall(old(store.children), art, old(store.tick))
      ensures r.Ok? ==> forall t | t in store.seen && t !in old(store.seen) ::
                Removing(old(store.children), t, PartialOf(art.name)) || Working(old(store.children), t, art, since, hash)
      ensures Ends(old(store.children), art, old(store.tick), r)
    {
      ghost var s := store.children;
      RemovalKeeps(s, s, art.name);
      WorkingPasses(s, art, since, hash);
      hide Before, After, Working, Removing, PartialOf, TryFailure, Begins, Prepares, MkdirCall, Passes, Outcome, Made;
      var failure := Begin(art, since);
      BeforePasses(s, store.children, art, hash);
      if failure.Some? { return Err(failure.value); }
      r := Attempt(art, s, since);
    }

    /** The directory is made, the copies, the metadata and the readback return, and what has landed as the payload is of
        another size or of another digest than the metadata says. */
    ghost predicate WronglyLanded(s: Disk, art: Artifact, t: nat)
      reads this, store
    {
      var t1 := MkdirCall(s, art, t) + 1;
      var landed, now := store.plan(t1).Lands(art.payload.body), store.plan(t1 + 3).now;
      Begins(s, art, t) && (forall i | t1 <= i < t1 + 5 :: store.plan(i).Returns())
      && exists size, sha, unixtime :: Described(art.metadata.body, size, sha, unixtime, now)
                                       && !(landed.Blob? && |landed.data| == size && hash(landed.data) == sha)
    }

    lemma MadeIsDelivered(s: Disk, art: Artifact, t: nat, p: Published)
      requires After(s, store.children, art, hash) && Made(art, t, p)
      ensures Delivered(s, store.children, art, p, store.plan(t + 3).now, hash)
      ensures store.children[art.name].files == StagedFiles(art, t)
    {
      hide After, Describes, Delivered;
      IsDelivered(s, store.children, art, p, store.plan(t + 3).now, hash);
    }

    /** Of the calls from `t` to before `t2`, the directory made before `t1`, all returned; and, once the identity of the mount
        is known, it was looked at before anything else, right before the rename and at the end, and was the same. */
    predicate AllReturned(t: nat, t1: nat, t2: nat)
      reads this
    {
      t < t1 && t2 == t1 + (if identified then 8 else 6) && (forall i | t <= i < t2 :: store.plan(i).Returns())
      && (identified ==> store.plan(t).fault.Works? && store.plan(t2 - 3).fault.Works? && store.plan(t2 - 1).fault.Works?)
    }

    lemma AllHaveReturned(s: Disk, art: Artifact, t: nat, r: Result<Published>)
      requires Ends(s, art, t, r) && r.Ok?
      ensures AllReturned(t, MkdirCall(s, art, t) + 1, EndCall(s, art, t))
    {
      var t1 := MkdirCall(s, art, t) + 1;
      assert TryFailure(art, t1) == None;
      hide PartialOf, Matches, ParseManifest, Call.Lands;
    }

    /** A normal return: the backup lies there file by file as the copies have landed, and every call has returned. A payload
        that has landed wrongly is an integrity error. */
    ghost predicate Promised(s: Disk, art: Artifact, t: nat, r: Result<Published>)
      reads this, store
    {
      var t1 := MkdirCall(s, art, t) + 1;
      (r.Ok? ==> Delivered(s, store.children, art, r.value, store.plan(t1 + 3).now, hash)
                 && store.children[art.name].files == StagedFiles(art, t1) && AllReturned(t, t1, store.tick))
      && (WronglyLanded(s, art, t) ==> r.Err? && r.failure.Coded? && r.failure.code == E_INTEGRITY)
    }

    lemma PublishMeans(s: Disk, art: Artifact, t: nat, r: Result<Published>)
      requires Ends(s, art, t, r)
      requires r.Ok? ==> After(s, store.children, art, hash) && Made(art, MkdirCall(s, art, t) + 1, r.value)
                         && store.tick == EndCall(s, art, t)
      ensures Promised(s, art, t, r)
    {
      hide Ends, Delivered, AllReturned, MkdirCall, EndCall, StagedFiles, Made, After, WronglyLanded;
      if r.Ok? { AllHaveReturned(s, art, t, r); }
      if r.Ok? { MadeIsDelivered(s, art, MkdirCall(s, art, t) + 1, r.value); }
      if WronglyLanded(s, art, t) { WrongCopyFails(s, art, t, r); }
    }

    lemma WrongCopyFails(s: Disk, art: Artifact, t: nat, r: Result<Published>)
      requires WronglyLanded(s, art, t) && Ends(s, art, t, r)
      ensures r.Err? && r.failure.Coded? && r.failure.code == E_INTEGRITY
    {
      var t1 := MkdirCall(s, art, t) + 1;
      var landed := store.plan(t1).Lands(art.payload.body);
      var now := store.plan(t1 + 3).now;
      var size, sha, unixtime :| Described(art.metadata.body, size, sha, unixtime, now)
                                 && !(landed.Blob? && |landed.data| == size && hash(landed.data) == sha);
      ManifestMeans(art.metadata.body, now);
      DescribedOnce(art.metadata.body, ParseManifest(art.metadata.body, now).value, size, sha, unixtime, now);
    }

    /** Up to the new partial directory. */
    method Begin(art: Artifact, ghost since: Option<int>) returns (failure: Option<Failure>)
      requires store.children in store.seen && ClockFrom(since)
      modifies store
      ensures old(store.seen) <= store.seen && store.children in store.seen
              && Before(old(store.children), store.children, art.name)
      ensures forall t | t in store.seen :: t in old(store.seen) || Removing(old(store.children), t, PartialOf(art.name))
                                            || Working(old(store.children), t, art, since, hash)
      ensures failure == if Begins(old(store.children), art, old(store.tick)) then None
                         else Some(if Prepares(old(store.children), art, old(store.tick)) then Uncoded else Coded(E_STORAGE, 0))
      ensures !Prepares(old(store.children), art, old(store.tick)) ==>
              Removing(old(store.children), store.children, PartialOf(art.name))
      ensures failure.None? ==> Staging(store.children, art.name) && art.name !in old(store.children) && ClockFrom(since)
                                && store.tick == MkdirCall(old(store.children), art, old(store.tick)) + 1
                                && store.children[PartialOf(art.name)].files == map[]
    {
      ghost var s := store.children;
      RemovalKeeps(s, s, art.name);
      Unchanged(s, art.name);
      hide Before, After, Working, Removing, PartialOf, Prepares, MkdirCall;
      var ready := Prepare(art);
      if !ready { return Some(Coded(E_STORAGE, 0)); }
      StillThere(s, store.children, art.name);
      MadeDir(s, store.children, art, store.plan(store.tick).now, since, hash);
      var made := store.MakeDir(PartialOf(art.name));
      failure := if made then None else Some(Uncoded);
    }

    /** When nothing fails, a stale directory and the disk's other contents do not matter: a described payload with a free
        name is published. */
    lemma PublishSucceeds(s: Disk, art: Artifact, t: nat, data: Bytes, unixtime: int, r: Result<Published>)
      requires Ends(s, art, t, r)
      requires forall i | t <= i < MkdirCall(s, art, t) + 9 :: store.plan(i).fault.Works?
      requires art.name !in s && (PartialOf(art.name) in s ==> s[PartialOf(art.name)].Tree?)
      requires art.payload.body == Blob(data)
      requires Described(art.metadata.body, |data|, hash(data), unixtime, store.plan(MkdirCall(s, art, t) + 4).now)
      ensures r.Ok?
    {
      hide PartialOf;
      var t1 := MkdirCall(s, art, t) + 1;
      var now := store.plan(t1 + 3).now;
      ManifestMeans(art.metadata.body, now);
      DescribedOnce(art.metadata.body, ParseManifest(art.metadata.body, now).value, |data|, hash(data), unixtime, now);
      assert store.plan(t1).fault.Works? && store.plan(t1).Lands(art.payload.body) == art.payload.body;
      assert CheckFailure(art, art.payload.body, t1 + 3) == None;
    }

    /** The `try` block and its `except` block. */
    method Attempt(art: Artifact, ghost s: Disk, ghost since: Option<int>) returns (r: Result<Published>)
      requires Staging(store.children, art.name) && Before(s, store.children, art.name) && art.name !in s
      requires store.children[PartialOf(art.name)].files == map[]
      requires store.children in store.seen && ClockFrom(since)
      modifies store
      ensures old(store.seen) <= store.seen && store.children in store.seen && Passes(s, store.children, art, hash)
      ensures forall t | t in store.seen :: t in old(store.seen) || Passes(s, t, art, hash)
      ensures r.Ok? ==> After(s, store.children, art, hash) && Made(art, old(store.tick), r.value)
      ensures r.Ok? ==> forall t | t in store.seen :: t in old(store.seen) || Working(s, t, art, since, hash)
      ensures r.Ok? ==> store.tick == AfterIdentity(AfterIdentity(old(store.tick) + 5) + 1)
      ensures Outcome(TryFailure(art, old(store.tick)), art, r)
    {
      WorkingPasses(s, art, since, hash);
      hide Before, After, Working, Removing, PartialOf, Describes, TryFailure, Passes, Staging, Made;
      r := CopyAndRename(art, s, since);
      if r.Err? {
        var f := TidyUp(art, r.failure, s);
        r := Err(f);
      }
    }

    /** How the attempt ends when its `try` block complains of `primary`: with that error and no directory left, or with a
        note on it because the removal raised; so a directory that is left is reported. */
    ghost predicate Outcome(primary: Option<Failure>, art: Artifact, r: Result<Published>)
      reads store
    {
      if primary.None? then r.Ok?
      else r.Err?
           && (r.failure == primary.value
               || (r.failure == Combine(primary.value, Coded(E_STORAGE, 0), E_STORAGE) && LastCallFailed()))
           && (PartialOf(art.name) in store.children ==> NotesOf(r.failure) > NotesOf(primary.value))
    }

    // ---- retention ------------------------------------------------------------------------------------------------

    /** `max` over the modification times of the files and of the directory itself. */
    method NewestMtime(n: Node) returns (newest: int)
      requires n.Tree?
      ensures forall cutoff :: newest < cutoff <==> AllOlder(n, cutoff)
    {
      newest := n.mtime;
      var files := Enumerate(n.files.Keys);
      for i := 0 to |files|
        invariant newest >= n.mtime && forall j | 0 <= j < i :: newest >= n.files[files[j]].mtime
        invariant newest == n.mtime || exists f :: f in n.files && n.files[f].mtime == newest
      {
        assert files[i] in files;
        if n.files[files[i]].mtime > newest { newest := n.files[files[i]].mtime; }
      }
      forall f | f in n.files ensures n.files[f].mtime <= newest {
        assert f in files;
        var j :| 0 <= j < |files| && files[j] == f;
      }
    }

    /** Every call from `t0` on has returned. */
    ghost predicate HaveReturned(t0: nat)
      reads store
    {
      forall i | t0 <= i < store.tick :: store.plan(i).Returns()
    }

    lemma ClearsReturn(s: Disk, name: string, t: nat)
      requires store.Clears(s, name, t)
      ensures forall i | t <= i < t + store.CallsToRemove(s, name) :: store.plan(i).Returns()
    {
    }

    /** Whether a child is to go; unreadable metadata is an error. */
    method Verdict(k: string, cutoff: int) returns (r: Result<bool>)
      requires k in store.children
      modifies store`tick
      ensures old(store.tick) <= store.tick
      ensures r.Ok? ==> r.value == Expired(store.children, cluster, cutoff, k) && !Unreadable(store.children, cluster, k)
      ensures r.Ok? ==> HaveReturned(old(store.tick))
      ensures r.Err? ==> r.failure == Coded(E_STORAGE, 0) && (Unreadable(store.children, cluster, k) || LastCallFailed())
    {
      var n := store.children[k];
      if n.Plain? { return Ok(false); }
      if PartialPrefix(cluster) <= k {
        var newest := NewestMtime(n);
        return Ok(newest < cutoff);
      }
      if !(ClusterPrefix(cluster) <= k) || METADATA !in n.files { return Ok(false); }
      var c := store.NextCall();
      if !c.Returns() || !Readable(n) { return Err(Coded(E_STORAGE, 0)); }
      r := Ok(Unixtime(n.files[METADATA].body.meta).value < cutoff);
    }

    /** One child's turn. */
    method PruneChild(order: seq<string>, i: nat, cutoff: int, ghost s: Disk) returns (r: Result<bool>)
      requires i < |order| && Lists(order, s) && store.children in store.seen
      requires Swept(s, store.children, cluster, cutoff, order, i) && PrunePasses(s, store.children, cluster, cutoff)
      modifies store
      ensures store.children in store.seen && PrunePasses(s, store.children, cluster, cutoff)
      ensures forall t | t in store.seen :: t in old(store.seen) || PrunePasses(s, t, cluster, cutoff)
      ensures r.Ok? ==> Swept(s, store.children, cluster, cutoff, order, i + 1) && !Unreadable(s, cluster, order[i])
      ensures old(store.tick) <= store.tick && (r.Ok? ==> HaveReturned(old(store.tick)))
      ensures r.Ok? ==> |ExpiredAmong(s, cluster, cutoff, order[..i + 1])|
                        == |ExpiredAmong(s, cluster, cutoff, order[..i])| + if r.value then 1 else 0
      ensures r.Err? ==> r.failure == Coded(E_STORAGE, 0) && (Unreadable(s, cluster, order[i]) || LastCallFailed())
    {
      hide Expired, PrunePasses, Swept, Lists, Removing, ExpiredAmong, AllOlder, SameChild, IsPruned, PassesAt, Unreadable,
        FileStore.Clears;
      ghost var t := store.children;
      SweptTurn(s, t, cluster, cutoff, order, i);
      SameVerdict(s, t, cluster, cutoff, order[i]);
      r := Verdict(order[i], cutoff);
      if r.Err? { return; }
      if r.value {
        ExpiredIsTree(t, cluster, cutoff, order[i]);
        RemovalPasses(s, t, cluster, cutoff, order, i);
        SweptRemoved(s, t, cluster, cutoff, order, i);
        ghost var t0 := store.tick;
        var removed := store.RemoveTree(order[i]);
        if !removed { return Err(Coded(E_STORAGE, 0)); }
        ClearsReturn(t, order[i], t0);
      } else {
        SweptKept(s, t, cluster, cutoff, order, i);
      }
      SweptPasses(s, store.children, cluster, cutoff, order, i + 1);
    }

    /** `prune`, for any order in which the directory is read: whatever fails, a child that is not older than the window is
        as it was; after a normal return exactly the older ones are gone, and their number is returned. */
    method Prune(days: int, now: int, order: seq<string>) returns (r: Result<nat>)
      requires Lists(order, store.children) && store.children in store.seen
      modifies store
      ensures days <= 0 ==> r == Err(Coded(E_CONFIG, 0)) && store.children == old(store.children)
      ensures forall t | t in store.seen :: t in old(store.seen) || WindowPasses(old(store.children), t, cluster, now, days)
      ensures WindowPasses(old(store.children), store.children, cluster, now, days)
      ensures r.Ok? ==> Windowed(old(store.children), store.children, cluster, now, days)
      ensures r.Ok? ==> r.value == |set k | k in old(store.children) && Aged(old(store.children), cluster, now, days, k)|
      ensures r.Ok? ==> !SomeUnreadable(old(store.children), cluster)
      ensures r.Ok? ==> HaveReturned(old(store.tick)) && Identified(old(store.tick))
      ensures r.Err? && days > 0 ==> r.failure == Coded(E_STORAGE, 0)
                                     && (SomeUnreadable(old(store.children), cluster) || LastCallFailed())
    {
      ghost var s := store.children;
      var cutoff := now - days * 86400;
      hide SomeUnreadable, Lists;
      AgedIsExpired(s, cluster, now, days);
      WindowIsPrune(s, cluster, now, days);
      hide Aged, Expired, PrunePasses, WindowPasses, Windowed, IsPruned;
      if days <= 0 { return Err(Coded(E_CONFIG, 0)); }
      r := PruneOlder(cutoff, order);
    }

    method PruneOlder(cutoff: int, order: seq<string>) returns (r: Result<nat>)
      requires Lists(order, store.children) && store.children in store.seen
      modifies store
      ensures forall t | t in store.seen :: t in old(store.seen) || PrunePasses(old(store.children), t, cluster, cutoff)
      ensures PrunePasses(old(store.children), store.children, cluster, cutoff)
      ensures r.Ok? ==> IsPruned(old(store.children), store.children, cluster, cutoff)
      ensures r.Ok? ==> r.value == |set k | k in old(store.children) && Expired(old(store.children), cluster, cutoff, k)|
      ensures r.Ok? ==> !SomeUnreadable(old(store.children), cluster)
      ensures r.Ok? ==> HaveReturned(old(store.tick)) && Identified(old(store.tick))
      ensures r.Err? ==> r.failure == Coded(E_STORAGE, 0)
                         && (SomeUnreadable(old(store.children), cluster) || LastCallFailed())
    {
      ghost var s := store.children;
      NothingSwept(s, cluster, cutoff, order);
      SweptPasses(s, s, cluster, cutoff, order, 0);
      var same := VerifyIdentity();
      if !same { return Err(Coded(E_STORAGE, 0)); }
      var deleted := 0;
      hide Expired, PrunePasses, Swept, Lists, Removing, ExpiredAmong, AllOlder, SameChild, IsPruned, PassesAt,
        Unreadable;
      for i := 0 to |order|
        invariant store.children in store.seen
        invariant Swept(s, store.children, cluster, cutoff, order, i)
        invariant PrunePasses(s, store.children, cluster, cutoff)
        invariant deleted == |ExpiredAmong(s, cluster, cutoff, order[..i])|
        invariant forall j | 0 <= j < i :: !Unreadable(s, cluster, order[j])
        invariant old(store.tick) <= store.tick && HaveReturned(old(store.tick))
        invariant forall t | t in store.seen :: t in old(store.seen) || PrunePasses(s, t, cluster, cutoff)
      {
        ListedIsThere(s, order, i);
        var expired :- PruneChild(order, i, cutoff, s);
        deleted := if expired then deleted + 1 else deleted;
      }
      SweptAll(s, store.children, cluster, cutoff, order);
      AllReadable(s, cluster, order);
      r := Ok(deleted);
    }

    // ---- fetch ----------------------------------------------------------------------------------------------------

    /** The newest entry, or an error as soon as a complete backup cannot be read. */
    method NewestBackup(order: seq<string>, ghost t0: nat) returns (r: Result<Option<string>>)
      requires Lists(order, store.children) && t0 <= store.tick
      modifies store`tick
      ensures t0 <= store.tick
      ensures r.Ok? && AllWork(store.plan, t0, old(store.tick)) ==> AllWork(store.plan, t0, store.tick)
      ensures r.Err? ==> r.failure == Coded(E_STORAGE, 0)
      ensures r.Ok? ==> NoneBroken(store.children, cluster, order, |order|)
                        && Newest(store.children, cluster, order, |order|, r.value)
      ensures r.Err? && AllWork(store.plan, t0, store.tick)
              ==> exists d | d in order :: ClusterPrefix(cluster) <= d && Broken(store.children[d], cluster)
    {
      var best: Option<string> := None;
      for i := 0 to |order|
        invariant t0 <= store.tick
        invariant AllWork(store.plan, t0, old(store.tick)) ==> AllWork(store.plan, t0, store.tick)
        invariant NoneBroken(store.children, cluster, order, i)
        invariant Newest(store.children, cluster, order, i, best)
      {
        var d := order[i];
        assert d in order;
        var n := store.children[d];
        NewestMore(store.children, cluster, order, i, best);
        if ClusterPrefix(cluster) <= d && IsComplete(n) {
          FailedCall(store.plan, t0, store.tick);
          OneMoreWorks(store.plan, t0, store.tick);
          hide Newest, AllWork, ClusterPrefix;
          var c := store.NextCall();
          if !c.fault.Works? || !n.files[METADATA].body.Json? { return Err(Coded(E_STORAGE, 0)); }
          var meta := n.files[METADATA].body.meta;
          if BelongsTo(meta, cluster) {
            if Unixtime(meta).None? { return Err(Coded(E_STORAGE, 0)); }
            if best.None? || CreatedAt(store.children, best.value) < Unixtime(meta).value { best := Some(d); }
          }
        }
      }
      r := Ok(best);
    }

    /** The three copies into the work directory. */
    method CopyOut(ghost t0: nat) returns (ok: bool)
      requires t0 <= store.tick
      modifies store`tick
      ensures t0 <= store.tick
      ensures ok ==> store.tick == old(store.tick) + 3
      ensures ok && AllWork(store.plan, t0, old(store.tick)) ==> AllWork(store.plan, t0, store.tick)
      ensures !ok ==> LastCallFailed() && !AllWork(store.plan, t0, store.tick)
    {
      hide AllWork;
      FailedCall(store.plan, t0, store.tick);
      OneMoreWorks(store.plan, t0, store.tick);
      var c := store.NextCall();
      if !c.fault.Works? { return false; }
      FailedCall(store.plan, t0, store.tick);
      OneMoreWorks(store.plan, t0, store.tick);
      c := store.NextCall();
      if !c.fault.Works? { return false; }
      FailedCall(store.plan, t0, store.tick);
      OneMoreWorks(store.plan, t0, store.tick);
      c := store.NextCall();
      ok := c.fault.Works?;
    }

    /** `fetch_latest`: a newest entry of the catalogue and its bytes. It never falls back past a complete backup with
        unreadable metadata, and when every call works and none is unreadable it fails only on an empty catalogue. */
    method FetchLatest(order: seq<string>) returns (r: Result<Fetched>)
      requires Lists(order, store.children)
      modifies store`tick
      ensures r.Ok? ==> var c, f := CatalogueOn(store.children, cluster), r.value;
        NewestOf(c, f.name) && f.payload == c[f.name].payload && f.metadata == Json(c[f.name].meta)
        && f.checksum == store.children[f.name].files[CHECKSUM].body
      ensures r.Ok? ==> !SomeBroken(store.children, cluster) && AllWork(store.plan, old(store.tick), store.tick)
      ensures r.Err? ==> r.failure == Coded(E_STORAGE, 0) || (r.failure == Uncoded && LastCallFailed())
      ensures r.Err? && AllWork(store.plan, old(store.tick), store.tick)
              ==> SomeBroken(store.children, cluster) || CatalogueOn(store.children, cluster) == map[]
    {
      ghost var t0 := store.tick;
      hide AllWork, ClusterPrefix;
      NoneYet(store.plan, t0);
      FailedCall(store.plan, t0, store.tick);
      OneMoreWorks(store.plan, t0, store.tick);
      var same := VerifyIdentity();
      if !same { return Err(Coded(E_STORAGE, 0)); }
      var found := NewestBackup(order, t0);
      if found.Err? { return Err(found.failure); }
      NewestIsNewest(store.children, cluster, order, found.value);
      hide Newest, NoneBroken, SomeBroken, CatalogueOn, Lists;
      if found.value.None? { return Err(Coded(E_STORAGE, 0)); }
      var n := store.children[found.value.value];
      var copied := CopyOut(t0);
      if !copied { return Err(Uncoded); }
      r := Ok(Fetched(found.value.value, n.files[PAYLOAD].body, n.files[CHECKSUM].body, n.files[METADATA].body));
    }
  }
}
