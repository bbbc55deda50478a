/** Retention racing with publication: what a pruner that works from an earlier listing cannot take away. */
module S3Survival {
  import opened Errors
  import opened Strings
  import opened Keys
  import opened Objects
  import opened S3World
  import Publisher
  import PublishRun
  import Pruner
  import Fetcher

  /** The directory is inside the retention window: by its metadata if it has one, else by its newest upload. */
  ghost predicate Shielded(b: Bucket, d: string, cutoff: int) {
    Pruner.MetadataVerdict(b, d, cutoff) != Pruner.Drop
    && (MetadataKey(d) in b || EmptyDir(b, d) || YoungUpload(b, d, cutoff) || Undated(b, d))
  }

  ghost predicate YoungUpload(b: Bucket, d: string, cutoff: int) {
    exists k | k in b :: Inside(k, d) && b[k].modified.Some? && b[k].modified.value >= cutoff
  }

  ghost predicate Undated(b: Bucket, d: string) {
    forall k | k in b && Inside(k, d) :: b[k].modified.None?
  }

  ghost predicate SparedGroup(g: Pruner.Group, d: string, cutoff: int) {
    Pruner.Grouped(g) && (g.dir == d ==> Pruner.HasMetadata(g) || !Pruner.OrphanExpired(g, cutoff))
  }

  ghost predicate SparedGroups(gs: seq<Pruner.Group>, d: string, cutoff: int) {
    forall g | g in gs :: SparedGroup(g, d, cutoff)
  }

  /** Nothing in the pruner's hands is going to cost the directory an object. */
  ghost predicate Spared(q: Pruner.Prune, d: string) {
    match q.pc
    case Scan(gs) => SparedGroups(gs, d, q.cutoff)
    case Removing(keys, gs) => SparedGroups(gs, d, q.cutoff) && forall k | k in keys :: !Inside(k, d)
    case _ => true
  }

  lemma ShieldedGroup(b: Bucket, cluster: string, g: Pruner.Group, d: string, cutoff: int)
    requires NoSlash(cluster) && g in Pruner.Groups(Pruner.ListItems(b, cluster)) && Shielded(b, d, cutoff)
    ensures SparedGroup(g, d, cutoff)
  {
    Pruner.FreshGroup(b, cluster, g);
    hide Pruner.Groups, Pruner.ListItems, Inside, MetadataKey;
    if g.dir == d && !Pruner.HasMetadata(g) {
      var x := Pruner.Item(MetadataKey(d), if MetadataKey(d) in b then b[MetadataKey(d)].modified else None);
      assert MetadataKey(d) in b ==> x in g.items by { ThreeKeys(d); }
      assert g.items[0] in g.items;
      if YoungUpload(b, d, cutoff) {
        var k :| k in b && Inside(k, d) && b[k].modified.Some? && b[k].modified.value >= cutoff;
        assert Pruner.Item(k, b[k].modified) in g.items;
      }
    }
  }

  lemma DroppedElsewhere(g: Pruner.Group, d: string)
    requires Pruner.Grouped(g) && NoSlash(d) && g.dir != d
    ensures forall k | k in Pruner.KeysOf(g.items) :: !Inside(k, d)
  {
    forall k | k in Pruner.KeysOf(g.items) ensures !Inside(k, d) {
      var i :| 0 <= i < |g.items| && Pruner.KeysOf(g.items)[i] == k;
      assert g.items[i] in g.items;
      if Inside(k, d) { DisjointDirs(k, d, g.dir); }
    }
  }

  /** One call of a pruner leaves a shielded directory alone and goes on sparing it. */
  lemma ShieldStep(q: Pruner.Prune, b: Bucket, c: Publisher.Call, d: string)
    requires Pruner.WellFormed(q) && NoSlash(q.cluster) && NoSlash(d) && Spared(q, d) && Shielded(b, d, q.cutoff)
    ensures Spared(Pruner.Step(q, b, c).0, d) && SameInside(b, Pruner.Step(q, b, c).1, d)
  {
    match q.pc {
      case ListAll =>
        forall g | g in Pruner.Groups(Pruner.ListItems(b, q.cluster)) ensures SparedGroup(g, d, q.cutoff) {
          ShieldedGroup(b, q.cluster, g, d, q.cutoff);
        }
      case Scan(gs) =>
        hide Inside, Pruner.OrphanExpired, Pruner.HasMetadata, Pruner.MetadataVerdict, MetadataKey;
        if gs != [] {
          assert gs[0] in gs && forall g | g in gs[1..] :: g in gs;
          if gs[0].dir != d { DroppedElsewhere(gs[0], d); }
        }
      case Removing(keys, gs) => assert keys[0] in keys;
      case Done(_) =>
    }
  }

  // ---- a directory that nobody is publishing ----------------------------------------------------------------------

  ghost predicate Settled(w: World, b0: Bucket, d: string) {
    NoSlash(d) && SameInside(b0, w.bucket, d)
    && forall i | i in w.procs ::
         Ready(w.procs[i]) && !Publishes(w.procs[i], d)
         && (w.procs[i].Publishing? ==> NoSlash(w.procs[i].pub.art.name) && Publisher.OwnKeys(w.procs[i].pub))
         && (w.procs[i].Pruning? ==> NoSlash(w.procs[i].prune.cluster) && Spared(w.procs[i].prune, d)
                                     && Shielded(b0, d, w.procs[i].prune.cutoff))
  }

  lemma ShieldedFrame(b: Bucket, b': Bucket, d: string, cutoff: int)
    requires SameInside(b, b', d) && Shielded(b, d, cutoff)
    ensures Shielded(b', d, cutoff)
  {
    ThreeKeys(d);
    hide Inside, MetadataKey;
    if YoungUpload(b, d, cutoff) {
      var k :| k in b && Inside(k, d) && b[k].modified.Some? && b[k].modified.value >= cutoff;
      assert SameAt(b, b', k);
    }
  }

  lemma SettledAdvance(w: World, pid: nat, c: Publisher.Call, hash: Bytes -> string, b0: Bucket, d: string)
    requires Settled(w, b0, d) && pid in w.procs
    ensures Settled(Advance(w, pid, c, hash), b0, d)
  {
    hide Publisher.Step, Pruner.Step, Fetcher.Step, Inside, Spared, Shielded, Publisher.OwnKeys;
    match w.procs[pid] {
      case Publishing(p) =>
        Publisher.StepFrame(p, w.bucket, c, hash);
        Publisher.OwnKeysStep(p, w.bucket, c, hash);
        OtherDir(p.art.name, d, w.bucket, Advance(w, pid, c, hash).bucket);
      case Pruning(q) =>
        ShieldedFrame(b0, w.bucket, d, q.cutoff);
        ShieldStep(q, w.bucket, c, d);
        PrunerShrinks(q, w.bucket, c);
      case Fetching(_) =>
    }
  }

  /** Retention never touches a directory that is inside the window: same objects at every point of every behaviour. */
  lemma {:induction false} YoungBackupsSurvive(ws: seq<World>, hash: Bytes -> string, d: string)
    requires Behaviour(ws, hash) && NoSlash(d)
    requires forall i | i in ws[0].procs :: !Publishes(ws[0].procs[i], d)
    requires forall i | i in ws[0].procs && ws[0].procs[i].Pruning? :: Shielded(ws[0].bucket, d, ws[0].procs[i].prune.cutoff)
    ensures Settled(ws[|ws| - 1], ws[0].bucket, d)
  {
    hide Publisher.Step, Pruner.Step, Fetcher.Step, Inside, Shielded, Advance;
    if |ws| > 1 {
      var w, pid, c := LastStep(ws, hash);
      YoungBackupsSurvive(ws[..|ws| - 1], hash, d);
      assert ws[..|ws| - 1][|ws| - 2] == w;
      SettledAdvance(w, pid, c, hash, ws[0].bucket, d);
    }
  }

  // ---- a directory that is being published ------------------------------------------------------------------------

  ghost predicate Fresh(b: Bucket, d: string, since: int) {
    forall k | k in b && Inside(k, d) :: b[k].modified.Some? && b[k].modified.value >= since
  }

  /** The publisher has made its first call. */
  ghost predicate Begun(w: World, pid: nat) { pid in w.procs && w.procs[pid].Publishing? && !w.procs[pid].pub.pc.CheckEmpty? }

  /** It makes none before `since`. */
  ghost predicate IdleBefore(ws: seq<World>, pid: nat, since: int) {
    forall i | 0 <= i < |ws| && Begun(ws[i], pid) :: since <= ws[i].clock
  }

  /** What holds of the publisher `pid` as long as every pruner's cutoff lies before its first call and its own time stamp. */
  ghost predicate Undisturbed(w: World, pid: nat, since: int, hash: Bytes -> string) {
    S3World.Safe(w, hash) && (Begun(w, pid) ==> since <= w.clock) && pid in w.procs && w.procs[pid].Publishing?
    && var p := w.procs[pid].pub; var d := p.art.name;
       PublishRun.Exact(p, w.bucket, hash) && Fresh(w.bucket, d, since)
       && (Publisher.Untouched(p.pc) ==> EmptyDir(w.bucket, d))
       && forall i | i in w.procs && w.procs[i].Pruning? :: Behind(w.procs[i].prune, p.art, since)
  }

  ghost predicate Behind(q: Pruner.Prune, art: Publisher.Artifact, since: int) {
    NoSlash(q.cluster) && Spared(q, art.name) && q.cutoff <= since
    && (art.metadata.Json? && Unixtime(art.metadata.meta).Some? ==> q.cutoff <= Unixtime(art.metadata.meta).value)
  }

  lemma PublisherShields(p: Publisher.Pub, b: Bucket, hash: Bytes -> string, since: int, q: Pruner.Prune)
    requires Publisher.Safe(p, b, hash) && Fresh(b, p.art.name, since) && Behind(q, p.art, since)
    requires Publisher.Untouched(p.pc) ==> EmptyDir(b, p.art.name)
    ensures Shielded(b, p.art.name, q.cutoff)
  {
    var d := p.art.name;
    ThreeKeys(d);
    hide Inside, MetadataKey, PayloadKey, ChecksumKey, Spared, Publisher.OwnKeys;
    if MetadataKey(d) !in b && !EmptyDir(b, d) {
      var k :| k in b && Inside(k, d);
      assert YoungUpload(b, d, q.cutoff);
    }
  }

  lemma ExactFrame(p: Publisher.Pub, b: Bucket, b': Bucket, hash: Bytes -> string)
    requires SameInside(b, b', p.art.name) && PublishRun.Exact(p, b, hash)
    ensures PublishRun.Exact(p, b', hash) && (EmptyDir(b, p.art.name) ==> EmptyDir(b', p.art.name))
  {
    var d := p.art.name;
    ThreeKeys(d);
    hide Inside, PayloadKey, ChecksumKey, MetadataKey, PublishRun.ReportsResidue;
    assert EmptyDir(b, d) == EmptyDir(b', d) by {
      forall k | Inside(k, d) ensures k in b <==> k in b' { assert SameAt(b, b', k); }
    }
  }

  lemma FreshFrame(b: Bucket, b': Bucket, d: string, since: int)
    requires SameInside(b, b', d) && Fresh(b, d, since)
    ensures Fresh(b', d, since)
  {
    forall k | k in b' && Inside(k, d) ensures b'[k].modified.Some? && b'[k].modified.value >= since {
      assert SameAt(b, b', k);
    }
  }

  lemma FreshStep(p: Publisher.Pub, b: Bucket, c: Publisher.Call, hash: Bytes -> string, since: int)
    requires Publisher.WellFormed(p) && Fresh(b, p.art.name, since) && since <= c.now
    ensures Fresh(Publisher.Step(p, b, c, hash).1, p.art.name, since)
  {
    hide Inside, Listing, PayloadKey, ChecksumKey, MetadataKey, Publisher.Reverse, ParseManifest, Matches;
  }

  lemma FirstCallBegins(p: Publisher.Pub, b: Bucket, c: Publisher.Call, hash: Bytes -> string)
    requires Publisher.WellFormed(p)
    ensures !Publisher.Step(p, b, c, hash).0.pc.CheckEmpty?
  {
    hide Inside, Listing, PayloadKey, ChecksumKey, MetadataKey, Publisher.Reverse, ParseManifest, Matches;
  }

  lemma UndisturbedOwnStep(w: World, pid: nat, c: Publisher.Call, since: int, hash: Bytes -> string)
    requires Undisturbed(w, pid, since, hash) && w.clock <= c.now
    requires Begun(Advance(w, pid, c, hash), pid) ==> since <= c.now
    ensures Undisturbed(Advance(w, pid, c, hash), pid, since, hash)
  {
    SafeAdvance(w, pid, c, hash);
    var p := w.procs[pid].pub;
    PublishRun.ExactStep(p, w.bucket, c, hash);
    FirstCallBegins(p, w.bucket, c, hash);
    FreshStep(p, w.bucket, c, hash, since);
    PublishRun.UntouchedBefore(p, w.bucket, c, hash);
    Publisher.StepFrame(p, w.bucket, c, hash);
    hide Publisher.Step, Inside, Spared, PublishRun.Exact, Publisher.Safe, Publisher.OwnKeys, Sound, DistinctNames;
  }

  lemma UndisturbedOtherStep(w: World, pid: nat, i: nat, c: Publisher.Call, since: int, hash: Bytes -> string)
    requires Undisturbed(w, pid, since, hash) && w.clock <= c.now && i in w.procs && i != pid
    ensures Undisturbed(Advance(w, i, c, hash), pid, since, hash)
  {
    SafeAdvance(w, i, c, hash);
    var p, w' := w.procs[pid].pub, Advance(w, i, c, hash);
    var d := p.art.name;
    match w.procs[i] {
      case Publishing(other) =>
        Publisher.StepFrame(other, w.bucket, c, hash);
        Distinct(w, i, pid);
        OtherDir(other.art.name, d, w.bucket, w'.bucket);
      case Pruning(q) =>
        PublisherShields(p, w.bucket, hash, since, q);
        ShieldStep(q, w.bucket, c, d);
        PrunerShrinks(q, w.bucket, c);
      case Fetching(_) =>
    }
    hide Publisher.Step, Pruner.Step, Fetcher.Step, Inside, Spared, PublishRun.Exact, Publisher.Safe, Sound, DistinctNames;
    assert SameInside(w.bucket, w'.bucket, d);
    ExactFrame(p, w.bucket, w'.bucket, hash);
    FreshFrame(w.bucket, w'.bucket, d, since);
  }

  /** A publisher whose first call and whose time stamp are not older than any pruner's cutoff runs as if it were alone. */
  lemma {:induction false} PublishIsUndisturbed(ws: seq<World>, hash: Bytes -> string, pid: nat, since: int)
    requires Behaviour(ws, hash) && Sound(ws[0].bucket, hash) && IdleBefore(ws, pid, since)
    requires pid in ws[0].procs && ws[0].procs[pid].Publishing? && EmptyDir(ws[0].bucket, ws[0].procs[pid].pub.art.name)
    requires forall i | i in ws[0].procs && ws[0].procs[i].Pruning? ::
               Behind(ws[0].procs[i].prune, ws[0].procs[pid].pub.art, since)
    ensures Undisturbed(ws[|ws| - 1], pid, since, hash)
  {
    hide Publisher.Step, Pruner.Step, Fetcher.Step, Inside, Advance, Sound;
    if |ws| == 1 {
      SafeThroughout(ws, hash);
    } else {
      hide Behind, DistinctNames;
      var w, i, c := LastStep(ws, hash);
      PublishIsUndisturbed(ws[..|ws| - 1], hash, pid, since);
      assert ws[..|ws| - 1][|ws| - 2] == w;
      ClockOf(w, i, c, hash);
      if i == pid {
        UndisturbedOwnStep(w, pid, c, since, hash);
      } else {
        UndisturbedOtherStep(w, pid, i, c, since, hash);
      }
    }
  }

  lemma ClockOf(w: World, i: nat, c: Publisher.Call, hash: Bytes -> string)
    requires i in w.procs && Ready(w.procs[i])
    ensures Advance(w, i, c, hash).clock == c.now
  {
  }

  ghost predicate KeptBy(w: World, pid: nat, hash: Bytes -> string) {
    pid in w.procs && w.procs[pid].Publishing?
    && var p := w.procs[pid].pub;
       p.pc.Finished? && p.pc.result.Published?
       ==> Complete(w.bucket, p.art.name)
           && Verified(w.bucket[PayloadKey(p.art.name)].body, w.bucket[MetadataKey(p.art.name)].body, hash)
  }

  /** So a publish that returned normally is complete and verified at every later point, pruners included. */
  lemma PublishedStaysComplete(ws: seq<World>, hash: Bytes -> string, pid: nat, since: int)
    requires Behaviour(ws, hash) && Sound(ws[0].bucket, hash) && IdleBefore(ws, pid, since)
    requires pid in ws[0].procs && ws[0].procs[pid].Publishing? && EmptyDir(ws[0].bucket, ws[0].procs[pid].pub.art.name)
    requires forall i | i in ws[0].procs && ws[0].procs[i].Pruning? ::
               Behind(ws[0].procs[i].prune, ws[0].procs[pid].pub.art, since)
    ensures KeptBy(ws[|ws| - 1], pid, hash)
  {
    PublishIsUndisturbed(ws, hash, pid, since);
    var w := ws[|ws| - 1];
    var p := w.procs[pid].pub;
    ThreeKeys(p.art.name);
    hide Publisher.Step, Pruner.Step, Fetcher.Step, Inside, Advance, Sound, PayloadKey, MetadataKey, ChecksumKey, Behind;
  }
}
