/** The exact condition under which retention spares a publication: two processes, and the races that decide it. */
module S3Race {
  import opened Errors
  import opened Strings
  import opened Keys
  import opened Objects
  import opened S3World
  import opened S3Survival
  import Publisher
  import Pruner

  /** What a publication needs to succeed at all: a directory name and a manifest that describes the payload. */
  ghost predicate Publishable(art: Publisher.Artifact, now: int, hash: Bytes -> string) {
    NoSlash(art.name) && ParseManifest(art.metadata, now).Some?
    && var m := ParseManifest(art.metadata, now).value; Matches(Blob(art.payload), m.size, m.sha, hash)
  }

  /** Pruners work with a cutoff in their past. */
  ghost predicate LooksBack(w: World) {
    forall i | i in w.procs && w.procs[i].Pruning? && !w.procs[i].prune.pc.ListAll? :: w.procs[i].prune.cutoff <= w.clock
  }

  /** The first call of `pid` is made at time `t`. */
  ghost predicate BeginsAt(ws: seq<World>, pid: nat, t: int) {
    exists k | 0 <= k < |ws| - 1 :: FirstCall(ws, pid, k) && ws[k + 1].clock == t
  }

  ghost predicate FirstCall(ws: seq<World>, pid: nat, k: int) {
    0 <= k < |ws| - 1 && (forall i | 0 <= i <= k :: !Begun(ws[i], pid)) && Begun(ws[k + 1], pid)
  }

  /** Any number of processes on a sound bucket; `pid` publishes `art` into a new directory from time `t` on, and no pruner
      has a later cutoff than `cutoff`. */
  ghost predicate Race(ws: seq<World>, pid: nat, art: Publisher.Artifact, t: int, cutoff: int, hash: Bytes -> string) {
    Behaviour(ws, hash) && Sound(ws[0].bucket, hash) && (forall i | 0 <= i < |ws| :: LooksBack(ws[i]))
    && pid in ws[0].procs && ws[0].procs[pid] == Publishing(Publisher.Start(art)) && EmptyDir(ws[0].bucket, art.name)
    && BeginsAt(ws, pid, t)
    && forall i | i in ws[0].procs && ws[0].procs[i].Pruning? :: ws[0].procs[i].prune.cutoff <= cutoff
  }

  /** A publication that has returned normally stays complete and verified, however the processes are interleaved. */
  ghost predicate Keeps(art: Publisher.Artifact, t: int, cutoff: int, hash: Bytes -> string) {
    forall ws: seq<World>, pid: nat | Race(ws, pid, art, t, cutoff, hash) :: KeptBy(ws[|ws| - 1], pid, hash)
  }

  /** The window covers the publication: both its first call and the time stamp in its metadata. */
  ghost predicate InWindow(art: Publisher.Artifact, t: int, cutoff: int) { cutoff <= t && StampInWindow(art, cutoff) }

  ghost predicate StampInWindow(art: Publisher.Artifact, cutoff: int) {
    art.metadata.Json? && Unixtime(art.metadata.meta).Some? ==> cutoff <= Unixtime(art.metadata.meta).value
  }

  // ---- inside the window ------------------------------------------------------------------------------------------

  lemma {:induction false} ClockRises(ws: seq<World>, hash: Bytes -> string)
    requires Behaviour(ws, hash)
    ensures forall i, j | 0 <= i <= j < |ws| :: ws[i].clock <= ws[j].clock
  {
    hide Advance, DistinctNames;
    if |ws| > 1 {
      var w, pid, c := LastStep(ws, hash);
      ClockRises(ws[..|ws| - 1], hash);
      ClockOf(w, pid, c, hash);
      forall i, j | 0 <= i <= j < |ws| ensures ws[i].clock <= ws[j].clock {
        if i < |ws| - 1 {
          assert ws[..|ws| - 1][i].clock <= ws[..|ws| - 1][if j == |ws| - 1 then j - 1 else j].clock;
        }
      }
    }
  }

  lemma KeepsInWindow(art: Publisher.Artifact, t: int, cutoff: int, hash: Bytes -> string)
    requires InWindow(art, t, cutoff)
    ensures Keeps(art, t, cutoff, hash)
  {
    hide KeptBy, DistinctNames, Sound;
    forall ws: seq<World>, pid: nat | Race(ws, pid, art, t, cutoff, hash) ensures KeptBy(ws[|ws| - 1], pid, hash) {
      ClockRises(ws, hash);
      var k :| 0 <= k < |ws| - 1 && FirstCall(ws, pid, k) && ws[k + 1].clock == t;
      forall i | i in ws[0].procs && ws[0].procs[i].Pruning? ensures Behind(ws[0].procs[i].prune, art, t) {
        assert AtStart(ws[0].procs[i]);
      }
      hide Behaviour, Begun;
      assert IdleBefore(ws, pid, t);
      hide Behind, EmptyDir, IdleBefore;
      PublishedStaysComplete(ws, hash, pid, t);
    }
  }

  // ---- outside the window -----------------------------------------------------------------------------------------

  /** One more call of a behaviour. */
  lemma Extend(ws: seq<World>, pid: nat, c: Publisher.Call, hash: Bytes -> string) returns (more: seq<World>)
    requires Behaviour(ws, hash) && forall i | 0 <= i < |ws| :: LooksBack(ws[i])
    requires var w := ws[|ws| - 1];
      pid in w.procs && Ready(w.procs[pid]) && w.clock <= c.now
      && (w.procs[pid].Pruning? ==> w.procs[pid].prune.cutoff <= c.now)
    ensures more == ws + [Advance(ws[|ws| - 1], pid, c, hash)]
    ensures Behaviour(more, hash) && forall i | 0 <= i < |more| :: LooksBack(more[i])
  {
    var w := ws[|ws| - 1];
    var w' := Advance(w, pid, c, hash);
    more := ws + [w'];
    LooksBackStill(w, pid, c, hash);
    hide Advance, DistinctNames, LooksBack;
    assert Next(w, w', hash);
    forall i | 0 <= i < |more| - 1 ensures Next(more[i], more[i + 1], hash) {
      if i < |ws| - 1 { assert Next(ws[i], ws[i + 1], hash); }
    }
  }

  lemma LooksBackStill(w: World, pid: nat, c: Publisher.Call, hash: Bytes -> string)
    requires pid in w.procs && Ready(w.procs[pid]) && w.clock <= c.now && LooksBack(w)
    requires w.procs[pid].Pruning? ==> w.procs[pid].prune.cutoff <= c.now
    ensures LooksBack(Advance(w, pid, c, hash))
  {
    if w.procs[pid].Pruning? { PrunerShrinks(w.procs[pid].prune, w.bucket, c); }
    hide Publisher.Step, Pruner.Step, Fetcher.Step;
  }

  /** Publisher 0 and pruner 1, by their states; the bucket holds nothing but the backup. */
  function Two(b: Bucket, clock: int, p: Publisher.Pub, q: Pruner.Prune): World {
    World(b, clock, map[0 := Publishing(p), 1 := Pruning(q)])
  }

  lemma PublisherMoves(b: Bucket, clock: int, p: Publisher.Pub, q: Pruner.Prune, c: Publisher.Call, hash: Bytes -> string)
    requires Publisher.WellFormed(p)
    ensures var (p', b') := Publisher.Step(p, b, c, hash);
      Advance(Two(b, clock, p, q), 0, c, hash) == Two(b', c.now, p', q)
  {
    hide Publisher.Step;
  }

  lemma PrunerMoves(b: Bucket, clock: int, p: Publisher.Pub, q: Pruner.Prune, c: Publisher.Call, hash: Bytes -> string)
    requires Pruner.WellFormed(q)
    ensures var (q', b') := Pruner.Step(q, b, c);
      Advance(Two(b, clock, p, q), 1, c, hash) == Two(b', c.now, p, q')
  {
    hide Pruner.Step;
  }

  function Works(now: int): Publisher.Call { Publisher.Call(Publisher.Works, now) }

  function ManifestAt(art: Publisher.Artifact, t: int): Manifest
    requires ParseManifest(art.metadata, t).Some?
  {
    ParseManifest(art.metadata, t).value
  }

  /** The publisher after `n` calls that worked, the first three at time `t`. */
  function PubAfter(art: Publisher.Artifact, t: int, n: nat): Publisher.Pub
    requires ParseManifest(art.metadata, t).Some?
  {
    var m, up := ManifestAt(art, t), [PayloadKey(art.name), ChecksumKey(art.name)];
    if n == 0 then Publisher.Start(art)
    else Publisher.Pub(art,
      match n
      case 1 => Publisher.PutPayload case 2 => Publisher.PutChecksum case 3 => Publisher.OpenReadback
      case 4 => Publisher.Download case 5 => Publisher.DropReadback case 6 => Publisher.PutMetadata
      case _ => Publisher.Finished(Publisher.Published(art.name, m.sha, m.size, m.unixtime)),
      m, if n == 1 then [] else if n == 2 then up[..1] else if n < 7 then up else up + [MetadataKey(art.name)],
      n == 4 || n == 5, E_STORAGE, [], [])
  }

  /** And its objects. */
  function HeldAfter(art: Publisher.Artifact, t: int, late: int, n: nat): Bucket {
    var payload := map[PayloadKey(art.name) := Obj(Blob(art.payload), Some(t))];
    var both := payload[ChecksumKey(art.name) := Obj(Blob(art.checksum), Some(t))];
    if n < 2 then map[] else if n == 2 then payload else if n < 7 then both
    else both[MetadataKey(art.name) := Obj(art.metadata, Some(late))]
  }

  lemma UploadStep(art: Publisher.Artifact, t: int, late: int, n: nat, hash: Bytes -> string)
    requires Publishable(art, t, hash) && n < 3
    ensures Publisher.Step(PubAfter(art, t, n), HeldAfter(art, t, late, n), Works(t), hash)
            == (PubAfter(art, t, n + 1), HeldAfter(art, t, late, n + 1))
  {
    hide PayloadKey, ChecksumKey, MetadataKey, ParseManifest, Matches;
    ThreeKeys(art.name);
    hide Inside;
    var up := [PayloadKey(art.name), ChecksumKey(art.name)];
    assert up[..1] == [PayloadKey(art.name)] && [PayloadKey(art.name)] + [ChecksumKey(art.name)] == up;
    var b, b' := HeldAfter(art, t, late, n), HeldAfter(art, t, late, n + 1);
    var p, p' := PubAfter(art, t, n), PubAfter(art, t, n + 1);
    assert n == 1 ==> Publisher.Put(b, PayloadKey(art.name), Blob(art.payload), Works(t)) == b';
    assert n == 2 ==> Publisher.Put(b, ChecksumKey(art.name), Blob(art.checksum), Works(t)) == b';
    assert n == 1 ==> Publisher.Step(p, b, Works(t), hash).0 == p';
    assert n == 2 ==> Publisher.Step(p, b, Works(t), hash).0 == p';
    NothingListed(art.name + "/");
  }

  lemma NothingListed(prefix: string)
    ensures Listing(map[], prefix) == []
  {
    var none: Bucket := map[];
    assert (set k | k in none && prefix <= k) == {};
  }

  lemma CommitStep(art: Publisher.Artifact, t: int, late: int, n: nat, hash: Bytes -> string)
    requires Publishable(art, t, hash) && 3 <= n < 7
    ensures Publisher.Step(PubAfter(art, t, n), HeldAfter(art, t, late, n), Works(late), hash)
            == (PubAfter(art, t, n + 1), HeldAfter(art, t, late, n + 1))
  {
    hide PayloadKey, ChecksumKey, MetadataKey, ParseManifest, Matches, Listing;
    ThreeKeys(art.name);
    hide Inside;
  }

  lemma PublishesOnce(ws: seq<World>, art: Publisher.Artifact, t: int, late: int, n: nat, q: Pruner.Prune,
                      hash: Bytes -> string)
    returns (more: seq<World>)
    requires Publishable(art, t, hash) && t <= late && n < 7
    requires Behaviour(ws, hash) && forall i | 0 <= i < |ws| :: LooksBack(ws[i])
    requires ws[|ws| - 1] == Two(HeldAfter(art, t, late, n), ws[|ws| - 1].clock, PubAfter(art, t, n), q)
    requires ws[|ws| - 1].clock <= TimeOf(t, late, n)
    ensures Behaviour(more, hash) && (forall i | 0 <= i < |more| :: LooksBack(more[i]))
    ensures ws <= more && |more| == |ws| + 1
    ensures more[|more| - 1] == Two(HeldAfter(art, t, late, n + 1), TimeOf(t, late, n), PubAfter(art, t, n + 1), q)
  {
    var b, clock, p := HeldAfter(art, t, late, n), ws[|ws| - 1].clock, PubAfter(art, t, n);
    var c := Works(TimeOf(t, late, n));
    var p', b' := PubAfter(art, t, n + 1), HeldAfter(art, t, late, n + 1);
    NeverCleans(art, t, n);
    assert Publisher.Step(p, b, c, hash) == (p', b') by {
      if n < 3 { UploadStep(art, t, late, n, hash); } else { CommitStep(art, t, late, n, hash); }
    }
    PublisherMoves(b, clock, p, q, c, hash);
    hide PubAfter, HeldAfter, Advance, Publisher.Step, Publishable, LooksBack, Behaviour, TimeOf, Publisher.WellFormed;
    more := Extend(ws, 0, c, hash);
  }

  /** The first three calls, up to the checksum, are made at `t`, the others at `late`. */
  function TimeOf(t: int, late: int, n: nat): int { if n < 3 then t else late }

  /** Publisher 0 goes on from its call `n` to its call `n'`. */
  lemma {:induction false} Publishes(ws: seq<World>, art: Publisher.Artifact, t: int, late: int, n: nat, n': nat,
                                     q: Pruner.Prune, hash: Bytes -> string)
    returns (more: seq<World>)
    requires Publishable(art, t, hash) && t <= late && n <= n' <= 7
    requires Behaviour(ws, hash) && forall i | 0 <= i < |ws| :: LooksBack(ws[i])
    requires ws[|ws| - 1] == Two(HeldAfter(art, t, late, n), ws[|ws| - 1].clock, PubAfter(art, t, n), q)
    requires ws[|ws| - 1].clock <= TimeOf(t, late, n)
    ensures Behaviour(more, hash) && (forall i | 0 <= i < |more| :: LooksBack(more[i]))
    ensures ws <= more && |more| == |ws| + (n' - n)
    ensures var w := more[|more| - 1];
      w == Two(HeldAfter(art, t, late, n'), w.clock, PubAfter(art, t, n'), q)
      && w.clock == if n == n' then ws[|ws| - 1].clock else TimeOf(t, late, n' - 1)
    decreases n' - n
  {
    more := ws;
    hide PubAfter, HeldAfter, Publishable, LooksBack, Behaviour;
    if n < n' {
      more := PublishesOnce(ws, art, t, late, n, q, hash);
      more := Publishes(more, art, t, late, n + 1, n', q, hash);
    }
  }

  lemma NeverCleans(art: Publisher.Artifact, t: int, n: nat)
    requires ParseManifest(art.metadata, t).Some?
    ensures Publisher.WellFormed(PubAfter(art, t, n))
    ensures PubAfter(art, t, n).pc.CheckEmpty? <==> n == 0
    ensures n >= 7 ==> PubAfter(art, t, n).pc.Finished? && PubAfter(art, t, n).pc.result.Published?
    ensures PubAfter(art, t, n).art == art
  {
  }

  /** One call of pruner 1. */
  lemma Prunes(ws: seq<World>, late: int, b: Bucket, p: Publisher.Pub, q: Pruner.Prune, hash: Bytes -> string)
    returns (more: seq<World>)
    requires Behaviour(ws, hash) && forall i | 0 <= i < |ws| :: LooksBack(ws[i])
    requires ws[|ws| - 1] == Two(b, ws[|ws| - 1].clock, p, q) && ws[|ws| - 1].clock <= late
    requires Pruner.WellFormed(q) && q.cutoff <= late
    ensures Behaviour(more, hash) && (forall i | 0 <= i < |more| :: LooksBack(more[i]))
    ensures ws <= more && |more| == |ws| + 1
    ensures var (q', b') := Pruner.Step(q, b, Works(late)); more[|more| - 1] == Two(b', late, p, q')
  {
    PrunerMoves(b, ws[|ws| - 1].clock, p, q, Works(late), hash);
    hide Advance, Pruner.Step, LooksBack, Behaviour;
    more := Extend(ws, 1, Works(late), hash);
  }

  lemma Opening(art: Publisher.Artifact, t: int, cluster: string, cutoff: int, hash: Bytes -> string)
    returns (ws: seq<World>)
    requires NoSlash(art.name) && NoSlash(cluster)
    ensures ws == [Two(map[], t, Publisher.Start(art), Pruner.Start(cluster, cutoff))]
    ensures Behaviour(ws, hash) && LooksBack(ws[0]) && Sound(ws[0].bucket, hash) && EmptyDir(ws[0].bucket, art.name)
  {
    ws := [Two(map[], t, Publisher.Start(art), Pruner.Start(cluster, cutoff))];
  }

  /** The calls of a race that ends badly: begun at `t`, published, and incomplete. */
  lemma IsLostRace(ws: seq<World>, art: Publisher.Artifact, t: int, cluster: string, cutoff: int, b: Bucket,
                  hash: Bytes -> string)
    requires Publishable(art, t, hash) && Behaviour(ws, hash) && (forall i | 0 <= i < |ws| :: LooksBack(ws[i])) && |ws| > 1
    requires ws[0] == Two(map[], t, Publisher.Start(art), Pruner.Start(cluster, cutoff))
    requires Begun(ws[1], 0) && ws[1].clock == t
    requires ws[|ws| - 1].bucket == b && !Complete(b, art.name)
    requires 0 in ws[|ws| - 1].procs && ws[|ws| - 1].procs[0] == Publishing(PubAfter(art, t, 7))
    ensures Race(ws, 0, art, t, cutoff, hash) && !KeptBy(ws[|ws| - 1], 0, hash)
  {
    NeverCleans(art, t, 7);
    hide PubAfter, LooksBack, Behaviour, Complete, Publishable;
    assert FirstCall(ws, 0, 0);
    hide FirstCall;
    assert ws[0 + 1].clock == t;
  }

  predicate KeyOfBackup(k: string, d: string) { k == PayloadKey(d) || k == ChecksumKey(d) || k == MetadataKey(d) }

  /** Nothing but this directory, and it is to go: by its metadata, or, without metadata, by its uploads. */
  ghost predicate Doomed(b: Bucket, d: string, cutoff: int) {
    NoSlash(d) && PayloadKey(d) in b && (forall k | k in b :: KeyOfBackup(k, d))
    && if MetadataKey(d) in b then Pruner.MetadataVerdict(b, d, cutoff) == Pruner.Drop
       else forall k | k in b :: b[k].modified.Some? && b[k].modified.value < cutoff
  }

  lemma DoomedListed(b: Bucket, d: string, cluster: string, cutoff: int)
    requires Doomed(b, d, cutoff) && NoSlash(cluster) && ClusterPrefix(cluster) <= d
    ensures Pruner.Groups(Pruner.ListItems(b, cluster)) != []
  {
    var items := Pruner.ListItems(b, cluster);
    var x := Pruner.Item(PayloadKey(d), b[PayloadKey(d)].modified);
    ThreeKeys(d);
    Pruner.ItemListed(b, cluster, x);
    PrefixOfDir(cluster, d, PayloadKey(d));
    InsideIsDir(PayloadKey(d), d);
    Pruner.GroupsSelect(items);
    Pruner.SelectMembers(items, d);
    hide Inside, PayloadKey, ChecksumKey, ClusterPrefix, Pruner.Select, Pruner.ListItems, Pruner.Groups, Dir;
    assert x in Pruner.Find(Pruner.Groups(items), d);
  }

  lemma DoomedGroup(b: Bucket, d: string, cluster: string, cutoff: int, g: Pruner.Group)
    requires Doomed(b, d, cutoff) && NoSlash(cluster) && g in Pruner.Groups(Pruner.ListItems(b, cluster))
    ensures g.items != [] && g.dir == d && forall y | y in g.items :: KeyOfBackup(y.key, d)
    ensures if Pruner.HasMetadata(g) then Pruner.MetadataVerdict(b, d, cutoff) == Pruner.Drop
            else Pruner.OrphanExpired(g, cutoff)
  {
    Pruner.FreshGroup(b, cluster, g);
    ThreeKeys(d);
    hide Inside, PayloadKey, ChecksumKey, MetadataKey, ClusterPrefix, Pruner.ListItems, Pruner.Groups, Pruner.Newest,
         Pruner.MetadataVerdict;
    var y := g.items[0];
    assert y in g.items && Inside(y.key, d);
    DisjointDirs(y.key, d, g.dir);
    if MetadataKey(d) in b {
      var x := Pruner.Item(MetadataKey(d), b[MetadataKey(d)].modified);
      assert x in g.items;
    } else {
      forall i | 0 <= i < |g.items| ensures g.items[i].key != MetadataKey(d) { assert g.items[i] in g.items; }
    }
  }

  /** Listing and verdict leave the pruner with an object of the backup to remove, whatever the bucket holds by then. */
  lemma DoomedIsTaken(b: Bucket, d: string, cluster: string, cutoff: int, now: int)
    returns (q: Pruner.Prune, r: Pruner.Prune)
    requires Doomed(b, d, cutoff) && NoSlash(cluster) && ClusterPrefix(cluster) <= d
    ensures Pruner.Step(Pruner.Start(cluster, cutoff), b, Works(now)) == (q, b) && Pruner.WellFormed(q)
    ensures Pruner.Step(q, b, Works(now)) == (r, b) && Pruner.WellFormed(r) && r.cutoff == q.cutoff == cutoff
    ensures r.pc.Removing? && KeyOfBackup(r.pc.keys[0], d)
  {
    var gs := Pruner.Groups(Pruner.ListItems(b, cluster));
    q := Pruner.Step(Pruner.Start(cluster, cutoff), b, Works(now)).0;
    r := Pruner.Step(q, b, Works(now)).0;
    assert q.pc == Pruner.Scan(gs);
    DoomedListed(b, d, cluster, cutoff);
    DoomedGroup(b, d, cluster, cutoff, gs[0]);
    hide Inside, PayloadKey, ChecksumKey, MetadataKey, ClusterPrefix, Pruner.ListItems, Pruner.Groups, Pruner.OrphanExpired,
         Pruner.HasMetadata, Doomed, Pruner.MetadataVerdict;
    assert r.pc == Pruner.Removing(Pruner.KeysOf(gs[0].items), gs[1..]);
    assert gs[0].items[0] in gs[0].items;
  }

  lemma RemovalBreaks(b: Bucket, d: string, r: Pruner.Prune, now: int)
    requires r.pc.Removing? && Pruner.WellFormed(r) && KeyOfBackup(r.pc.keys[0], d)
    ensures !Complete(Pruner.Step(r, b, Works(now)).1, d)
  {
    hide PayloadKey, ChecksumKey, MetadataKey;
  }

  lemma UploadIsDoomed(art: Publisher.Artifact, t: int, late: int, cutoff: int, hash: Bytes -> string)
    requires NoSlash(art.name) && t < cutoff
    ensures Doomed(HeldAfter(art, t, late, 3), art.name, cutoff)
  {
    ThreeKeys(art.name);
    hide PayloadKey, ChecksumKey, MetadataKey, Inside;
  }

  lemma OldStampIsDoomed(art: Publisher.Artifact, t: int, late: int, cutoff: int)
    requires NoSlash(art.name) && !StampInWindow(art, cutoff)
    ensures Doomed(HeldAfter(art, t, late, 7), art.name, cutoff)
  {
    ThreeKeys(art.name);
    hide PayloadKey, ChecksumKey, MetadataKey, Inside;
  }

  /** The first three calls of the publication. */
  lemma Uploaded(art: Publisher.Artifact, t: int, late: int, q: Pruner.Prune, hash: Bytes -> string) returns (ws: seq<World>)
    requires Publishable(art, t, hash) && q == Pruner.Start(q.cluster, q.cutoff) && NoSlash(q.cluster) && t <= late
    ensures Behaviour(ws, hash) && (forall i | 0 <= i < |ws| :: LooksBack(ws[i])) && |ws| == 4
    ensures ws[0] == Two(map[], t, Publisher.Start(art), q) && Begun(ws[1], 0) && ws[1].clock == t
    ensures ws[3] == Two(HeldAfter(art, t, late, 3), t, PubAfter(art, t, 3), q)
  {
    ws := Opening(art, t, q.cluster, q.cutoff, hash);
    StartStates(art, t, late);
    NeverCleans(art, t, 1);
    hide *;
    ws := Publishes(ws, art, t, late, 0, 1, q, hash);
    TwoBegun(HeldAfter(art, t, late, 1), t, PubAfter(art, t, 1), q);
    ws := Publishes(ws, art, t, late, 1, 3, q, hash);
  }

  /** A slow upload: payload and checksum are stored at `t`, a pruner whose cutoff has passed `t` lists the bucket and finds
      an expired orphan, the publisher commits and returns, and the pruner carries out its verdict. */
  lemma SlowUploadLoses(art: Publisher.Artifact, t: int, cluster: string, cutoff: int, hash: Bytes -> string)
    returns (ws: seq<World>)
    requires Publishable(art, t, hash) && NoSlash(cluster) && ClusterPrefix(cluster) <= art.name && t < cutoff
    ensures Race(ws, 0, art, t, cutoff, hash) && !KeptBy(ws[|ws| - 1], 0, hash)
  {
    UploadIsDoomed(art, t, cutoff, cutoff, hash);
    var b3, b7, p3, p7 := HeldAfter(art, t, cutoff, 3), HeldAfter(art, t, cutoff, 7), PubAfter(art, t, 3), PubAfter(art, t, 7);
    var q0 := Pruner.Start(cluster, cutoff);
    hide *;
    var q1, q2 := DoomedIsTaken(b3, art.name, cluster, cutoff, cutoff);
    RemovalBreaks(b7, art.name, q2, cutoff);
    ws := Uploaded(art, t, cutoff, q0, hash);
    ws := Prunes(ws, cutoff, b3, p3, q0, hash);
    ws := Prunes(ws, cutoff, b3, p3, q1, hash);
    ws := Publishes(ws, art, t, cutoff, 3, 7, q2, hash);
    ws := Prunes(ws, cutoff, b7, p7, q2, hash);
    IsLostRace(ws, art, t, cluster, cutoff, ws[|ws| - 1].bucket, hash);
  }

  /** All of the publication. */
  lemma Alone(art: Publisher.Artifact, t: int, late: int, q: Pruner.Prune, hash: Bytes -> string) returns (ws: seq<World>)
    requires Publishable(art, t, hash) && q == Pruner.Start(q.cluster, q.cutoff) && NoSlash(q.cluster) && t <= late
    ensures Behaviour(ws, hash) && (forall i | 0 <= i < |ws| :: LooksBack(ws[i])) && |ws| == 8
    ensures ws[0] == Two(map[], t, Publisher.Start(art), q) && Begun(ws[1], 0) && ws[1].clock == t
    ensures ws[7] == Two(HeldAfter(art, t, late, 7), late, PubAfter(art, t, 7), q)
  {
    hide PubAfter, HeldAfter, Publishable, LooksBack, Behaviour, Begun;
    ws := Uploaded(art, t, late, q, hash);
    ws := Publishes(ws, art, t, late, 3, 7, q, hash);
  }

  /** An old time stamp: the publication is over before the pruner comes and reads the metadata. */
  lemma OldStampLoses(art: Publisher.Artifact, t: int, cluster: string, cutoff: int, hash: Bytes -> string)
    returns (ws: seq<World>)
    requires Publishable(art, t, hash) && NoSlash(cluster) && ClusterPrefix(cluster) <= art.name
             && !StampInWindow(art, cutoff)
    ensures Race(ws, 0, art, t, cutoff, hash) && !KeptBy(ws[|ws| - 1], 0, hash)
  {
    var late := if t < cutoff then cutoff else t;
    OldStampIsDoomed(art, t, late, cutoff);
    var b7, p7, q0 := HeldAfter(art, t, late, 7), PubAfter(art, t, 7), Pruner.Start(cluster, cutoff);
    hide *;
    var q1, q2 := DoomedIsTaken(b7, art.name, cluster, cutoff, late);
    RemovalBreaks(b7, art.name, q2, late);
    ws := Alone(art, t, late, q0, hash);
    ws := Prunes(ws, late, b7, p7, q0, hash);
    ws := Prunes(ws, late, b7, p7, q1, hash);
    ws := Prunes(ws, late, b7, p7, q2, hash);
    IsLostRace(ws, art, t, cluster, cutoff, ws[|ws| - 1].bucket, hash);
  }

  /** Retention spares a publication, in every interleaving of any number of processes and under every fault, exactly if
      the cutoff is not later than the publisher's first call and not later than the time stamp in the metadata. */
  lemma KeepsIffInWindow(art: Publisher.Artifact, t: int, cluster: string, cutoff: int, hash: Bytes -> string)
    requires Publishable(art, t, hash) && NoSlash(cluster) && ClusterPrefix(cluster) <= art.name
    ensures Keeps(art, t, cutoff, hash) <==> InWindow(art, t, cutoff)
  {
    hide Race, KeptBy, Publishable, StampInWindow, ClusterPrefix;
    if InWindow(art, t, cutoff) {
      KeepsInWindow(art, t, cutoff, hash);
    } else if t < cutoff {
      var ws := SlowUploadLoses(art, t, cluster, cutoff, hash);
    } else {
      var ws := OldStampLoses(art, t, cluster, cutoff, hash);
    }
  }

  lemma StartStates(art: Publisher.Artifact, t: int, late: int)
    requires ParseManifest(art.metadata, t).Some?
    ensures HeldAfter(art, t, late, 0) == map[] && PubAfter(art, t, 0) == Publisher.Start(art)
  {
  }

  lemma TwoBegun(b: Bucket, clock: int, p: Publisher.Pub, q: Pruner.Prune)
    ensures Begun(Two(b, clock, p, q), 0) <==> !p.pc.CheckEmpty?
  {
  }
}
