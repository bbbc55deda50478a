/** Restore reading while backups are being published and pruned: a fetch that returns is never torn. */
module S3Restore {
  import opened Errors
  import opened Strings
  import opened Keys
  import opened Objects
  import opened S3World
  import Publisher
  import PublishRun
  import Pruner
  import Fetcher

  /** From here on the directory can only lose objects: its payload, while there, is the one `m` describes, and its
      metadata, while there, is `m`. */
  ghost predicate Sealed(w: World, d: string, m: Meta, hash: Bytes -> string) {
    NoSlash(d)
    && (MetadataKey(d) in w.bucket ==> w.bucket[MetadataKey(d)].body == Json(m))
    && (PayloadKey(d) in w.bucket ==> Verified(w.bucket[PayloadKey(d)].body, Json(m), hash))
    && forall i | i in w.procs && Publishes(w.procs[i], d) :: Publisher.Closing(w.procs[i].pub.pc)
  }

  /** Backup names are new: a publisher that has written nothing owns an empty directory. */
  ghost predicate NewNames(w: World) {
    forall i | i in w.procs && w.procs[i].Publishing? ::
      Publisher.Untouched(w.procs[i].pub.pc) ==> EmptyDir(w.bucket, w.procs[i].pub.art.name)
  }

  lemma ClosingOnlyShrinks(p: Publisher.Pub, b: Bucket, c: Publisher.Call, hash: Bytes -> string)
    requires Publisher.WellFormed(p) && Publisher.Closing(p.pc)
    ensures Publisher.Closing(Publisher.Step(p, b, c, hash).0.pc) && Shrinks(b, Publisher.Step(p, b, c, hash).1)
  {
    if Publisher.CleaningUp(p.pc) {
      Publisher.BackwardShape(p, b, c);
    }
  }

  lemma SealedByRemovals(w: World, w': World, d: string, m: Meta, hash: Bytes -> string)
    requires Sealed(w, d, m, hash) && w'.procs.Keys == w.procs.Keys
    requires forall k | Inside(k, d) && k in w'.bucket :: k in w.bucket && w'.bucket[k] == w.bucket[k]
    requires forall i | i in w'.procs && Publishes(w'.procs[i], d) :: Publisher.Closing(w'.procs[i].pub.pc)
    ensures Sealed(w', d, m, hash)
  {
    ThreeKeys(d);
  }

  lemma SealedAdvance(w: World, pid: nat, c: Publisher.Call, d: string, m: Meta, hash: Bytes -> string)
    requires S3World.Safe(w, hash) && pid in w.procs && Sealed(w, d, m, hash)
    ensures Sealed(Advance(w, pid, c, hash), d, m, hash)
  {
    var w' := Advance(w, pid, c, hash);
    match w.procs[pid] {
      case Publishing(p) =>
        Publisher.StepFrame(p, w.bucket, c, hash);
        if p.art.name == d {
          assert Publishes(w.procs[pid], d);
          ClosingOnlyShrinks(p, w.bucket, c, hash);
        } else {
          OtherDir(p.art.name, d, w.bucket, w'.bucket);
        }
      case Pruning(q) => PrunerShrinks(q, w.bucket, c);
      case Fetching(_) =>
    }
    NamesKept(w, pid, c, hash);
    hide Publisher.Step, Pruner.Step, Fetcher.Step, Inside, DistinctNames, Sound, Publisher.Safe, PayloadKey, MetadataKey,
         Verified;
    forall k | Inside(k, d) && k in w'.bucket ensures k in w.bucket && w'.bucket[k] == w.bucket[k] {
      if w.procs[pid].Publishing? && w.procs[pid].pub.art.name != d {
        assert SameAt(w.bucket, w'.bucket, k);
      }
    }
    forall i | i in w'.procs && Publishes(w'.procs[i], d) ensures Publisher.Closing(w'.procs[i].pub.pc) {
      assert Publishes(w.procs[i], d);
    }
    SealedByRemovals(w, w', d, m, hash);
  }

  lemma NewNamesAdvance(w: World, pid: nat, c: Publisher.Call, hash: Bytes -> string)
    requires S3World.Safe(w, hash) && NewNames(w) && pid in w.procs
    ensures NewNames(Advance(w, pid, c, hash))
  {
    var w' := Advance(w, pid, c, hash);
    match w.procs[pid] {
      case Publishing(p) =>
        Publisher.StepFrame(p, w.bucket, c, hash);
        PublishRun.UntouchedBefore(p, w.bucket, c, hash);
      case Pruning(q) => PrunerShrinks(q, w.bucket, c);
      case Fetching(_) =>
    }
    hide Publisher.Step, Pruner.Step, Fetcher.Step, Inside, DistinctNames, Sound;
    forall i | i in w'.procs && w'.procs[i].Publishing? && Publisher.Untouched(w'.procs[i].pub.pc)
      ensures EmptyDir(w'.bucket, w'.procs[i].pub.art.name)
    {
      if i != pid && w.procs[pid].Publishing? {
        Distinct(w, i, pid);
        OtherDir(w.procs[pid].pub.art.name, w.procs[i].pub.art.name, w.bucket, w'.bucket);
        assert forall k | k in w'.bucket && Inside(k, w'.procs[i].pub.art.name) :: SameAt(w.bucket, w'.bucket, k);
      }
    }
  }

  /** Metadata that can be read seals its directory. */
  lemma ReadSeals(w: World, d: string, hash: Bytes -> string)
    requires S3World.Safe(w, hash) && NewNames(w) && NoSlash(d)
    requires MetadataKey(d) in w.bucket && w.bucket[MetadataKey(d)].body.Json?
    ensures Sealed(w, d, w.bucket[MetadataKey(d)].body.meta, hash)
  {
    ThreeKeys(d);
    assert PayloadKey(d) in w.bucket ==> Committed(w.bucket, d);
    hide Inside, Publisher.OwnKeys, Verified;
    forall i | i in w.procs && Publishes(w.procs[i], d) ensures Publisher.Closing(w.procs[i].pub.pc) {
      assert Publisher.Safe(w.procs[i].pub, w.bucket, hash);
    }
  }

  ghost predicate Faithful(w: World, f: Fetcher.Fetch, hash: Bytes -> string) {
    match f.pc
    case ListAll => true
    case Read(dirs, best) =>
      (forall d | d in dirs :: NoSlash(d)) && (best.Some? ==> Sealed(w, best.value.dir, best.value.meta, hash))
    case GetPayload(x) => Sealed(w, x.dir, x.meta, hash)
    case GetChecksum(x, payload) => Sealed(w, x.dir, x.meta, hash) && Verified(payload, Json(x.meta), hash)
    case GetMetadata(x, payload, _) => Sealed(w, x.dir, x.meta, hash) && Verified(payload, Json(x.meta), hash)
    case Done(r) => r.Ok? ==> Verified(r.value.payload, r.value.metadata, hash)
  }

  lemma ListedDirs(b: Bucket, cluster: string)
    ensures var keys := Listing(b, ClusterPrefix(cluster)); forall d | d in Fetcher.CompleteDirs(keys, |keys|) :: NoSlash(d)
  {
    var keys := Listing(b, ClusterPrefix(cluster));
    Fetcher.CompleteDirsMembers(keys, |keys|);
    hide Fetcher.CompleteIn;
  }

  lemma FaithfulStep(w: World, f: Fetcher.Fetch, c: Publisher.Call, hash: Bytes -> string)
    requires S3World.Safe(w, hash) && NewNames(w) && Faithful(w, f, hash)
    ensures Faithful(w, Fetcher.Step(f, w.bucket, c), hash)
  {
    hide Listing, Fetcher.CompleteDirs;
    match f.pc {
      case ListAll => ListedDirs(w.bucket, f.cluster);
      case Read(dirs, best) =>
        if dirs != [] {
          assert dirs[0] in dirs;
          if MetadataKey(dirs[0]) in w.bucket && w.bucket[MetadataKey(dirs[0])].body.Json? {
            ReadSeals(w, dirs[0], hash);
          }
        }
        hide Sealed, Inside, Verified, S3World.Safe, NewNames;
      case _ => hide Inside, Verified, S3World.Safe, NewNames;
    }
  }

  ghost predicate AllFaithful(w: World, hash: Bytes -> string) {
    S3World.Safe(w, hash) && NewNames(w)
    && forall i | i in w.procs && w.procs[i].Fetching? :: Faithful(w, w.procs[i].fetch, hash)
  }

  lemma FaithfulFrame(w: World, pid: nat, c: Publisher.Call, f: Fetcher.Fetch, hash: Bytes -> string)
    requires S3World.Safe(w, hash) && pid in w.procs && Faithful(w, f, hash)
    ensures Faithful(Advance(w, pid, c, hash), f, hash)
  {
    hide Sealed, Advance, Inside, Verified, S3World.Safe;
    match f.pc {
      case Read(_, best) => if best.Some? { SealedAdvance(w, pid, c, best.value.dir, best.value.meta, hash); }
      case GetPayload(x) => SealedAdvance(w, pid, c, x.dir, x.meta, hash);
      case GetChecksum(x, _) => SealedAdvance(w, pid, c, x.dir, x.meta, hash);
      case GetMetadata(x, _, _) => SealedAdvance(w, pid, c, x.dir, x.meta, hash);
      case _ =>
    }
  }

  lemma AllFaithfulAdvance(w: World, pid: nat, c: Publisher.Call, hash: Bytes -> string)
    requires AllFaithful(w, hash) && pid in w.procs
    ensures AllFaithful(Advance(w, pid, c, hash), hash)
  {
    hide Publisher.Step, Pruner.Step, Fetcher.Step, Inside, Sealed, Faithful, Sound, DistinctNames, NewNames;
    var w' := Advance(w, pid, c, hash);
    SafeAdvance(w, pid, c, hash);
    NewNamesAdvance(w, pid, c, hash);
    forall i | i in w'.procs && w'.procs[i].Fetching? ensures Faithful(w', w'.procs[i].fetch, hash) {
      if i == pid {
        FaithfulStep(w, w.procs[pid].fetch, c, hash);
      }
      var f := if i == pid then Fetcher.Step(w.procs[pid].fetch, w.bucket, c) else w.procs[i].fetch;
      FaithfulFrame(w, pid, c, f, hash);
    }
  }

  /** Every fetch that returns has downloaded a payload that its metadata describes, although listing, metadata and
      payload were read at different moments with publishers and pruners running. */
  lemma FetchedIsVerified(ws: seq<World>, hash: Bytes -> string)
    requires Behaviour(ws, hash) && NothingTorn(ws[0].bucket, hash) && NewNames(ws[0])
    ensures var w := ws[|ws| - 1];
      forall i | i in w.procs && w.procs[i].Fetching? && w.procs[i].fetch.pc.Done? && w.procs[i].fetch.pc.r.Ok? ::
        Fits(w.procs[i].fetch.pc.r.value.payload, w.procs[i].fetch.pc.r.value.metadata, hash)
  {
    SoundIff(ws[0].bucket, hash);
    FaithfulThroughout(ws, hash);
    var w := ws[|ws| - 1];
    hide Publisher.Step, Pruner.Step, Fetcher.Step, Advance, Sound, NewNames, Verified, Fits, NothingTorn;
    forall i | i in w.procs && w.procs[i].Fetching? && w.procs[i].fetch.pc.Done? && w.procs[i].fetch.pc.r.Ok?
      ensures Fits(w.procs[i].fetch.pc.r.value.payload, w.procs[i].fetch.pc.r.value.metadata, hash)
    {
      assert Faithful(w, w.procs[i].fetch, hash);
      VerifiedFits(w.procs[i].fetch.pc.r.value.payload, w.procs[i].fetch.pc.r.value.metadata, hash);
    }
  }

  lemma {:induction false} FaithfulThroughout(ws: seq<World>, hash: Bytes -> string)
    requires Behaviour(ws, hash) && Sound(ws[0].bucket, hash) && NewNames(ws[0])
    ensures AllFaithful(ws[|ws| - 1], hash)
  {
    hide Publisher.Step, Pruner.Step, Fetcher.Step, Inside, Advance, Sound, NewNames, DistinctNames;
    if |ws| == 1 {
      SafeThroughout(ws, hash);
    } else {
      var w, pid, c := LastStep(ws, hash);
      FaithfulThroughout(ws[..|ws| - 1], hash);
      assert ws[..|ws| - 1][|ws| - 2] == w;
      AllFaithfulAdvance(w, pid, c, hash);
    }
  }
}
