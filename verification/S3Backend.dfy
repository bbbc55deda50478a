/** The S3 backend as the program has it: methods over one mutable store, proved against the step machine and against the
    declarative reading of retention. */
module S3Backend {
  import opened Errors
  import opened Strings
  import opened Keys
  import opened Objects
  import opened Publisher
  import opened PublishRun
  import Pruner
  import Retention
  import Fetcher

  /** The bucket and the fault schedule: call number `tick` is answered by `plan(tick)`. */
  class ObjectStore {
    const plan: nat -> Call
    var objects: Bucket
    var tick: nat

    constructor (plan: nat -> Call, objects: Bucket)
      ensures this.plan == plan && this.objects == objects && tick == 0
    {
      this.plan := plan;
      this.objects := objects;
      this.tick := 0;
    }

    method NextCall() returns (c: Call)
      modifies this`tick
      ensures c == plan(old(tick)) && tick == old(tick) + 1
    {
      c := plan(tick);
      tick := tick + 1;
    }

    method ListObjects(prefix: string) returns (ok: bool, keys: seq<string>)
      modifies this`tick
      ensures tick == old(tick) + 1 && ok == plan(old(tick)).Returns() && keys == Listing(objects, prefix)
    {
      var c := NextCall();
      ok, keys := c.Returns(), Listing(objects, prefix);
    }

    method PutObject(key: string, body: Body) returns (ok: bool)
      modifies this
      ensures tick == old(tick) + 1 && ok == plan(old(tick)).Returns()
      ensures objects == Put(old(objects), key, body, plan(old(tick)))
    {
      var c := NextCall();
      ok, objects := c.Returns(), Put(objects, key, body, c);
    }

    method GetObject(key: string) returns (r: Option<Body>)
      modifies this`tick
      ensures tick == old(tick) + 1
      ensures r == if plan(old(tick)).Returns() && key in objects then Some(objects[key].body) else None
    {
      var c := NextCall();
      r := if c.Returns() && key in objects then Some(objects[key].body) else None;
    }

    method RemoveObject(key: string) returns (ok: bool)
      modifies this
      ensures tick == old(tick) + 1 && ok == plan(old(tick)).Returns()
      ensures objects == Remove(old(objects), key, plan(old(tick)))
    {
      var c := NextCall();
      ok, objects := c.Returns(), Remove(objects, key, c);
    }
  }

  /** Where a run of publication started and where its machine stands. */
  datatype Trace = Trace(art: Artifact, b0: Bucket, t0: nat, n: nat, pub: Pub)

  /** The machine, started where the trace says, has arrived at this store. */
  ghost predicate Arrived(t: Trace, b: Bucket, plan: nat -> Call, hash: Bytes -> string) {
    OwnKeys(t.pub) && OwnKeys(Start(t.art)) && Run(Start(t.art), t.b0, plan, t.t0, t.n, hash) == (t.pub, b)
  }

  ghost function Next(t: Trace, b: Bucket, c: Call, hash: Bytes -> string): Trace
    requires OwnKeys(t.pub)
  {
    t.(n := t.n + 1, pub := Step(t.pub, b, c, hash).0)
  }

  lemma NextArrives(t: Trace, b: Bucket, plan: nat -> Call, hash: Bytes -> string)
    requires Arrived(t, b, plan, hash)
    ensures OwnKeys(t.pub) && Step(t.pub, b, plan(t.t0 + t.n), hash).0.art == t.pub.art
    ensures Arrived(Next(t, b, plan(t.t0 + t.n), hash), Step(t.pub, b, plan(t.t0 + t.n), hash).1, plan, hash)
  {
    hide Step, Run, OwnKeys;
    StepFrame(t.pub, b, plan(t.t0 + t.n), hash);
    RunOn(Start(t.art), t.b0, plan, t.t0, t.n, hash, t.pub, b);
  }

  class Backend {
    const store: ObjectStore
    const cluster: string
    const hash: Bytes -> string

    constructor (store: ObjectStore, cluster: string, hash: Bytes -> string)
      ensures this.store == store && this.cluster == cluster && this.hash == hash
    {
      this.store, this.cluster, this.hash := store, cluster, hash;
    }

    ghost predicate Tracks(t: Trace)
      reads store
    {
      store.tick == t.t0 + t.n && Arrived(t, store.objects, store.plan, hash)
    }

    /** The trace belongs to this run of publication and its machine is in step with the store. */
    ghost predicate Follows(t: Trace, s: Trace)
      reads store
    {
      Tracks(t) && t.art == s.art && t.b0 == s.b0 && t.t0 == s.t0 && t.pub.art == s.art
    }

    ghost predicate Failing(p: Pub, code: Code, uploaded: seq<string>, readback: bool) {
      p.code == code && p.uploaded == uploaded && p.readback == readback && p.errors == [] && p.notes == []
      && p.pc == if readback then UnlinkReadback else UndoFrom(Reverse(uploaded))
    }

    ghost predicate At(p: Pub, pc: Pc, m: Manifest, uploaded: seq<string>, readback: bool) {
      p.pc == pc && p.manifest == m && p.uploaded == uploaded && p.readback == readback && p.errors == [] && p.notes == []
    }

    lemma UploadCall(p: Pub, b: Bucket, c: Call, m: Manifest, uploaded: seq<string>)
      ensures var k := PayloadKey(p.art.name); At(p, PutPayload, m, uploaded, false) ==>
        Step(p, b, c, hash).1 == Put(b, k, Blob(p.art.payload), c)
        && if c.Returns() then At(Step(p, b, c, hash).0, PutChecksum, m, uploaded + [k], false)
           else Failing(Step(p, b, c, hash).0, E_STORAGE, uploaded, false)
      ensures var k := ChecksumKey(p.art.name); At(p, PutChecksum, m, uploaded, false) ==>
        Step(p, b, c, hash).1 == Put(b, k, Blob(p.art.checksum), c)
        && if c.Returns() then At(Step(p, b, c, hash).0, OpenReadback, m, uploaded + [k], false)
           else Failing(Step(p, b, c, hash).0, E_STORAGE, uploaded, false)
      ensures At(p, OpenReadback, m, uploaded, false) ==>
        Step(p, b, c, hash).1 == b
        && if c.Returns() then At(Step(p, b, c, hash).0, Download, m, uploaded, true)
           else Failing(Step(p, b, c, hash).0, E_INTEGRITY, uploaded, false)
    {
      hide PayloadKey, ChecksumKey, MetadataKey, Reverse, Listing, Matches, ParseManifest;
    }

    lemma CommitCall(p: Pub, b: Bucket, c: Call, m: Manifest, uploaded: seq<string>)
      ensures var k := PayloadKey(p.art.name); At(p, Download, m, uploaded, true) ==>
        Step(p, b, c, hash).1 == b
        && if c.Returns() && k in b && Matches(b[k].body, m.size, m.sha, hash)
           then At(Step(p, b, c, hash).0, DropReadback, m, uploaded, true)
           else Failing(Step(p, b, c, hash).0, E_INTEGRITY, uploaded, true)
      ensures At(p, DropReadback, m, uploaded, true) ==>
        Step(p, b, c, hash).1 == b
        && if c.Returns() then At(Step(p, b, c, hash).0, PutMetadata, m, uploaded, false)
           else Failing(Step(p, b, c, hash).0, E_STORAGE, uploaded, !c.Takes())
      ensures At(p, PutMetadata, m, uploaded, false) ==>
        Step(p, b, c, hash).1 == Put(b, MetadataKey(p.art.name), p.art.metadata, c)
        && if c.Returns() then Step(p, b, c, hash).0.pc == Finished(Published(p.art.name, m.sha, m.size, m.unixtime))
           else Failing(Step(p, b, c, hash).0, E_STORAGE, uploaded, false)
    {
      hide PayloadKey, ChecksumKey, MetadataKey, Reverse, Listing, Matches, ParseManifest;
    }

    /** The `try` block: payload, checksum, then the full readback and the metadata last. */
    method Upload(art: Artifact, m: Manifest, ghost s: Trace)
      returns (failure: Option<Code>, uploaded: seq<string>, readback: bool, ghost t: Trace)
      requires Tracks(s) && s.art == art && s.pub.art == art && At(s.pub, PutPayload, m, [], false)
      modifies store
      ensures Follows(t, s)
      ensures failure.None? ==> t.pub.pc == Finished(Published(art.name, m.sha, m.size, m.unixtime))
      ensures failure.Some? ==> Failing(t.pub, failure.value, uploaded, readback)
    {
      hide Step, Run, Arrived, At, Failing, OwnKeys, PayloadKey, ChecksumKey, MetadataKey, Matches, Put;
      uploaded, readback, t := [], false, s;

      NextArrives(t, store.objects, store.plan, hash);
      UploadCall(t.pub, store.objects, store.plan(store.tick), m, uploaded);
      t := Next(t, store.objects, store.plan(store.tick), hash);
      var ok := store.PutObject(PayloadKey(art.name), Blob(art.payload));
      if !ok { return Some(E_STORAGE), uploaded, readback, t; }
      uploaded := uploaded + [PayloadKey(art.name)];

      NextArrives(t, store.objects, store.plan, hash);
      UploadCall(t.pub, store.objects, store.plan(store.tick), m, uploaded);
      t := Next(t, store.objects, store.plan(store.tick), hash);
      ok := store.PutObject(ChecksumKey(art.name), Blob(art.checksum));
      if !ok { return Some(E_STORAGE), uploaded, readback, t; }
      uploaded := uploaded + [ChecksumKey(art.name)];
      failure, uploaded, readback, t := VerifyAndCommit(art, m, uploaded, t);
    }

    /** The rest of the `try` block. */
    method VerifyAndCommit(art: Artifact, m: Manifest, uploads: seq<string>, ghost s: Trace)
      returns (failure: Option<Code>, uploaded: seq<string>, readback: bool, ghost t: Trace)
      requires Follows(s, s) && s.art == art && At(s.pub, OpenReadback, m, uploads, false)
      modifies store
      ensures Follows(t, s)
      ensures failure.None? ==> t.pub.pc == Finished(Published(art.name, m.sha, m.size, m.unixtime))
      ensures failure.Some? ==> Failing(t.pub, failure.value, uploaded, readback)
    {
      hide Step, Run, Arrived, At, Failing, OwnKeys, PayloadKey, ChecksumKey, MetadataKey, Matches, Put;
      uploaded, readback, t := uploads, false, s;

      NextArrives(t, store.objects, store.plan, hash);
      UploadCall(t.pub, store.objects, store.plan(store.tick), m, uploaded);
      t := Next(t, store.objects, store.plan(store.tick), hash);
      var c := store.NextCall();
      if !c.Returns() { return Some(E_INTEGRITY), uploaded, readback, t; }
      readback := true;

      NextArrives(t, store.objects, store.plan, hash);
      CommitCall(t.pub, store.objects, store.plan(store.tick), m, uploaded);
      t := Next(t, store.objects, store.plan(store.tick), hash);
      var copy := store.GetObject(PayloadKey(art.name));
      if copy.None? || !Matches(copy.value, m.size, m.sha, hash) { return Some(E_INTEGRITY), uploaded, readback, t; }

      NextArrives(t, store.objects, store.plan, hash);
      CommitCall(t.pub, store.objects, store.plan(store.tick), m, uploaded);
      t := Next(t, store.objects, store.plan(store.tick), hash);
      c := store.NextCall();
      readback := !c.Takes();
      if !c.Returns() { return Some(E_STORAGE), uploaded, readback, t; }

      NextArrives(t, store.objects, store.plan, hash);
      CommitCall(t.pub, store.objects, store.plan(store.tick), m, uploaded);
      t := Next(t, store.objects, store.plan(store.tick), hash);
      var ok := store.PutObject(MetadataKey(art.name), art.metadata);
      if !ok { return Some(E_STORAGE), uploaded, readback, t; }
      return None, uploaded + [MetadataKey(art.name)], readback, t;
    }

    ghost predicate Undoing(p: Pub, pc: Pc, code: Code, errors: seq<Note>, notes: seq<Note>) {
      p.pc == pc && p.code == code && p.errors == errors && p.notes == notes
    }

    lemma UndoCall(p: Pub, b: Bucket, c: Call, keys: seq<string>, code: Code, errors: seq<Note>, notes: seq<Note>)
      requires WellFormed(p)
      ensures keys != [] && Undoing(p, Undo(keys), code, errors, notes) ==>
        Step(p, b, c, hash).1 == Remove(b, keys[0], c)
        && Undoing(Step(p, b, c, hash).0, UndoFrom(keys[1..]), code,
                   if c.Returns() then errors else errors + [NotRemoved(keys[0])], notes)
      ensures Undoing(p, UnlinkReadback, code, errors, notes) ==>
        Step(p, b, c, hash).1 == b
        && Undoing(Step(p, b, c, hash).0, UndoFrom(Reverse(p.uploaded)), code, errors,
                   if c.Returns() then notes else notes + [ReadbackKept])
    {
      hide PayloadKey, ChecksumKey, MetadataKey, Reverse, Listing, Matches, ParseManifest;
    }

    lemma SweepCall(p: Pub, b: Bucket, c: Call, keys: seq<string>, code: Code, errors: seq<Note>, notes: seq<Note>)
      requires keys != [] && Undoing(p, Sweep(keys), code, errors, notes)
      ensures Step(p, b, c, hash).1 == Remove(b, keys[0], c)
        && Undoing(Step(p, b, c, hash).0, SweepFrom(keys[1..]), code,
                   if c.Returns() then errors else errors + [NotRemoved(keys[0])], notes)
    {
      hide PayloadKey, ChecksumKey, MetadataKey, Reverse, Listing, Matches, ParseManifest;
    }

    lemma RelistCall(p: Pub, b: Bucket, c: Call, code: Code, errors: seq<Note>, notes: seq<Note>)
      requires Undoing(p, Relist, code, errors, notes)
      ensures Step(p, b, c, hash).1 == b
      ensures if c.Returns() then Undoing(Step(p, b, c, hash).0, SweepFrom(Listing(b, Prefix(p))), code, errors, notes)
              else Step(p, b, c, hash).0.pc == Finished(Failed(code, notes + errors + [Unverified]))
    {
      hide PayloadKey, ChecksumKey, MetadataKey, Reverse, Listing, Matches, ParseManifest;
      assert notes + errors + [Unverified] == notes + (errors + [Unverified]);
    }

    lemma VerifyCall(p: Pub, b: Bucket, c: Call, code: Code, errors: seq<Note>, notes: seq<Note>)
      requires Undoing(p, Verify, code, errors, notes)
      ensures Step(p, b, c, hash).1 == b
      ensures Step(p, b, c, hash).0.pc
              == Finished(Failed(code, if !c.Returns() then notes + errors + [Unverified]
                                       else if Listing(b, Prefix(p)) != []
                                       then notes + errors + [Residue(Listing(b, Prefix(p)))]
                                       else notes))
    {
      hide PayloadKey, ChecksumKey, MetadataKey, Reverse, Listing, Matches, ParseManifest;
      assert notes + [] == notes && notes + errors + [Unverified] == notes + (errors + [Unverified]);
      var x := Residue(Listing(b, Prefix(p)));
      assert notes + errors + [x] == notes + (errors + [x]);
    }

    /** The `except` block. */
    method CleanUp(prefix: string, code: Code, uploaded: seq<string>, readback: bool, ghost s: Trace)
      returns (r: PublishResult, ghost t: Trace)
      requires Follows(s, s) && prefix == s.art.name + "/" && Failing(s.pub, code, uploaded, readback)
      modifies store
      ensures Follows(t, s) && t.pub.pc == Finished(r)
    {
      hide Step, Run, Arrived, OwnKeys, Reverse, Listing, Remove;
      t := s;
      var notes: seq<Note>, errors: seq<Note> := [], [];
      if readback {
        NextArrives(t, store.objects, store.plan, hash);
        UndoCall(t.pub, store.objects, store.plan(store.tick), [], code, errors, notes);
        t := Next(t, store.objects, store.plan(store.tick), hash);
        var c := store.NextCall();
        if !c.Returns() { notes := notes + [ReadbackKept]; }
      }
      var keys := Reverse(uploaded);
      assert keys[0..] == keys;
      for i := 0 to |keys|
        invariant Follows(t, s) && Undoing(t.pub, UndoFrom(keys[i..]), code, errors, notes)
      {
        assert keys[i..][0] == keys[i] && keys[i..][1..] == keys[i + 1..];
        NextArrives(t, store.objects, store.plan, hash);
        UndoCall(t.pub, store.objects, store.plan(store.tick), keys[i..], code, errors, notes);
        t := Next(t, store.objects, store.plan(store.tick), hash);
        var ok := store.RemoveObject(keys[i]);
        if !ok { errors := errors + [NotRemoved(keys[i])]; }
      }
      r, t := SweepRest(prefix, code, errors, notes, t);
    }

    /** The second half of the `except` block: whatever the journal of uploads missed, and the verification. */
    method SweepRest(prefix: string, code: Code, removalErrors: seq<Note>, notes: seq<Note>, ghost s: Trace)
      returns (r: PublishResult, ghost t: Trace)
      requires Follows(s, s) && prefix == s.art.name + "/" && Undoing(s.pub, Relist, code, removalErrors, notes)
      modifies store
      ensures Follows(t, s) && t.pub.pc == Finished(r)
    {
      hide Step, Run, Arrived, OwnKeys, Reverse, Listing, Remove;
      t := s;
      var errors := removalErrors;
      NextArrives(t, store.objects, store.plan, hash);
      RelistCall(t.pub, store.objects, store.plan(store.tick), code, errors, notes);
      t := Next(t, store.objects, store.plan(store.tick), hash);
      var ok, remaining := store.ListObjects(prefix);
      if !ok {
        return Failed(code, notes + errors + [Unverified]), t;
      }
      assert remaining[0..] == remaining;
      for i := 0 to |remaining|
        invariant Follows(t, s) && Undoing(t.pub, SweepFrom(remaining[i..]), code, errors, notes)
      {
        assert remaining[i..][0] == remaining[i] && remaining[i..][1..] == remaining[i + 1..];
        NextArrives(t, store.objects, store.plan, hash);
        SweepCall(t.pub, store.objects, store.plan(store.tick), remaining[i..], code, errors, notes);
        t := Next(t, store.objects, store.plan(store.tick), hash);
        ok := store.RemoveObject(remaining[i]);
        if !ok { errors := errors + [NotRemoved(remaining[i])]; }
      }
      NextArrives(t, store.objects, store.plan, hash);
      assert remaining[|remaining|..] == [];
      VerifyCall(t.pub, store.objects, store.plan(store.tick), code, errors, notes);
      t := Next(t, store.objects, store.plan(store.tick), hash);
      var residual;
      ok, residual := store.ListObjects(prefix);
      if !ok {
        r := Failed(code, notes + errors + [Unverified]);
      } else if residual != [] {
        r := Failed(code, notes + errors + [Residue(residual)]);
      } else {
        r := Failed(code, notes);
      }
    }

    lemma StartCall(p: Pub, b: Bucket, c: Call)
      requires p == Start(p.art)
      ensures Step(p, b, c, hash).1 == b
      ensures var q := Step(p, b, c, hash).0;
        if !c.Returns() || Listing(b, Prefix(p)) != [] then q.pc == Finished(Refused(E_STORAGE))
        else match ParseManifest(p.art.metadata, c.now)
             case None => q.pc == Finished(Refused(E_INTEGRITY))
             case Some(m) => At(q, PutPayload, m, [], false) && q.art == p.art
    {
      hide PayloadKey, ChecksumKey, MetadataKey, Reverse, Listing, Matches, ParseManifest;
    }

    /** `publish`: the store and the result are those of the step machine run on the same calls, so everything proved
        about its runs holds of this method. It ends as publication may end; what was stored wrongly is refused. */
    method Publish(art: Artifact) returns (r: PublishResult, ghost n: nat)
      modifies store
      ensures store.tick == old(store.tick) + n
      ensures var (p, b) := Run(Start(art), old(store.objects), store.plan, old(store.tick), n, hash);
        b == store.objects && p.pc == Finished(r)
      ensures NoSlash(art.name) ==> Ends(art, old(store.objects), store.objects, r, store.plan(old(store.tick)), hash)
      ensures WronglyStored(art, old(store.objects), store.plan, old(store.tick), hash)
              ==> r.Failed? && r.code == E_INTEGRITY
    {
      r, n := PublishOnce(art);
      hide Run, Ends, WronglyStored;
      if NoSlash(art.name) { PublishOutcome(art, old(store.objects), store.plan, old(store.tick), n, hash); }
      if WronglyStored(art, old(store.objects), store.plan, old(store.tick), hash) {
        WrongReadbackFails(art, old(store.objects), store.plan, old(store.tick), n, hash);
      }
    }

    method PublishOnce(art: Artifact) returns (r: PublishResult, ghost n: nat)
      modifies store
      ensures store.tick == old(store.tick) + n
      ensures var (p, b) := Run(Start(art), old(store.objects), store.plan, old(store.tick), n, hash);
        b == store.objects && p.pc == Finished(r)
    {
      hide Step, Run, Listing, ParseManifest;
      ghost var t := Trace(art, store.objects, store.tick, 0, Start(art));
      RunNone(t.pub, t.b0, store.plan, t.t0, hash);
      NextArrives(t, store.objects, store.plan, hash);
      StartCall(t.pub, store.objects, store.plan(store.tick));
      var prefix := art.name + "/";
      var now := store.plan(store.tick).now;
      t := Next(t, store.objects, store.plan(store.tick), hash);
      var ok, existing := store.ListObjects(prefix);
      if !ok || existing != [] {
        return Refused(E_STORAGE), 1;
      }
      var manifest := ParseManifest(art.metadata, now);
      if manifest.None? {
        return Refused(E_INTEGRITY), 1;
      }
      var failure, uploaded, readback;
      failure, uploaded, readback, t := Upload(art, manifest.value, t);
      if failure.None? {
        var m := manifest.value;
        r, n := Published(art.name, m.sha, m.size, m.unixtime), t.n;
      } else {
        r, t := CleanUp(prefix, failure.value, uploaded, readback, t);
        n := t.n;
      }
    }

    /** Removes the keys in turn and stops at the first call that raises; `m` of them are gone then. */
    method RemoveAll(keys: seq<string>, ghost b: Bucket, ghost gone: seq<string>) returns (ok: bool, ghost m: nat)
      requires store.objects == Without(b, gone)
      modifies store
      ensures m <= |keys| && store.objects == Without(b, gone + keys[..m])
      ensures ok ==> m == |keys| && AllReturn(store.plan, old(store.tick), store.tick)
      ensures !ok ==> LastCallFailed()
      ensures old(store.tick) <= store.tick
    {
      assert gone + keys[..0] == gone;
      for i := 0 to |keys|
        invariant store.objects == Without(b, gone + keys[..i])
        invariant old(store.tick) <= store.tick && AllReturn(store.plan, old(store.tick), store.tick)
      {
        ghost var c := store.plan(store.tick);
        assert gone + keys[..i + 1] == gone + keys[..i] + [keys[i]];
        Retention.WithoutSnoc(b, gone + keys[..i], keys[i]);
        ok := store.RemoveObject(keys[i]);
        if !ok { return false, if c.Takes() then i + 1 else i; }
      }
      return true, |keys|;
    }

    /** The listing split by directory, in the order in which the directories first appear. */
    method GroupListing(items: seq<Pruner.Item>) returns (groups: seq<Pruner.Group>)
      ensures groups == Pruner.Groups(items)
    {
      groups := [];
      for i := 0 to |items|
        invariant groups == Pruner.Groups(items[..i])
      {
        assert items[..i + 1][..i] == items[..i];
        if !NoSlash(items[i].key) { groups := Pruner.AddItem(groups, Dir(items[i].key), items[i]); }
      }
      assert items[..|items|] == items;
    }

    ghost predicate LastCallFailed()
      reads store
    {
      store.tick > 0 && !store.plan(store.tick - 1).Returns()
    }

    /** Whether a group has expired; its metadata is read only if the listing shows any. */
    method ReadVerdict(g: Pruner.Group, cutoff: int) returns (r: Result<bool>)
      modifies store`tick
      ensures r.Ok? ==> r.value == Retention.GroupExpired(g, store.objects, cutoff)
      ensures r.Ok? ==> !(Pruner.HasMetadata(g) && Pruner.MetadataVerdict(store.objects, g.dir, cutoff).Broken?)
      ensures old(store.tick) <= store.tick && (r.Ok? ==> AllReturn(store.plan, old(store.tick), store.tick))
      ensures r.Err? ==> r.failure == Coded(E_STORAGE, 0)
                         && ((Pruner.HasMetadata(g) && Pruner.MetadataVerdict(store.objects, g.dir, cutoff).Broken?)
                             || LastCallFailed())
    {
      hide MetadataKey, Pruner.HasMetadata, Pruner.OrphanExpired;
      if !Pruner.HasMetadata(g) { return Ok(Pruner.OrphanExpired(g, cutoff)); }
      var body := store.GetObject(MetadataKey(g.dir));
      if body.None? || !body.value.Json? || Unixtime(body.value.meta).None? { return Err(Coded(E_STORAGE, 0)); }
      r := Ok(Unixtime(body.value.meta).value < cutoff);
    }

    /** One group's turn: a verdict, then its removals. `n` removals of the whole plan have been made afterwards. */
    method PruneGroup(groups: seq<Pruner.Group>, i: nat, cutoff: int, deleted: nat, ghost b: Bucket)
      returns (r: Result<nat>, ghost n: nat)
      requires i < |groups| && Retention.GroupsOf(groups, b)
      requires Retention.Swept(b, store.objects, groups, i, cutoff, deleted)
      modifies store
      ensures r.Ok? ==> Retention.Swept(b, store.objects, groups, i + 1, cutoff, r.value)
      ensures Retention.Stopped(b, store.objects, groups, cutoff, n)
      ensures r.Ok? ==> !Retention.BrokenDir(b, groups[i].dir)
      ensures old(store.tick) <= store.tick && (r.Ok? ==> AllReturn(store.plan, old(store.tick), store.tick))
      ensures r.Err? ==> Retention.BrokenDir(b, groups[i].dir) || LastCallFailed()
      ensures r.Err? ==> r.failure == Coded(E_STORAGE, 0) || (r.failure == Uncoded && LastCallFailed())
    {
      ghost var b' := store.objects;
      ghost var gone := Retention.PlanOf(groups[..i], b, cutoff);
      Retention.SweptVerdict(b, b', groups, i, cutoff, deleted);
      n := Retention.SweptKept(b, b', groups, i, cutoff, deleted);
      assert b' == Without(b, gone);
      hide Without, Retention.GroupsOf, Retention.GroupExpired, Retention.Stopped, Retention.Swept, Pruner.KeysOf,
        Retention.PlanOf, Retention.BrokenDir, Pruner.MetadataVerdict, Pruner.HasMetadata;
      var expired := ReadVerdict(groups[i], cutoff);
      if expired.Err? { return Err(expired.failure), n; }
      if !expired.value { return Ok(deleted), n; }
      var ok;
      ghost var m;
      ok, m := RemoveAll(Pruner.KeysOf(groups[i].items), b, gone);
      n := Retention.SweptMore(b, b', store.objects, groups, i, cutoff, deleted, m);
      r := if ok then Ok(deleted + 1) else Err(Uncoded);
    }

    /** All groups in turn. */
    method PruneGroups(groups: seq<Pruner.Group>, cutoff: int) returns (r: Result<nat>, ghost n: nat)
      requires Retention.GroupsOf(groups, store.objects)
      modifies store
      ensures r.Ok? ==> Retention.Swept(old(store.objects), store.objects, groups, |groups|, cutoff, r.value)
      ensures Retention.Stopped(old(store.objects), store.objects, groups, cutoff, n)
      ensures r.Ok? ==> forall g | g in groups :: !Retention.BrokenDir(old(store.objects), g.dir)
      ensures old(store.tick) <= store.tick && (r.Ok? ==> AllReturn(store.plan, old(store.tick), store.tick))
      ensures r.Err? ==> (exists g | g in groups :: Retention.BrokenDir(old(store.objects), g.dir)) || LastCallFailed()
      ensures r.Err? ==> r.failure == Coded(E_STORAGE, 0) || (r.failure == Uncoded && LastCallFailed())
    {
      ghost var b := store.objects;
      Retention.SweptNothing(b, groups, cutoff);
      hide Retention.GroupsOf, Retention.Swept, Retention.Stopped, Retention.BrokenDir;
      var deleted := 0;
      n := 0;
      for i := 0 to |groups|
        invariant Retention.Swept(b, store.objects, groups, i, cutoff, deleted)
        invariant Retention.Stopped(b, store.objects, groups, cutoff, n)
        invariant forall j | 0 <= j < i :: !Retention.BrokenDir(b, groups[j].dir)
        invariant old(store.tick) <= store.tick && AllReturn(store.plan, old(store.tick), store.tick)
      {
        assert groups[i] in groups;
        r, n := PruneGroup(groups, i, cutoff, deleted, b);
        if r.Err? { return; }
        deleted := r.value;
      }
      r := Ok(deleted);
    }

    /** `prune`: the removals are a prefix of the plan made from the listing, whatever fails; a normal return has removed
        exactly what had expired, and counts the directories. In days: only directories older than the window lose
        anything, and after a normal return these are the directories that are gone. */
    method Prune(days: int, now: int) returns (r: Result<nat>, ghost n: nat)
      requires NoSlash(cluster)
      modifies store
      ensures days <= 0 ==> n == 0 && r == Err(Coded(E_CONFIG, 0))
      ensures PruneDoes(old(store.objects), store.objects, cluster, Cutoff(now, days), n, r)
      ensures Windowed(old(store.objects), store.objects, cluster, now, days, r)
      ensures r.Ok? ==> !Retention.SomeBroken(old(store.objects), cluster)
      ensures old(store.tick) <= store.tick && (r.Ok? ==> AllReturn(store.plan, old(store.tick), store.tick))
      ensures r.Err? && days > 0 ==> Retention.SomeBroken(old(store.objects), cluster) || LastCallFailed()
      ensures r.Err? && days > 0 ==> r.failure == Coded(E_STORAGE, 0) || (r.failure == Uncoded && LastCallFailed())
    {
      r, n := PruneListed(days, now);
      hide Cutoff, PruneDoes, Windowed, Retention.SomeBroken;
      PruneIsWindowed(old(store.objects), store.objects, cluster, now, days, n, r);
    }

    method PruneListed(days: int, now: int) returns (r: Result<nat>, ghost n: nat)
      requires NoSlash(cluster)
      modifies store
      ensures days <= 0 ==> n == 0 && r == Err(Coded(E_CONFIG, 0))
      ensures PruneDoes(old(store.objects), store.objects, cluster, Cutoff(now, days), n, r)
      ensures r.Ok? ==> !Retention.SomeBroken(old(store.objects), cluster)
      ensures old(store.tick) <= store.tick && (r.Ok? ==> AllReturn(store.plan, old(store.tick), store.tick))
      ensures r.Err? && days > 0 ==> Retention.SomeBroken(old(store.objects), cluster) || LastCallFailed()
      ensures r.Err? && days > 0 ==> r.failure == Coded(E_STORAGE, 0) || (r.failure == Uncoded && LastCallFailed())
    {
      var cutoff := Cutoff(now, days);
      ghost var b := store.objects;
      PruneNothing(b, cluster, cutoff);
      ghost var t0 := store.tick;
      hide PruneDoes, ClusterPrefix, Cutoff, AllReturn, Call.Returns;
      if days <= 0 { return Err(Coded(E_CONFIG, 0)), 0; }
      var ok, items := ListBackups();
      if !ok { return Err(Uncoded), 0; }
      ReturnsFirst(store.plan, t0, store.tick);
      var groups := GroupListing(items);
      hide Pruner.ListItems, Pruner.Groups, Retention.GroupsOf, Retention.Swept, Retention.Stopped;
      Retention.ListedGroups(b, cluster);
      BrokenIsListed(b, cluster);
      hide Retention.SomeBroken, Retention.BrokenDir;
      r, n := PruneGroups(groups, cutoff);
      PruneEnds(b, store.objects, cluster, cutoff, n, r);
    }

    method ListBackups() returns (ok: bool, items: seq<Pruner.Item>)
      modifies store`tick
      ensures !ok ==> LastCallFailed()
      ensures store.tick == old(store.tick) + 1 && ok == store.plan(old(store.tick)).Returns()
      ensures items == Pruner.ListItems(store.objects, cluster)
    {
      hide Listing, ClusterPrefix, Call.Returns;
      var keys;
      ok, keys := store.ListObjects(ClusterPrefix(cluster));
      items := Pruner.ItemsOf(store.objects, keys);
    }

    // ---- fetch_latest -----------------------------------------------------------------------------------------------

    /** The complete directories of a listing. */
    method CompletePrefixes(keys: seq<string>) returns (dirs: seq<string>)
      ensures dirs == Fetcher.CompleteDirs(keys, |keys|)
    {
      dirs := [];
      for i := 0 to |keys|
        invariant dirs == Fetcher.CompleteDirs(keys, i)
      {
        var k := keys[i];
        if !NoSlash(k) && Dir(k) !in dirs && Fetcher.CompleteIn(keys, Dir(k)) { dirs := dirs + [Dir(k)]; }
      }
    }

    /** The first of the newest candidates; any unreadable metadata is an error, never a reason to look further. */
    method ReadCandidates(dirs: seq<string>, ghost t0: nat) returns (r: Result<Option<Fetcher.Candidate>>)
      requires t0 <= store.tick
      modifies store`tick
      ensures t0 <= store.tick
      ensures r.Ok? ==> Best(store.objects, cluster, dirs, |dirs|, r.value)
      ensures r.Err? ==> r.failure == Coded(E_STORAGE, 0)
      ensures r.Ok? && AllReturn(store.plan, t0, old(store.tick)) ==> AllReturn(store.plan, t0, store.tick)
      ensures r.Err? && AllReturn(store.plan, t0, store.tick)
              ==> exists d | d in dirs :: Fetcher.ReadMetadata(store.objects, cluster, d).Broken?
    {
      hide MetadataKey, AllReturn;
      var best: Option<Fetcher.Candidate> := None;
      for i := 0 to |dirs|
        invariant t0 <= store.tick
        invariant Best(store.objects, cluster, dirs, i, best)
        invariant AllReturn(store.plan, t0, old(store.tick)) ==> AllReturn(store.plan, t0, store.tick)
      {
        OneMoreReturns(store.plan, t0, store.tick);
        FailedCall(store.plan, t0, store.tick);
        assert dirs[i] in dirs;
        var body := store.GetObject(MetadataKey(dirs[i]));
        if body.None? || !body.value.Json? { return Err(Coded(E_STORAGE, 0)); }
        var meta := body.value.meta;
        if BelongsTo(meta, cluster) {
          var created := Unixtime(meta);
          if created.None? { return Err(Coded(E_STORAGE, 0)); }
          if best.None? || best.value.unixtime < created.value {
            best := Some(Fetcher.Candidate(dirs[i], created.value, meta));
          }
        }
      }
      r := Ok(best);
    }

    /** `fetch_latest`: a newest entry of the catalogue, with the bytes the store holds for it. It never falls back past a
        complete directory whose metadata cannot be read, and when the listing is tidy and every call works it returns
        one whenever there is one. */
    method FetchLatest() returns (r: Result<Fetcher.Fetched>)
      requires NoSlash(cluster)
      modifies store`tick
      ensures r.Ok? ==> IsLatest(store.objects, cluster, r.value)
      ensures r.Ok? ==> AllReturn(store.plan, old(store.tick), store.tick)
      ensures r.Err? && AllReturn(store.plan, old(store.tick), store.tick)
              ==> !Tidy(store.objects, cluster) || CatalogueOf(store.objects, cluster) == map[]
      ensures Hopeless(store.objects, cluster) && AllReturn(store.plan, old(store.tick), store.tick)
              ==> r == Err(Coded(E_STORAGE, 0))
    {
      ghost var b := store.objects;
      ghost var t0 := store.tick;
      hide ClusterPrefix, PayloadKey, ChecksumKey, MetadataKey, CatalogueOf, Listing, Dirs, NewestEntry, AllReturn,
        Fetcher.ReadMetadata, Hopeless, Tidy;
      FailedCall(store.plan, t0, store.tick);
      NoneYet(store.plan, t0);
      OneMoreReturns(store.plan, t0, store.tick);
      var ok, keys := store.ListObjects(ClusterPrefix(cluster));
      if !ok { return Err(Uncoded); }
      var dirs := CompletePrefixes(keys);
      TidyDirs(b, cluster, dirs);
      var found :- ReadCandidates(dirs, t0);
      BestIsLatest(b, cluster, dirs, found);
      if found.Some? { FoundIsHope(b, cluster, dirs, found); }
      if found.None? {
        return Err(Coded(E_STORAGE, 0));
      }
      hide Fetcher.CompleteDirs, Best;
      r := FetchObjects(found.value.dir, t0);
    }

    /** The three downloads. */
    method FetchObjects(dir: string, ghost t0: nat) returns (r: Result<Fetcher.Fetched>)
      requires t0 <= store.tick
      modifies store`tick
      ensures t0 <= store.tick
      ensures r.Err? && AllReturn(store.plan, t0, store.tick) ==> !Complete(store.objects, dir)
      ensures r.Ok? && AllReturn(store.plan, t0, old(store.tick)) ==> AllReturn(store.plan, t0, store.tick)
      ensures r.Ok? ==> Complete(store.objects, dir) && var b, f := store.objects, r.value;
        f.dir == dir && f.payload == b[PayloadKey(dir)].body && f.checksum == b[ChecksumKey(dir)].body
        && f.metadata == b[MetadataKey(dir)].body
    {
      hide PayloadKey, ChecksumKey, MetadataKey, AllReturn;
      FailedCall(store.plan, t0, store.tick);
      OneMoreReturns(store.plan, t0, store.tick);
      var payload := store.GetObject(PayloadKey(dir));
      if payload.None? { return Err(Uncoded); }
      FailedCall(store.plan, t0, store.tick);
      OneMoreReturns(store.plan, t0, store.tick);
      var checksum := store.GetObject(ChecksumKey(dir));
      if checksum.None? { return Err(Uncoded); }
      FailedCall(store.plan, t0, store.tick);
      OneMoreReturns(store.plan, t0, store.tick);
      var metadata := store.GetObject(MetadataKey(dir));
      if metadata.None? { return Err(Uncoded); }
      r := Ok(Fetcher.Fetched(dir, payload.value, checksum.value, metadata.value));
    }
  }

  ghost predicate AllReturn(plan: nat -> Call, t0: nat, t1: nat) {
    forall t | t0 <= t < t1 :: plan(t).Returns()
  }

  lemma FailedCall(plan: nat -> Call, t0: nat, t: nat)
    requires t0 <= t
    ensures !plan(t).Returns() ==> forall t1: nat | t < t1 :: !AllReturn(plan, t0, t1)
  {
  }

  lemma NoneYet(plan: nat -> Call, t0: nat)
    ensures AllReturn(plan, t0, t0)
  {
  }

  lemma ReturnsFirst(plan: nat -> Call, t0: nat, t: nat)
    requires plan(t0).Returns() && t == t0 + 1
    ensures forall t1: nat | t <= t1 && AllReturn(plan, t, t1) :: AllReturn(plan, t0, t1)
  {
  }

  lemma OneMoreReturns(plan: nat -> Call, t0: nat, t: nat)
    ensures AllReturn(plan, t0, t) && plan(t).Returns() ==> AllReturn(plan, t0, t + 1)
  {
  }

  function Cutoff(now: int, days: int): int { now - days * 86400 }

  /** The removals made are a prefix of the plan; a normal return has made them all, and counts the directories. */
  ghost predicate PruneDoes(b: Bucket, b': Bucket, cluster: string, cutoff: int, n: nat, r: Result<nat>) {
    n <= |Retention.RemovalPlan(b, cluster, cutoff)|
    && b' == Retention.Interrupted(b, cluster, cutoff, n)
    && (r.Ok? ==> b' == Retention.Pruned(b, cluster, cutoff) && r.value == |Retention.ExpiredDirs(b, cluster, cutoff)|)
  }

  // ---- the window, in days ----------------------------------------------------------------------------------------

  /** A directory of the cluster is older than `days` days: by its metadata, or without any by every dated object in it,
      of which there is one. */
  ghost predicate Aged(b: Bucket, cluster: string, now: int, days: int, d: string) {
    '/' !in d && "galera-" + cluster + "-" <= d
    && if d + "/metadata.json" in b then
         match b[d + "/metadata.json"].body
         case Blob(_) => false
         case Json(m) => m.created.Int? && m.created.n >= 0 && now - m.created.n > days * 86400
       else
         (exists k | k in b :: d + "/" <= k && b[k].modified.Some?)
         && forall k | k in b && d + "/" <= k && b[k].modified.Some? :: now - b[k].modified.value > days * 86400
  }

  /** What is left is as it was, and so is everything outside directories. An object that is gone lay in a directory older
      than the window; after a normal return just these directories are gone, and their number is returned. */
  ghost predicate Windowed(b: Bucket, b': Bucket, cluster: string, now: int, days: int, r: Result<nat>) {
    (forall k | k in b' :: k in b && b'[k] == b[k])
    && (forall k | k in b && '/' !in k :: k in b')
    && (forall k, d | k in b && '/' !in d && d + "/" <= k ::
          if r.Ok? then k in b' <==> !Aged(b, cluster, now, days, d) else k in b' || Aged(b, cluster, now, days, d))
    && (r.Ok? ==> forall ds: set<string> |
          (forall d :: d in ds <==> Aged(b, cluster, now, days, d) && exists k | k in b :: d + "/" <= k)
          :: r.value == |ds|)
  }

  lemma AgedIsExpired(b: Bucket, cluster: string, now: int, days: int, d: string)
    requires NoSlash(d)
    ensures Aged(b, cluster, now, days, d)
            <==> ClusterPrefix(cluster) <= d && Retention.Expired(b, d, Cutoff(now, days))
  {
    PlainKeys(d);
    hide MetadataKey, PayloadKey, ChecksumKey;
    assert forall k :: Inside(k, d) <==> d + "/" <= k;
    hide Inside;
  }

  lemma DoomedIsAged(b: Bucket, cluster: string, now: int, days: int, k: string, d: string)
    requires d + "/" <= k && NoSlash(d)
    ensures Retention.Doomed(b, cluster, Cutoff(now, days), k) <==> Aged(b, cluster, now, days, d)
  {
    InsideIsDir(k, d);
    AgedIsExpired(b, cluster, now, days, d);
    hide Aged, Retention.Expired, Cutoff, ClusterPrefix;
  }

  lemma OnlyDoomedGo(b: Bucket, b': Bucket, cluster: string, cutoff: int, n: nat, r: Result<nat>)
    requires NoSlash(cluster) && PruneDoes(b, b', cluster, cutoff, n, r)
    ensures Shrinks(b, b') && forall k | k in b && k !in b' :: Retention.Doomed(b, cluster, cutoff, k)
    ensures r.Ok? ==> forall k | k in b :: k in b' <==> !Retention.Doomed(b, cluster, cutoff, k)
  {
    var plan := Retention.RemovalPlan(b, cluster, cutoff);
    Retention.PlanIsDoom(b, cluster, cutoff);
    WithoutKeys(b, plan[..n]);
    hide Without, Retention.RemovalPlan, Retention.Doomed;
    forall k | k in b && k !in b' ensures Retention.Doomed(b, cluster, cutoff, k) { assert k in plan[..n]; }
  }

  lemma PruneIsWindowed(b: Bucket, b': Bucket, cluster: string, now: int, days: int, n: nat, r: Result<nat>)
    requires NoSlash(cluster) && PruneDoes(b, b', cluster, Cutoff(now, days), n, r)
    ensures Windowed(b, b', cluster, now, days, r)
  {
    hide Cutoff, PruneDoes, Aged, Retention.Doomed;
    var cutoff := Cutoff(now, days);
    OnlyDoomedGo(b, b', cluster, cutoff, n, r);
    OutsideStays(b, b', cluster, cutoff);
    AgedGo(b, b', cluster, now, days, r.Ok?);
    if r.Ok? { CountsAged(b, b', cluster, now, days, n, r); }
  }

  lemma AgedGo(b: Bucket, b': Bucket, cluster: string, now: int, days: int, complete: bool)
    requires forall k | k in b && k !in b' :: Retention.Doomed(b, cluster, Cutoff(now, days), k)
    requires complete ==> forall k | k in b :: k in b' <==> !Retention.Doomed(b, cluster, Cutoff(now, days), k)
    ensures forall k, d | k in b && '/' !in d && d + "/" <= k ::
      if complete then k in b' <==> !Aged(b, cluster, now, days, d) else k in b' || Aged(b, cluster, now, days, d)
  {
    hide Cutoff, Aged, Retention.Doomed;
    forall k, d | k in b && '/' !in d && d + "/" <= k
      ensures if complete then k in b' <==> !Aged(b, cluster, now, days, d) else k in b' || Aged(b, cluster, now, days, d)
    {
      DoomedIsAged(b, cluster, now, days, k, d);
    }
  }

  lemma OutsideStays(b: Bucket, b': Bucket, cluster: string, cutoff: int)
    requires forall k | k in b && k !in b' :: Retention.Doomed(b, cluster, cutoff, k)
    ensures forall k | k in b && '/' !in k :: k in b'
  {
    hide Retention.Doomed;
    forall k | k in b && '/' !in k ensures k in b' { if k !in b' { DoomedHasSlash(b, cluster, cutoff, k); } }
  }

  lemma CountsAged(b: Bucket, b': Bucket, cluster: string, now: int, days: int, n: nat, r: Result<nat>)
    requires PruneDoes(b, b', cluster, Cutoff(now, days), n, r) && r.Ok?
    ensures forall ds: set<string> |
      (forall d :: d in ds <==> Aged(b, cluster, now, days, d) && exists k | k in b :: d + "/" <= k) :: r.value == |ds|
  {
    hide Cutoff, Aged, Retention.Doomed, Retention.Pruned, Retention.RemovalPlan;
    forall ds: set<string> |
      (forall d :: d in ds <==> Aged(b, cluster, now, days, d) && exists k | k in b :: d + "/" <= k)
      ensures r.value == |ds|
    {
      AgedDirs(b, cluster, now, days, ds);
    }
  }

  lemma AgedDirs(b: Bucket, cluster: string, now: int, days: int, ds: set<string>)
    requires forall d :: d in ds <==> Aged(b, cluster, now, days, d) && exists k | k in b :: d + "/" <= k
    ensures ds == Retention.ExpiredDirs(b, cluster, Cutoff(now, days))
  {
    var cutoff := Cutoff(now, days);
    hide Cutoff, Aged, Retention.Doomed, Dir;
    forall d | d in ds ensures d in Retention.ExpiredDirs(b, cluster, cutoff) {
      var k :| k in b && d + "/" <= k;
      assert NoSlash(d) by { AgedHasNoSlash(b, cluster, now, days, d); }
      InsideIsDir(k, d);
      DoomedIsAged(b, cluster, now, days, k, d);
    }
    forall d | d in Retention.ExpiredDirs(b, cluster, cutoff) ensures d in ds {
      var k :| k in b && Retention.Doomed(b, cluster, cutoff, k) && Dir(k) == d;
      assert !NoSlash(k) by { DoomedHasSlash(b, cluster, cutoff, k); }
      InsideIsDir(k, d);
      assert d + "/" <= k;
      DoomedIsAged(b, cluster, now, days, k, d);
    }
  }

  lemma AgedHasNoSlash(b: Bucket, cluster: string, now: int, days: int, d: string)
    requires Aged(b, cluster, now, days, d)
    ensures NoSlash(d)
  {
  }

  lemma DoomedHasSlash(b: Bucket, cluster: string, cutoff: int, k: string)
    requires Retention.Doomed(b, cluster, cutoff, k)
    ensures !NoSlash(k)
  {
  }

  /** A directory with unreadable metadata has a group in the listing. */
  lemma BrokenIsListed(b: Bucket, cluster: string)
    requires NoSlash(cluster)
    ensures Retention.SomeBroken(b, cluster)
            <==> exists g | g in Pruner.Groups(Pruner.ListItems(b, cluster)) :: Retention.BrokenDir(b, g.dir)
  {
    var gs := Pruner.Groups(Pruner.ListItems(b, cluster));
    Retention.ListedGroups(b, cluster);
    assert forall g | g in gs :: Retention.GroupOf(g, b) && Pruner.Grouped(g);
    hide Pruner.Groups, Pruner.ListItems, ClusterPrefix, Retention.BrokenDir, Retention.GroupOf;
    if d :| NoSlash(d) && ClusterPrefix(cluster) <= d && Retention.BrokenDir(b, d) {
      ThreeKeys(d);
      BrokenHasKey(b, d);
      InsideIsDir(MetadataKey(d), d);
      var g := Retention.EveryDirListed(b, cluster, MetadataKey(d));
    }
  }

  lemma BrokenHasKey(b: Bucket, d: string)
    requires Retention.BrokenDir(b, d)
    ensures MetadataKey(d) in b
  {
  }

  lemma PruneNothing(b: Bucket, cluster: string, cutoff: int)
    ensures forall f :: PruneDoes(b, b, cluster, cutoff, 0, Err(f))
  {
    hide Retention.RemovalPlan;
    assert Retention.RemovalPlan(b, cluster, cutoff)[..0] == [];
  }

  lemma PruneEnds(b: Bucket, b': Bucket, cluster: string, cutoff: int, n: nat, r: Result<nat>)
    requires NoSlash(cluster)
    requires var groups := Pruner.Groups(Pruner.ListItems(b, cluster));
      Retention.Stopped(b, b', groups, cutoff, n)
      && (r.Ok? ==> Retention.Swept(b, b', groups, |groups|, cutoff, r.value))
    ensures PruneDoes(b, b', cluster, cutoff, n, r)
  {
    var groups := Pruner.Groups(Pruner.ListItems(b, cluster));
    assert groups[..|groups|] == groups && Retention.RemovalPlan(b, cluster, cutoff) == Retention.PlanOf(groups, b, cutoff);
    hide Retention.RemovalPlan, Retention.Pruned, Retention.ExpiredDirs, Pruner.Groups, Pruner.ListItems, Without;
    Retention.PlanRemoves(b, cluster, cutoff);
    Retention.CountIsDirs(b, cluster, cutoff);
  }

  /** What the first `n` directories have to offer: the first of the newest. */
  ghost predicate Best(b: Bucket, cluster: string, dirs: seq<string>, n: nat, best: Option<Fetcher.Candidate>)
    requires n <= |dirs|
  {
    (forall j | 0 <= j < n :: !Fetcher.ReadMetadata(b, cluster, dirs[j]).Broken?)
    && (best.None? ==> forall j | 0 <= j < n :: Fetcher.ReadMetadata(b, cluster, dirs[j]).Skip?)
    && (best.Some? ==> exists i | 0 <= i < n ::
          Fetcher.ReadMetadata(b, cluster, dirs[i]) == Fetcher.Take(best.value)
          && forall j | 0 <= j < n && Fetcher.ReadMetadata(b, cluster, dirs[j]).Take? ::
               if j < i then Fetcher.ReadMetadata(b, cluster, dirs[j]).c.unixtime < best.value.unixtime
               else Fetcher.ReadMetadata(b, cluster, dirs[j]).c.unixtime <= best.value.unixtime)
  }

  /** A newest entry of the catalogue, and no complete directory with unreadable metadata was passed over. */
  ghost predicate NewestEntry(b: Bucket, cluster: string, dir: string) {
    IsEntry(b, cluster, dir)
    && (forall d | IsEntry(b, cluster, d) ::
          Unixtime(b[MetadataKey(d)].body.meta).value <= Unixtime(b[MetadataKey(dir)].body.meta).value)
    && (forall d | CompleteUnder(b, cluster, d) :: !Fetcher.ReadMetadata(b, cluster, d).Broken?)
  }

  /** A newest entry, with the bytes the store holds for it. */
  ghost predicate IsLatest(b: Bucket, cluster: string, f: Fetcher.Fetched) {
    NewestEntry(b, cluster, f.dir)
    && f.payload == b[PayloadKey(f.dir)].body && f.checksum == b[ChecksumKey(f.dir)].body
    && f.metadata == b[MetadataKey(f.dir)].body
  }

  ghost predicate Readable(b: Bucket, cluster: string, d: string) {
    var k, r := MetadataKey(d), Fetcher.ReadMetadata(b, cluster, d);
    (IsEntry(b, cluster, d) ==> r.Take?)
    && (r.Take? ==> r.c.dir == d && k in b && b[k].body.Json? && BelongsTo(b[k].body.meta, cluster)
                    && Unixtime(b[k].body.meta) == Some(r.c.unixtime))
  }

  lemma EntryRead(b: Bucket, cluster: string, d: string)
    ensures Readable(b, cluster, d)
  {
    hide MetadataKey, PayloadKey, ChecksumKey, ClusterPrefix;
  }

  lemma BestIsLatest(b: Bucket, cluster: string, dirs: seq<string>, best: Option<Fetcher.Candidate>)
    requires NoSlash(cluster) && Best(b, cluster, dirs, |dirs|, best)
    requires var keys := Listing(b, ClusterPrefix(cluster)); dirs == Fetcher.CompleteDirs(keys, |keys|)
    ensures best.None? ==> CatalogueOf(b, cluster) == map[]
    ensures best.Some? ==> best.value.dir in dirs
    ensures best.Some? && Complete(b, best.value.dir) ==> NewestEntry(b, cluster, best.value.dir)
  {
    CatalogueDomain(b, cluster);
    EntriesListed(b, cluster, dirs);
    ListedUnder(b, cluster);
    forall d ensures Readable(b, cluster, d) { EntryRead(b, cluster, d); }
    forall d | d in dirs ensures !Fetcher.ReadMetadata(b, cluster, d).Broken? {}
    hide CompleteUnder, NoSlash, BelongsTo, Best, ClusterPrefix, PayloadKey, ChecksumKey, MetadataKey, CatalogueOf,
      Listing, Fetcher.CompleteDirs, Fetcher.ReadMetadata, Unixtime;
    if best.Some? { assert Readable(b, cluster, best.value.dir); }
    forall d | IsEntry(b, cluster, d)
      ensures best.Some? && Unixtime(b[MetadataKey(d)].body.meta).value <= best.value.unixtime
    {
      assert Readable(b, cluster, d) && d in dirs;
      BestBounds(b, cluster, dirs, best, d);
    }
    hide Readable;
  }

  lemma BestBounds(b: Bucket, cluster: string, dirs: seq<string>, best: Option<Fetcher.Candidate>, d: string)
    requires Best(b, cluster, dirs, |dirs|, best) && d in dirs && Readable(b, cluster, d) && IsEntry(b, cluster, d)
    ensures best.Some? && Unixtime(b[MetadataKey(d)].body.meta).value <= best.value.unixtime
  {
    var j :| 0 <= j < |dirs| && dirs[j] == d;
    assert !Fetcher.ReadMetadata(b, cluster, dirs[j]).Broken?;
    hide ClusterPrefix, PayloadKey, ChecksumKey, MetadataKey, Unixtime, NoSlash, BelongsTo, Fetcher.ReadMetadata;
  }

  /** Some complete directory has unreadable metadata, or every one is tidy and there is no entry. */
  ghost predicate Hopeless(b: Bucket, cluster: string) {
    (exists d :: CompleteUnder(b, cluster, d) && Fetcher.ReadMetadata(b, cluster, d).Broken?)
    || (Tidy(b, cluster) && CatalogueOf(b, cluster) == map[])
  }

  lemma FoundIsHope(b: Bucket, cluster: string, dirs: seq<string>, best: Option<Fetcher.Candidate>)
    requires NoSlash(cluster) && Best(b, cluster, dirs, |dirs|, best) && best.Some?
    requires var keys := Listing(b, ClusterPrefix(cluster)); dirs == Fetcher.CompleteDirs(keys, |keys|)
    ensures !Hopeless(b, cluster)
  {
    BestIsLatest(b, cluster, dirs, best);
    EntriesListed(b, cluster, dirs);
    CatalogueDomain(b, cluster);
    TidyDirs(b, cluster, dirs);
    hide Tidy, CompleteUnder, Complete, CatalogueOf, Listing, Fetcher.CompleteDirs, Fetcher.ReadMetadata, ClusterPrefix,
      IsEntry;
    forall d | d in dirs ensures !Fetcher.ReadMetadata(b, cluster, d).Broken? {}
  }

  ghost predicate CompleteUnder(b: Bucket, cluster: string, d: string) {
    NoSlash(d) && ClusterPrefix(cluster) <= d && Complete(b, d)
  }

  /** Some key has `file` as its second part in the directory. */
  ghost predicate Holding(b: Bucket, d: string, file: string) {
    exists k | k in b :: k == d + "/" + file || d + "/" + file + "/" <= k
  }

  /** A directory of the cluster that looks complete in a listing. */
  ghost predicate LooksComplete(b: Bucket, cluster: string, d: string) {
    '/' !in d && "galera-" + cluster + "-" <= d
    && Holding(b, d, "backup.tar.enc") && Holding(b, d, "backup.sha256") && Holding(b, d, "metadata.json")
  }

  /** Every directory that looks complete holds the three objects, and metadata that belongs elsewhere or says when the
      backup was made. */
  ghost predicate Tidy(b: Bucket, cluster: string) {
    forall d | LooksComplete(b, cluster, d) ::
      d + "/backup.tar.enc" in b && d + "/backup.sha256" in b && d + "/metadata.json" in b
      && match b[d + "/metadata.json"].body
         case Blob(_) => false
         case Json(m) => m.cluster != cluster || m.format < 1 || m.format > 3 || (m.created.Int? && m.created.n >= 0)
  }

  lemma ListedHolds(b: Bucket, keys: seq<string>, d: string, file: string)
    requires (forall k | k in keys :: k in b) && NoSlash(d) && NoSlash(file) && Fetcher.HasFile(keys, d, file)
    ensures Holding(b, d, file)
  {
    var i :| 0 <= i < |keys| && !NoSlash(keys[i]) && Dir(keys[i]) == d && Second(keys[i]) == file;
    assert keys[i] in keys;
    TwoParts(keys[i], d, file);
    hide Dir, Second, NoSlash;
  }

  lemma TwoParts(k: string, d: string, file: string)
    requires NoSlash(d) && NoSlash(file) && !NoSlash(k) && Dir(k) == d && Second(k) == file
    ensures k == d + "/" + file || d + "/" + file + "/" <= k
  {
    var rest := k[|d| + 1..];
    InsideIsDir(k, d);
    assert k == d + "/" + rest && Dir(rest) == file;
    if !NoSlash(rest) { InsideIsDir(rest, file); }
    hide *;
    SecondPart(k, d, rest, file);
  }

  lemma SecondPart(k: string, d: string, rest: string, file: string)
    requires k == d + "/" + rest && (rest == file || file + "/" <= rest)
    ensures k == d + "/" + file || d + "/" + file + "/" <= k
  {
    if file + "/" <= rest {
      assert k[..|d| + 1] == d + "/" && k[|d| + 1..] == rest;
      assert k[..|d| + |file| + 2] == d + "/" + rest[..|file| + 1];
    }
  }

  lemma ListedLooksComplete(b: Bucket, cluster: string, d: string)
    requires NoSlash(cluster)
    requires var keys := Listing(b, ClusterPrefix(cluster)); d in Fetcher.CompleteDirs(keys, |keys|)
    ensures LooksComplete(b, cluster, d)
  {
    var keys := Listing(b, ClusterPrefix(cluster));
    Fetcher.CompleteDirsMembers(keys, |keys|);
    ListedUnder(b, cluster);
    FileNamesPlain();
    hide Fetcher.CompleteDirs, Fetcher.HasFile, Holding;
    ListedHolds(b, keys, d, PAYLOAD);
    ListedHolds(b, keys, d, CHECKSUM);
    ListedHolds(b, keys, d, METADATA);
  }

  lemma TidyDir(b: Bucket, cluster: string, d: string)
    requires Tidy(b, cluster) && LooksComplete(b, cluster, d)
    ensures Complete(b, d) && !Fetcher.ReadMetadata(b, cluster, d).Broken?
  {
    PlainKeys(d);
    hide PayloadKey, ChecksumKey, MetadataKey, LooksComplete;
  }

  lemma TidyDirs(b: Bucket, cluster: string, dirs: seq<string>)
    requires NoSlash(cluster)
    requires var keys := Listing(b, ClusterPrefix(cluster)); dirs == Fetcher.CompleteDirs(keys, |keys|)
    ensures Tidy(b, cluster) ==> forall d | d in dirs :: Complete(b, d) && !Fetcher.ReadMetadata(b, cluster, d).Broken?
  {
    hide Tidy, LooksComplete, Complete, Fetcher.ReadMetadata, Fetcher.CompleteDirs, Listing;
    if Tidy(b, cluster) {
      forall d | d in dirs ensures Complete(b, d) && !Fetcher.ReadMetadata(b, cluster, d).Broken? {
        ListedLooksComplete(b, cluster, d);
        TidyDir(b, cluster, d);
      }
    }
  }

  lemma FileListed(b: Bucket, cluster: string, d: string, file: string)
    requires NoSlash(cluster) && NoSlash(d) && NoSlash(file) && ClusterPrefix(cluster) <= d && KeyOf(d, file) in b
    ensures Fetcher.HasFile(Listing(b, ClusterPrefix(cluster)), d, file)
    ensures var keys := Listing(b, ClusterPrefix(cluster));
      exists i | 0 <= i < |keys| :: !NoSlash(keys[i]) && Dir(keys[i]) == d
  {
    var k := KeyOf(d, file);
    var keys := Listing(b, ClusterPrefix(cluster));
    KeyOfParts(d, file);
    KeyOfInside(d, file);
    PrefixOfDir(cluster, d, k);
    assert k in keys;
    var i :| 0 <= i < |keys| && keys[i] == k;
  }

  lemma LatestIsNewest(b: Bucket, cluster: string, f: Fetcher.Fetched)
    requires IsLatest(b, cluster, f)
    ensures var c := CatalogueOf(b, cluster);
      NewestOf(c, f.dir) && f.payload == c[f.dir].payload && f.metadata == Json(c[f.dir].meta)
  {
    CatalogueDomain(b, cluster);
    hide CatalogueOf, ClusterPrefix, PayloadKey, ChecksumKey, MetadataKey;
  }

  lemma EntriesListed(b: Bucket, cluster: string, dirs: seq<string>)
    requires NoSlash(cluster)
    requires var keys := Listing(b, ClusterPrefix(cluster)); dirs == Fetcher.CompleteDirs(keys, |keys|)
    ensures forall d | CompleteUnder(b, cluster, d) :: d in dirs
  {
    var keys := Listing(b, ClusterPrefix(cluster));
    Fetcher.CompleteDirsMembers(keys, |keys|);
    forall d | CompleteUnder(b, cluster, d) ensures d in dirs {
      hide ClusterPrefix, Listing, Fetcher.HasFile, Fetcher.CompleteDirs, Dir;
      FileNamesPlain();
      hide NoSlash;
      FileListed(b, cluster, d, PAYLOAD);
      FileListed(b, cluster, d, CHECKSUM);
      FileListed(b, cluster, d, METADATA);
    }
  }

  lemma ListedUnder(b: Bucket, cluster: string)
    requires NoSlash(cluster)
    ensures var keys := Listing(b, ClusterPrefix(cluster));
      forall d | d in Fetcher.CompleteDirs(keys, |keys|) :: NoSlash(d) && ClusterPrefix(cluster) <= d
  {
    var keys := Listing(b, ClusterPrefix(cluster));
    Fetcher.CompleteDirsMembers(keys, |keys|);
    hide ClusterPrefix, Fetcher.CompleteIn, Fetcher.CompleteDirs, Inside;
    forall d | d in Fetcher.CompleteDirs(keys, |keys|) ensures NoSlash(d) && ClusterPrefix(cluster) <= d {
      var i :| 0 <= i < |keys| && !NoSlash(keys[i]) && Dir(keys[i]) == d;
      InsideIsDir(keys[i], d);
      assert keys[i] in keys;
      PrefixOfDir(cluster, d, keys[i]);
    }
  }
}
