/** S3 publication as a step machine: one step is one call to the store or to the local readback file. */
module Publisher {
  import opened Errors
  import opened Strings
  import opened Keys
  import opened Objects

  /** How one call ends. `WorksThenFails` takes effect and then raises; `Garbles` returns normally but an upload has
      stored other bytes. A call that `Fails` has no effect. */
  datatype Outcome = Works | Fails | WorksThenFails | Garbles(data: Bytes)

  datatype Call = Call(outcome: Outcome, now: int) {
    predicate Takes() { !outcome.Fails? }
    predicate Returns() { outcome.Works? || outcome.Garbles? }
  }

  datatype Artifact = Artifact(name: string, payload: Bytes, checksum: Bytes, metadata: Body)

  /** One line of the clean-up report. */
  datatype Note = ReadbackKept | NotRemoved(key: string) | Residue(keys: seq<string>) | Unverified

  datatype PublishResult =
    | Published(name: string, sha: string, size: int, unixtime: int)
    | Refused(code: Code)
    | Failed(code: Code, notes: seq<Note>)

  datatype Pc =
    | CheckEmpty | PutPayload | PutChecksum | OpenReadback | Download | DropReadback | PutMetadata
    | UnlinkReadback | Undo(keys: seq<string>) | Relist | Sweep(keys: seq<string>) | Verify
    | Finished(result: PublishResult)

  datatype Pub = Pub(art: Artifact, pc: Pc, manifest: Manifest, uploaded: seq<string>, readback: bool,
                     code: Code, errors: seq<Note>, notes: seq<Note>)

  function Start(art: Artifact): Pub {
    Pub(art, CheckEmpty, Manifest(0, "", 0), [], false, E_STORAGE, [], [])
  }

  function Put(b: Bucket, k: string, body: Body, c: Call): Bucket {
    if c.Takes() then b[k := Obj(if c.outcome.Garbles? && body.Blob? then Blob(c.outcome.data) else body, Some(c.now))] else b
  }

  function Remove(b: Bucket, k: string, c: Call): Bucket {
    if c.Takes() then b - {k} else b
  }

  function Reverse(s: seq<string>): (r: seq<string>)
    ensures forall x :: x in r <==> x in s
  {
    if s == [] then [] else Reverse(s[1..]) + [s[0]]
  }

  function UndoFrom(keys: seq<string>): Pc { if keys == [] then Relist else Undo(keys) }

  function SweepFrom(keys: seq<string>): Pc { if keys == [] then Verify else Sweep(keys) }

  /** Enter the `except` block with the primary error. */
  function Fail(p: Pub, code: Code): Pub {
    p.(code := code, pc := if p.readback then UnlinkReadback else UndoFrom(Reverse(p.uploaded)))
  }

  function Raise(p: Pub, more: seq<Note>): Pub {
    p.(pc := Finished(Failed(p.code, p.notes + more)), notes := p.notes + more)
  }

  function Removed(p: Pub, c: Call, pc: Pc): Pub
    requires (p.pc.Undo? || p.pc.Sweep?) && p.pc.keys != []
  {
    p.(pc := pc, errors := if c.Returns() then p.errors else p.errors + [NotRemoved(p.pc.keys[0])])
  }

  predicate WellFormed(p: Pub) {
    (p.pc.Undo? || p.pc.Sweep?) ==> p.pc.keys != []
  }

  function Prefix(p: Pub): string { p.art.name + "/" }

  predicate Writing(pc: Pc) {
    pc.PutPayload? || pc.PutChecksum? || pc.OpenReadback? || pc.Download? || pc.DropReadback? || pc.PutMetadata?
  }

  predicate Untouched(pc: Pc) { pc.CheckEmpty? || (pc.Finished? && pc.result.Refused?) }

  predicate Closing(pc: Pc) { !Writing(pc) && !Untouched(pc) }

  predicate CleaningUp(pc: Pc) { Closing(pc) && !pc.Finished? }

  /** The refusal checks and the `try` block of `S3Backend.publish`. */
  function Forward(p: Pub, b: Bucket, c: Call, hash: Bytes -> string): (Pub, Bucket)
    requires p.pc.CheckEmpty? || Writing(p.pc)
  {
    var name := p.art.name;
    match p.pc
    case CheckEmpty =>
      (if !c.Returns() || Listing(b, Prefix(p)) != [] then p.(pc := Finished(Refused(E_STORAGE)))
       else match ParseManifest(p.art.metadata, c.now)
         case None => p.(pc := Finished(Refused(E_INTEGRITY)))
         case Some(m) => p.(pc := PutPayload, manifest := m), b)
    case PutPayload =>
      (if c.Returns() then p.(pc := PutChecksum, uploaded := p.uploaded + [PayloadKey(name)]) else Fail(p, E_STORAGE),
       Put(b, PayloadKey(name), Blob(p.art.payload), c))
    case PutChecksum =>
      (if c.Returns() then p.(pc := OpenReadback, uploaded := p.uploaded + [ChecksumKey(name)]) else Fail(p, E_STORAGE),
       Put(b, ChecksumKey(name), Blob(p.art.checksum), c))
    case OpenReadback =>
      (if c.Returns() then p.(pc := Download, readback := true) else Fail(p, E_INTEGRITY), b)
    case Download =>
      (if c.Returns() && PayloadKey(name) in b
          && Matches(b[PayloadKey(name)].body, p.manifest.size, p.manifest.sha, hash)
       then p.(pc := DropReadback) else Fail(p, E_INTEGRITY), b)
    case DropReadback =>
      var p' := p.(readback := !c.Takes());
      (if c.Returns() then p'.(pc := PutMetadata) else Fail(p', E_STORAGE), b)
    case PutMetadata =>
      (if c.Returns()
       then p.(pc := Finished(Published(name, p.manifest.sha, p.manifest.size, p.manifest.unixtime)),
               uploaded := p.uploaded + [MetadataKey(name)])
       else Fail(p, E_STORAGE),
       Put(b, MetadataKey(name), p.art.metadata, c))
  }

  /** The `except` block: clean up, verify the clean-up, raise. */
  function Backward(p: Pub, b: Bucket, c: Call): (Pub, Bucket)
    requires WellFormed(p) && CleaningUp(p.pc)
  {
    match p.pc
    case UnlinkReadback =>
      (p.(pc := UndoFrom(Reverse(p.uploaded)), readback := !c.Takes(),
          notes := if c.Returns() then p.notes else p.notes + [ReadbackKept]), b)
    case Undo(keys) => (Removed(p, c, UndoFrom(keys[1..])), Remove(b, keys[0], c))
    case Relist =>
      (if c.Returns() then p.(pc := SweepFrom(Listing(b, Prefix(p)))) else Raise(p, p.errors + [Unverified]), b)
    case Sweep(keys) => (Removed(p, c, SweepFrom(keys[1..])), Remove(b, keys[0], c))
    case Verify =>
      (if !c.Returns() then Raise(p, p.errors + [Unverified])
       else if Listing(b, Prefix(p)) != [] then Raise(p, p.errors + [Residue(Listing(b, Prefix(p)))])
       else Raise(p, []), b)
  }

  /** One step of `S3Backend.publish`. */
  function Step(p: Pub, b: Bucket, c: Call, hash: Bytes -> string): (Pub, Bucket)
    requires WellFormed(p)
  {
    if p.pc.Finished? then (p, b)
    else if CleaningUp(p.pc) then Backward(p, b, c)
    else Forward(p, b, c, hash)
  }

  // ---- what every step keeps --------------------------------------------------------------------------------------

  ghost predicate PayloadGood(p: Pub, b: Bucket, hash: Bytes -> string) {
    PayloadKey(p.art.name) in b
    ==> Matches(b[PayloadKey(p.art.name)].body, p.manifest.size, p.manifest.sha, hash)
  }

  ghost predicate ManifestOf(p: Pub) {
    p.art.metadata.Json? && p.art.metadata.meta.size == Some(p.manifest.size)
    && p.art.metadata.meta.sha == Some(p.manifest.sha)
  }

  /** It only ever undoes or sweeps objects of its own directory. */
  ghost predicate OwnKeys(p: Pub) {
    WellFormed(p) && (forall k | k in p.uploaded :: Inside(k, p.art.name))
    && ((p.pc.Undo? || p.pc.Sweep?) ==> forall k | k in p.pc.keys :: Inside(k, p.art.name))
  }

  /** The safety invariant of a publisher: no metadata object before the payload was verified, and none but its own
      after. It tolerates objects disappearing under the publisher's feet. */
  ghost predicate Safe(p: Pub, b: Bucket, hash: Bytes -> string) {
    var metaKey := MetadataKey(p.art.name);
    NoSlash(p.art.name) && OwnKeys(p)
    && (!Untouched(p.pc) ==> ManifestOf(p))
    && (Writing(p.pc) ==> metaKey !in b)
    && (p.pc.DropReadback? || p.pc.PutMetadata? ==> PayloadGood(p, b, hash))
    && (Closing(p.pc) ==> metaKey in b ==> b[metaKey].body == p.art.metadata && PayloadGood(p, b, hash))
  }

  lemma StepFrame(p: Pub, b: Bucket, c: Call, hash: Bytes -> string)
    requires OwnKeys(p)
    ensures SameOutside(b, Step(p, b, c, hash).1, p.art.name)
    ensures Step(p, b, c, hash).0.art == p.art
    ensures Untouched(p.pc) ==> Step(p, b, c, hash).1 == b
  {
    ThreeKeys(p.art.name);
  }

  lemma OwnKeysForward(p: Pub, b: Bucket, c: Call, hash: Bytes -> string)
    requires OwnKeys(p) && (p.pc.CheckEmpty? || Writing(p.pc))
    ensures OwnKeys(Forward(p, b, c, hash).0)
  {
    hide Inside, PayloadKey, ChecksumKey, MetadataKey, ParseManifest, Matches, Listing;
    ThreeKeys(p.art.name);
  }

  lemma OwnKeysBackward(p: Pub, b: Bucket, c: Call)
    requires OwnKeys(p) && CleaningUp(p.pc)
    ensures OwnKeys(Backward(p, b, c).0)
  {
  }

  lemma OwnKeysStep(p: Pub, b: Bucket, c: Call, hash: Bytes -> string)
    requires OwnKeys(p)
    ensures OwnKeys(Step(p, b, c, hash).0)
  {
    if CleaningUp(p.pc) {
      OwnKeysBackward(p, b, c);
    } else if !p.pc.Finished? {
      OwnKeysForward(p, b, c, hash);
    }
  }

  lemma SafeStart(p: Pub, b: Bucket, c: Call, hash: Bytes -> string)
    requires Safe(p, b, hash) && p.pc.CheckEmpty?
    ensures Safe(Forward(p, b, c, hash).0, b, hash)
  {
    ThreeKeys(p.art.name);
    assert MetadataKey(p.art.name) in b ==> MetadataKey(p.art.name) in Listing(b, Prefix(p));
    hide Inside, PayloadKey, ChecksumKey, MetadataKey, Matches, Listing;
  }

  lemma SafeUpload(p: Pub, b: Bucket, c: Call, hash: Bytes -> string)
    requires Safe(p, b, hash) && (p.pc.PutPayload? || p.pc.PutChecksum? || p.pc.OpenReadback?)
    ensures Safe(Forward(p, b, c, hash).0, Forward(p, b, c, hash).1, hash)
  {
    hide Inside, PayloadKey, ChecksumKey, MetadataKey, Matches, Reverse;
    ThreeKeys(p.art.name);
    OwnKeysForward(p, b, c, hash);
    hide OwnKeys;
  }

  lemma SafeCommit(p: Pub, b: Bucket, c: Call, hash: Bytes -> string)
    requires Safe(p, b, hash) && (p.pc.Download? || p.pc.DropReadback? || p.pc.PutMetadata?)
    ensures Safe(Forward(p, b, c, hash).0, Forward(p, b, c, hash).1, hash)
  {
    hide Inside, PayloadKey, ChecksumKey, MetadataKey, Matches;
    ThreeKeys(p.art.name);
    OwnKeysForward(p, b, c, hash);
    hide OwnKeys;
  }

  /** Cleaning up only removes objects, and ends by raising. */
  lemma BackwardShape(p: Pub, b: Bucket, c: Call)
    requires WellFormed(p) && CleaningUp(p.pc)
    ensures Shrinks(b, Backward(p, b, c).1)
    ensures var p' := Backward(p, b, c).0; Closing(p'.pc) && p'.art == p.art && p'.manifest == p.manifest
  {
    hide Listing, Reverse, Inside, PayloadKey;
  }

  lemma SafeBackward(p: Pub, b: Bucket, c: Call, hash: Bytes -> string)
    requires Safe(p, b, hash) && CleaningUp(p.pc)
    ensures Safe(Backward(p, b, c).0, Backward(p, b, c).1, hash)
  {
    OwnKeysBackward(p, b, c);
    BackwardShape(p, b, c);
    hide Backward, PayloadKey, ChecksumKey, MetadataKey, Matches;
  }

  lemma SafeStep(p: Pub, b: Bucket, c: Call, hash: Bytes -> string)
    requires Safe(p, b, hash)
    ensures Safe(Step(p, b, c, hash).0, Step(p, b, c, hash).1, hash)
  {
    if CleaningUp(p.pc) {
      SafeBackward(p, b, c, hash);
    } else if p.pc.Download? || p.pc.DropReadback? || p.pc.PutMetadata? {
      SafeCommit(p, b, c, hash);
    } else if p.pc.CheckEmpty? {
      SafeStart(p, b, c, hash);
    } else if !p.pc.Finished? {
      SafeUpload(p, b, c, hash);
    }
  }

  /** Other processes may remove objects of this directory, never add or change them. */
  lemma SafeUnderRemovals(p: Pub, b: Bucket, b': Bucket, hash: Bytes -> string)
    requires Safe(p, b, hash)
    requires forall k | Inside(k, p.art.name) && k in b' :: k in b && b[k] == b'[k]
    ensures Safe(p, b', hash)
  {
    ThreeKeys(p.art.name);
  }

  /** A step of a safe publisher keeps the whole bucket sound. */
  lemma SoundStep(p: Pub, b: Bucket, c: Call, hash: Bytes -> string)
    requires Safe(p, b, hash) && Sound(b, hash)
    ensures Sound(Step(p, b, c, hash).1, hash)
  {
    var (p', b') := Step(p, b, c, hash);
    StepFrame(p, b, c, hash);
    if !Untouched(p.pc) {
      SafeStep(p, b, c, hash);
      SoundFrame(b, b', p.art.name, hash);
    }
  }
}
