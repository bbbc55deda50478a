/** Publishers and pruners on one cluster directory, in every interleaving of their system calls and under every fault. */
module FilesystemWorld {
  import opened Errors
  import opened Strings
  import opened Keys
  import opened Objects
  import opened Filesystem
  import FilesystemBackend

  /** One system call of one process. `pick` is the order in which the filesystem lists a directory, if it is one. */
  datatype Turn = Turn(call: Call, pick: seq<string>)

  function Order(names: set<string>, pick: seq<string>): (r: seq<string>)
    ensures forall k :: k in r <==> k in names
  {
    if (forall k | k in pick :: k in names) && (forall k | k in names :: k in pick) then pick else Enumerate(names)
  }

  // ---- the removal of a tree --------------------------------------------------------------------------------------

  /** The removal of a directory: list it, unlink what was listed, remove the directory. */
  datatype Removal = Removal(dir: string, scanned: bool, files: seq<string>)

  datatype Progress = Going(todo: Removal) | Gone | Stuck

  function RemovalStep(r: Removal, s: Disk, t: Turn): (Progress, Disk) {
    var c := t.call;
    if r.dir !in s || s[r.dir].Plain? then (Stuck, s)
    else if !r.scanned then
      (if c.Returns() then Going(Removal(r.dir, true, Order(s[r.dir].files.Keys, t.pick))) else Stuck, s)
    else if r.files != [] then
      var f := r.files[0];
      if f !in s[r.dir].files then (Stuck, s)
      else (if c.Returns() then Going(r.(files := r.files[1..])) else Stuck,
            if c.Takes() then s[r.dir := Tree(s[r.dir].files - {f}, c.now)] else s)
    else if s[r.dir].files != map[] then (Stuck, s)
    else (if c.Returns() then Gone else Stuck, if c.Takes() then s - {r.dir} else s)
  }

  /** A removal only removes, and only there. */
  lemma RemovalShrinks(r: Removal, s: Disk, t: Turn)
    ensures Removing(s, RemovalStep(r, s, t).1, r.dir)
    ensures RemovalStep(r, s, t).0.Going? ==> RemovalStep(r, s, t).0.todo.dir == r.dir
  {
  }

  // ---- retention --------------------------------------------------------------------------------------------------

  datatype PrunePc = List | Scan(names: seq<string>) | Clearing(todo: Removal, rest: seq<string>) | Done(ok: bool)

  datatype Prune = Prune(cluster: string, cutoff: int, pc: PrunePc)

  function PruneStart(cluster: string, cutoff: int): Prune { Prune(cluster, cutoff, List) }

  /** One child: None is an error, else whether it is to go. */
  function Verdict(q: Prune, s: Disk, k: string, c: Call): Option<bool> {
    if k !in s || s[k].Plain? then Some(false)
    else if PartialPrefix(q.cluster) <= k then if c.Returns() then Some(FilesystemBackend.AllOlder(s[k], q.cutoff)) else None
    else if !(ClusterPrefix(q.cluster) <= k) || METADATA !in s[k].files then Some(false)
    else if !c.Returns() || !FilesystemBackend.Readable(s[k]) then None
    else Some(Unixtime(s[k].files[METADATA].body.meta).value < q.cutoff)
  }

  function PruneStep(q: Prune, s: Disk, t: Turn): (Prune, Disk) {
    match q.pc
    case List => (q.(pc := if t.call.Returns() then Scan(Order(s.Keys, t.pick)) else Done(false)), s)
    case Scan(names) =>
      (if names == [] then q.(pc := Done(true))
       else match Verdict(q, s, names[0], t.call)
         case None => q.(pc := Done(false))
         case Some(false) => q.(pc := Scan(names[1..]))
         case Some(true) => q.(pc := Clearing(Removal(names[0], false, []), names[1..])), s)
    case Clearing(todo, rest) =>
      var (p, s') := RemovalStep(todo, s, t);
      (match p
       case Going(more) => q.(pc := Clearing(more, rest))
       case Gone => q.(pc := Scan(rest))
       case Stuck => q.(pc := Done(false)),
       s')
    case Done(_) => (q, s)
  }

  // ---- publication ------------------------------------------------------------------------------------------------

  /** The three files in the order in which they are copied. */
  function FileAt(i: nat): string { if i == 0 then PAYLOAD else if i == 1 then CHECKSUM else METADATA }

  function SourceAt(art: Artifact, i: nat): File {
    if i == 0 then art.payload else if i == 1 then art.checksum else art.metadata
  }

  datatype PubPc =
    | Look | Stale(todo: Removal) | Make | Opening(i: nat) | Closing(i: nat) | ReadBack | Renaming | Confirming
    | Tidying(todo: Removal) | Finished(ok: bool)

  datatype Pub = Pub(art: Artifact, pc: PubPc)

  function PubStart(art: Artifact): Pub { Pub(art, Look) }

  function Partial(p: Pub): string { PartialOf(p.art.name) }

  /** Into the `except` block. */
  function Fail(p: Pub): Pub { p.(pc := Tidying(Removal(Partial(p), false, []))) }

  /** The copy as it was read back is the payload that the metadata describes. */
  predicate Checked(p: Pub, s: Disk, c: Call, hash: Bytes -> string) {
    c.Returns() && ParseManifest(p.art.metadata.body, c.now).Some? && Partial(p) in s && s[Partial(p)].Tree?
    && PAYLOAD in s[Partial(p)].files
    && var m := ParseManifest(p.art.metadata.body, c.now).value;
       Matches(s[Partial(p)].files[PAYLOAD].body, m.size, m.sha, hash)
  }

  function PubStep(p: Pub, s: Disk, t: Turn, hash: Bytes -> string): (Pub, Disk) {
    var c, d := t.call, Partial(p);
    match p.pc
    case Look =>
      (p.(pc := if !c.fault.Works? then Finished(false) else if d in s then Stale(Removal(d, false, [])) else Make), s)
    case Stale(todo) =>
      var (g, s') := RemovalStep(todo, s, t);
      (match g
       case Going(more) => p.(pc := Stale(more))
       case Gone => p.(pc := Make)
       case Stuck => p.(pc := Finished(false)), s')
    case Make =>
      if p.art.name in s || d in s then (p.(pc := Finished(false)), s)
      else (p.(pc := if c.Returns() then Opening(0) else Finished(false)), if c.Takes() then s[d := Tree(map[], c.now)] else s)
    case Opening(i) =>
      if d !in s || s[d].Plain? then (Fail(p), s)
      else (if c.Returns() then p.(pc := Closing(i)) else Fail(p),
            if c.Takes() then Written(s, d, FileAt(i), Blob(c.during), c.now, c.now) else s)
    case Closing(i) =>
      if d !in s || s[d].Plain? || FileAt(i) !in s[d].files then (Fail(p), s)
      else (if c.Returns() then p.(pc := if i < 2 then Opening(i + 1) else ReadBack) else Fail(p),
            if c.Takes() then Written(s, d, FileAt(i), c.Lands(SourceAt(p.art, i).body), SourceAt(p.art, i).mtime, s[d].mtime)
            else s)
    case ReadBack => (if Checked(p, s, c, hash) then p.(pc := Renaming) else Fail(p), s)
    case Renaming =>
      if d !in s || p.art.name in s then (Fail(p), s)
      else (if c.Returns() then p.(pc := Confirming) else Fail(p), if c.Takes() then s[p.art.name := s[d]] - {d} else s)
    case Confirming => (if c.fault.Works? then p.(pc := Finished(true)) else Fail(p), s)
    case Tidying(todo) =>
      if !todo.scanned && d !in s then (p.(pc := Finished(false)), s)
      else
        var (g, s') := RemovalStep(todo, s, t);
        (match g
         case Going(more) => p.(pc := Tidying(more))
         case Gone => p.(pc := Finished(false))
         case Stuck => p.(pc := Finished(false)), s')
    case Finished(_) => (p, s)
  }

  // ---- the world --------------------------------------------------------------------------------------------------

  datatype Proc = Publishing(pub: Pub) | Pruning(prune: Prune)

  datatype World = World(disk: Disk, clock: int, procs: map<nat, Proc>)

  /** Process `pid` makes one call. A crash is a process that is never scheduled again. */
  function Advance(w: World, pid: nat, t: Turn, hash: Bytes -> string): World
    requires pid in w.procs
  {
    match w.procs[pid]
    case Publishing(p) => var (p', s) := PubStep(p, w.disk, t, hash);
      World(s, t.call.now, w.procs[pid := Publishing(p')])
    case Pruning(q) => var (q', s) := PruneStep(q, w.disk, t);
      World(s, t.call.now, w.procs[pid := Pruning(q')])
  }

  ghost predicate Next(w: World, w': World, hash: Bytes -> string) {
    exists pid: nat, t: Turn :: pid in w.procs && w.clock <= t.call.now && w' == Advance(w, pid, t, hash)
  }

  /** Not the name of a partial directory. */
  predicate Proper(name: string) { name != "" && name[0] != '.' }

  predicate AtStart(x: Proc) {
    match x
    case Publishing(p) => p == PubStart(p.art) && Proper(p.art.name)
    case Pruning(q) => q.pc.List?
  }

  predicate Publishes(x: Proc, d: string) { x.Publishing? && x.pub.art.name == d }

  ghost predicate DistinctNames(w: World) {
    forall i, j, d | i in w.procs && j in w.procs && Publishes(w.procs[i], d) && Publishes(w.procs[j], d) :: i == j
  }

  ghost predicate Behaviour(ws: seq<World>, hash: Bytes -> string) {
    |ws| > 0 && DistinctNames(ws[0]) && (forall i | i in ws[0].procs :: AtStart(ws[0].procs[i]))
    && (forall i | 0 <= i < |ws| - 1 :: Next(ws[i], ws[i + 1], hash))
  }

  // ---- no torn backup is ever visible -----------------------------------------------------------------------------

  predicate SoundNode(n: Node, hash: Bytes -> string) {
    n.Tree? && PAYLOAD in n.files && METADATA in n.files ==> Verified(n.files[PAYLOAD].body, n.files[METADATA].body, hash)
  }

  /** No finished directory with a commit marker holds a payload other than the one the marker describes. */
  ghost predicate SoundDisk(s: Disk, hash: Bytes -> string) {
    forall k | k in s && Proper(k) :: SoundNode(s[k], hash)
  }

  /** The same, file by file. */
  ghost predicate NothingTorn(s: Disk, hash: Bytes -> string) {
    forall k | k in s && s[k].Tree? && k != "" && k[0] != '.'
               && "backup.tar.enc" in s[k].files && "metadata.json" in s[k].files ::
      Fits(s[k].files["backup.tar.enc"].body, s[k].files["metadata.json"].body, hash)
  }

  lemma SoundIff(s: Disk, hash: Bytes -> string)
    ensures SoundDisk(s, hash) <==> NothingTorn(s, hash)
  {
    forall p, m ensures Verified(p, m, hash) <==> Fits(p, m, hash) { VerifiedFits(p, m, hash); }
    hide Verified, Fits;
    if NothingTorn(s, hash) {
      forall k | k in s && Proper(k) ensures SoundNode(s[k], hash) {}
    }
    if SoundDisk(s, hash) {
      forall k | k in s && s[k].Tree? && k != "" && k[0] != '.'
                 && "backup.tar.enc" in s[k].files && "metadata.json" in s[k].files
        ensures Fits(s[k].files["backup.tar.enc"].body, s[k].files["metadata.json"].body, hash)
      {
        assert SoundNode(s[k], hash);
      }
    }
  }

  /** The staged metadata is the source's, as far as it is there. */
  predicate MetadataGood(p: Pub, s: Disk) {
    Partial(p) in s && s[Partial(p)].Tree? && METADATA in s[Partial(p)].files && p.art.metadata.body.Json?
    ==> s[Partial(p)].files[METADATA].body == p.art.metadata.body
  }

  predicate PayloadGood(p: Pub, s: Disk, hash: Bytes -> string) {
    Partial(p) in s && s[Partial(p)].Tree? && PAYLOAD in s[Partial(p)].files
    ==> Verified(s[Partial(p)].files[PAYLOAD].body, p.art.metadata.body, hash)
  }

  /** A publisher only ever removes its own partial directory, and renames only what it has checked. */
  predicate SafePub(p: Pub, s: Disk, hash: Bytes -> string) {
    Proper(p.art.name)
    && (p.pc.Stale? || p.pc.Tidying? ==> p.pc.todo.dir == Partial(p))
    && (p.pc.ReadBack? ==> MetadataGood(p, s))
    && (p.pc.Renaming? ==> p.art.metadata.body.Json? && MetadataGood(p, s) && PayloadGood(p, s, hash))
  }

  ghost predicate Safe(w: World, hash: Bytes -> string) {
    SoundDisk(w.disk, hash) && DistinctNames(w)
    && forall i | i in w.procs && w.procs[i].Publishing? :: SafePub(w.procs[i].pub, w.disk, hash)
  }

  lemma PartialIsNotProper(name: string)
    ensures !Proper(PartialOf(name)) && forall d | PartialOf(name) == PartialOf(d) :: d == name
  {
    forall d | PartialOf(name) == PartialOf(d) ensures d == name {
      assert name == PartialOf(name)[9..] && d == PartialOf(d)[9..];
    }
  }

  /** Outside its two names a publisher changes nothing. */
  ghost predicate SameElsewhere(s: Disk, s': Disk, name: string) {
    forall k | k != name && k != PartialOf(name) :: SameChild(s, s', k)
  }

  lemma PubFrame(p: Pub, s: Disk, t: Turn, hash: Bytes -> string)
    requires SafePub(p, s, hash)
    ensures SameElsewhere(s, PubStep(p, s, t, hash).1, p.art.name) && PubStep(p, s, t, hash).0.art == p.art
    ensures !p.pc.Renaming? ==> SameChild(s, PubStep(p, s, t, hash).1, p.art.name)
  {
    PartialIsNotProper(p.art.name);
    if p.pc.Stale? || p.pc.Tidying? { RemovalShrinks(p.pc.todo, s, t); }
    hide RemovalStep, Checked, SafePub, PartialOf;
  }

  lemma ClosedIsGood(p: Pub, s: Disk, t: Turn, hash: Bytes -> string)
    requires SafePub(p, s, hash) && p.pc.Closing? && PubStep(p, s, t, hash).0.pc.ReadBack?
    ensures MetadataGood(PubStep(p, s, t, hash).0, PubStep(p, s, t, hash).1)
  {
  }

  lemma CheckedIsGood(p: Pub, s: Disk, c: Call, hash: Bytes -> string)
    requires Checked(p, s, c, hash)
    ensures p.art.metadata.body.Json? && PayloadGood(p, s, hash)
  {
  }

  lemma SafePubStep(p: Pub, s: Disk, t: Turn, hash: Bytes -> string)
    requires SafePub(p, s, hash)
    ensures SafePub(PubStep(p, s, t, hash).0, PubStep(p, s, t, hash).1, hash)
  {
    if p.pc.Stale? || p.pc.Tidying? { RemovalShrinks(p.pc.todo, s, t); }
    if p.pc.Closing? && PubStep(p, s, t, hash).0.pc.ReadBack? { ClosedIsGood(p, s, t, hash); }
    if p.pc.ReadBack? && Checked(p, s, t.call, hash) { CheckedIsGood(p, s, t.call, hash); }
    hide RemovalStep, Checked, MetadataGood, PayloadGood, Written, PartialOf;
  }

  /** Every directory of `s'` was in `s` and has at most lost files. */
  ghost predicate Shrunk(s: Disk, s': Disk) {
    forall k | k in s' :: k in s && (s'[k] == s[k] || Eroded(s[k], s'[k]))
  }

  lemma RemovingShrinks(s: Disk, s': Disk, d: string)
    requires Removing(s, s', d)
    ensures Shrunk(s, s')
  {
    forall k | k in s' ensures k in s && (s'[k] == s[k] || Eroded(s[k], s'[k])) {
      if k != d { assert SameChild(s, s', k); }
    }
  }

  lemma SoundShrinks(s: Disk, s': Disk, hash: Bytes -> string)
    requires SoundDisk(s, hash) && Shrunk(s, s')
    ensures SoundDisk(s', hash)
  {
    forall k | k in s' && Proper(k) ensures SoundNode(s'[k], hash) {
      assert k in s && SoundNode(s[k], hash);
    }
  }

  lemma SafeShrinks(p: Pub, s: Disk, s': Disk, hash: Bytes -> string)
    requires SafePub(p, s, hash) && Shrunk(s, s')
    ensures SafePub(p, s', hash)
  {
    hide PartialOf;
  }

  lemma SafeSame(p: Pub, s: Disk, s': Disk, hash: Bytes -> string)
    requires SafePub(p, s, hash) && SameChild(s, s', Partial(p))
    ensures SafePub(p, s', hash)
  {
    hide PartialOf;
  }

  lemma SoundPubStep(p: Pub, s: Disk, t: Turn, hash: Bytes -> string)
    requires SoundDisk(s, hash) && SafePub(p, s, hash)
    ensures SoundDisk(PubStep(p, s, t, hash).1, hash)
  {
    var s' := PubStep(p, s, t, hash).1;
    PubFrame(p, s, t, hash);
    PartialIsNotProper(p.art.name);
    if p.pc.Renaming? { RenamedIsSound(p, s, t, hash); }
    hide PubStep, SafePub, SoundNode, PartialOf;
    forall k | k in s' && Proper(k) ensures SoundNode(s'[k], hash) {
      if k != p.art.name || !p.pc.Renaming? { assert SameChild(s, s', k); }
    }
  }

  lemma RenamedIsSound(p: Pub, s: Disk, t: Turn, hash: Bytes -> string)
    requires SoundDisk(s, hash) && SafePub(p, s, hash) && p.pc.Renaming?
    ensures var s' := PubStep(p, s, t, hash).1; p.art.name in s' ==> SoundNode(s'[p.art.name], hash)
  {
    assert p.art.name in s ==> SoundNode(s[p.art.name], hash);
    PartialIsNotProper(p.art.name);
    hide PartialOf, Verified;
  }

  lemma NamesApart(d: string, e: string)
    requires Proper(d) && Proper(e) && d != e
    ensures PartialOf(d) != e && PartialOf(d) != PartialOf(e) && d != PartialOf(e)
  {
    PartialIsNotProper(d);
    PartialIsNotProper(e);
  }

  lemma PruneShrinks(q: Prune, s: Disk, t: Turn)
    ensures Shrunk(s, PruneStep(q, s, t).1)
    ensures PruneStep(q, s, t).0.cluster == q.cluster && PruneStep(q, s, t).0.cutoff == q.cutoff
  {
    if q.pc.Clearing? {
      RemovalShrinks(q.pc.todo, s, t);
      RemovingShrinks(s, PruneStep(q, s, t).1, q.pc.todo.dir);
    }
    hide RemovalStep, Verdict;
  }

  lemma Distinct(w: World, i: nat, j: nat)
    requires DistinctNames(w) && i in w.procs && j in w.procs && i != j
    requires w.procs[i].Publishing? && w.procs[j].Publishing?
    ensures w.procs[i].pub.art.name != w.procs[j].pub.art.name
  {
    assert Publishes(w.procs[i], w.procs[i].pub.art.name);
    assert Publishes(w.procs[j], w.procs[i].pub.art.name) ==> i == j;
  }

  lemma NamesKept(w: World, pid: nat, t: Turn, hash: Bytes -> string)
    requires Safe(w, hash) && pid in w.procs
    ensures DistinctNames(Advance(w, pid, t, hash)) && Advance(w, pid, t, hash).procs.Keys == w.procs.Keys
  {
    if w.procs[pid].Publishing? { PubFrame(w.procs[pid].pub, w.disk, t, hash); }
    hide PubStep, PruneStep, SafePub;
    var w' := Advance(w, pid, t, hash);
    forall i, j, d | i in w'.procs && j in w'.procs && Publishes(w'.procs[i], d) && Publishes(w'.procs[j], d) ensures i == j {
      assert Publishes(w.procs[i], d) && Publishes(w.procs[j], d);
    }
  }

  lemma SafeAdvance(w: World, pid: nat, t: Turn, hash: Bytes -> string)
    requires Safe(w, hash) && pid in w.procs
    ensures Safe(Advance(w, pid, t, hash), hash)
  {
    NamesKept(w, pid, t, hash);
    var w' := Advance(w, pid, t, hash);
    match w.procs[pid]
    case Publishing(p) =>
      SafePubStep(p, w.disk, t, hash);
      SoundPubStep(p, w.disk, t, hash);
      PubFrame(p, w.disk, t, hash);
      SafeProper(w, hash);
      hide PubStep, SafePub, SoundDisk;
      forall i | i in w'.procs && w'.procs[i].Publishing? ensures SafePub(w'.procs[i].pub, w'.disk, hash) {
        if i != pid {
          Distinct(w, i, pid);
          NamesApart(w.procs[i].pub.art.name, p.art.name);
          SafeSame(w.procs[i].pub, w.disk, w'.disk, hash);
        }
      }
    case Pruning(q) =>
      PruneShrinks(q, w.disk, t);
      SoundShrinks(w.disk, w'.disk, hash);
      hide PruneStep, SafePub, SoundDisk;
      forall i | i in w'.procs && w'.procs[i].Publishing? ensures SafePub(w'.procs[i].pub, w'.disk, hash) {
        SafeShrinks(w.procs[i].pub, w.disk, w'.disk, hash);
      }
  }

  lemma SafeProper(w: World, hash: Bytes -> string)
    requires Safe(w, hash)
    ensures forall i | i in w.procs && w.procs[i].Publishing? :: Proper(w.procs[i].pub.art.name)
  {
  }

  /** The last step of a behaviour, and the behaviour before it. */
  lemma LastStep(ws: seq<World>, hash: Bytes -> string) returns (w: World, pid: nat, t: Turn)
    requires Behaviour(ws, hash) && |ws| > 1
    ensures Behaviour(ws[..|ws| - 1], hash) && w == ws[|ws| - 2]
    ensures pid in w.procs && w.clock <= t.call.now && ws[|ws| - 1] == Advance(w, pid, t, hash)
  {
    hide PubStep, PruneStep, Advance;
    w := ws[|ws| - 2];
    assert Next(w, ws[|ws| - 2 + 1], hash);
    pid, t :| pid in w.procs && w.clock <= t.call.now && ws[|ws| - 1] == Advance(w, pid, t, hash);
    var before := ws[..|ws| - 1];
    forall i | 0 <= i < |before| - 1 ensures Next(before[i], before[i + 1], hash) {
      assert Next(ws[i], ws[i + 1], hash);
    }
  }

  /** Whatever the interleaving, the faults and the crashes: a finished directory that shows metadata and a payload shows the
      payload that the metadata describes. */
  lemma NoTornBackup(ws: seq<World>, hash: Bytes -> string)
    requires Behaviour(ws, hash) && NothingTorn(ws[0].disk, hash)
    ensures forall i | 0 <= i < |ws| :: NothingTorn(ws[i].disk, hash)
  {
    SoundIff(ws[0].disk, hash);
    SafeThroughout(ws, hash);
    hide PubStep, PruneStep, Advance, SoundDisk, NothingTorn;
    forall i | 0 <= i < |ws| ensures NothingTorn(ws[i].disk, hash) {
      assert Safe(ws[i], hash);
      SoundIff(ws[i].disk, hash);
    }
  }

  lemma {:induction false} SafeThroughout(ws: seq<World>, hash: Bytes -> string)
    requires Behaviour(ws, hash) && SoundDisk(ws[0].disk, hash)
    ensures forall i | 0 <= i < |ws| :: Safe(ws[i], hash)
  {
    hide PubStep, PruneStep, Advance, SoundDisk;
    if |ws| > 1 {
      var w, pid, t := LastStep(ws, hash);
      SafeThroughout(ws[..|ws| - 1], hash);
      assert ws[..|ws| - 1][|ws| - 2] == w;
      SafeAdvance(w, pid, t, hash);
    }
  }
}
