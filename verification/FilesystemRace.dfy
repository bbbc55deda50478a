/** The exact condition under which retention spares a publication on the filesystem, in every interleaving. */
module FilesystemRace {
  import opened Errors
  import opened Strings
  import opened Keys
  import opened Objects
  import opened Filesystem
  import opened FilesystemWorld
  import FilesystemBackend

  /** The directory of the publication stands: made, and not given up. */
  predicate Stands(pc: PubPc) {
    pc.Opening? || pc.Closing? || pc.ReadBack? || pc.Renaming? || pc.Confirming? || pc == Finished(true)
  }

  /** It will not be published any more. */
  predicate Lost(pc: PubPc) { pc.Tidying? || pc == Finished(false) }

  ghost predicate Standing(w: World, pid: nat) { pid in w.procs && w.procs[pid].Publishing? && Stands(w.procs[pid].pub.pc) }

  /** The window covers the time stamp in the metadata. */
  predicate StampInWindow(art: Artifact, cutoff: int) {
    art.metadata.body.Json? && Unixtime(art.metadata.body.meta).Some? ==> cutoff <= Unixtime(art.metadata.body.meta).value
  }

  /** The pruner's cutoff lies before the directory was made and before the stamp, and it has nothing of it in its hands. */
  ghost predicate Behind(q: Prune, art: Artifact, since: int) {
    q.cutoff <= since && StampInWindow(art, q.cutoff)
    && (q.pc.Clearing? ==> q.pc.todo.dir != art.name && q.pc.todo.dir != PartialOf(art.name))
  }

  function FirstFiles(n: nat): set<string> {
    if n == 0 then {} else if n == 1 then {PAYLOAD} else if n == 2 then {PAYLOAD, CHECKSUM} else {PAYLOAD, CHECKSUM, METADATA}
  }

  /** The partial directory holds the first `n` files and is young. */
  predicate Holds(s: Disk, name: string, n: nat, since: int) {
    name !in s && PartialOf(name) in s && s[PartialOf(name)].Tree? && s[PartialOf(name)].mtime >= since
    && s[PartialOf(name)].files.Keys == FirstFiles(n)
  }

  predicate Listed(s: Disk, art: Artifact) {
    PartialOf(art.name) !in s && art.name in s && IsComplete(s[art.name])
    && art.metadata.body.Json? && s[art.name].files[METADATA].body == art.metadata.body
  }

  /** What the publication has on the disk at each point. */
  predicate StagedAt(p: Pub, s: Disk, since: int) {
    match p.pc
    case Look => p.art.name !in s && Partial(p) !in s
    case Make => p.art.name !in s && Partial(p) !in s
    case Opening(i) => i < 3 && Holds(s, p.art.name, i, since)
    case Closing(i) => i < 3 && Holds(s, p.art.name, i + 1, since)
    case ReadBack => Holds(s, p.art.name, 3, since)
    case Renaming => Holds(s, p.art.name, 3, since)
    case Confirming => Listed(s, p.art)
    case Finished(ok) => ok && Listed(s, p.art)
    case _ => false
  }

  ghost predicate Undisturbed(w: World, pid: nat, since: int, hash: Bytes -> string) {
    Safe(w, hash) && pid in w.procs && w.procs[pid].Publishing?
    && var p := w.procs[pid].pub;
       Lost(p.pc)
       || (StagedAt(p, w.disk, since) && (Stands(p.pc) ==> since <= w.clock)
           && forall i | i in w.procs && w.procs[i].Pruning? :: Behind(w.procs[i].prune, p.art, since))
  }

  // ---- the publisher's own steps ----------------------------------------------------------------------------------

  lemma FilesGrow(n: nat)
    requires n < 3
    ensures FirstFiles(n + 1) == FirstFiles(n) + {FileAt(n)}
  {
  }

  lemma OwnStep(p: Pub, s: Disk, t: Turn, since: int, hash: Bytes -> string)
    requires SafePub(p, s, hash) && StagedAt(p, s, since)
    requires Stands(p.pc) || Stands(PubStep(p, s, t, hash).0.pc) ==> since <= t.call.now
    ensures var (p', s') := PubStep(p, s, t, hash); p'.art == p.art && (Lost(p'.pc) || StagedAt(p', s', since))
  {
    match p.pc
    case Look => hide PartialOf;
    case Make => MakeStep(p, s, t, since, hash);
    case Opening(_) => OpeningStep(p, s, t, since, hash);
    case Closing(_) => ClosingStep(p, s, t, since, hash);
    case ReadBack => hide PartialOf, Checked;
    case Renaming => RenamingStep(p, s, t, since, hash);
    case Confirming => hide PartialOf;
    case Finished(_) => hide PartialOf;
  }

  lemma MakeStep(p: Pub, s: Disk, t: Turn, since: int, hash: Bytes -> string)
    requires StagedAt(p, s, since) && p.pc.Make? && Proper(p.art.name)
    requires Stands(PubStep(p, s, t, hash).0.pc) ==> since <= t.call.now
    ensures var (p', s') := PubStep(p, s, t, hash); p'.art == p.art && (Lost(p'.pc) || StagedAt(p', s', since))
  {
    PartialIsNotProper(p.art.name);
    hide PartialOf;
    var none: map<string, File> := map[];
    assert none.Keys == {};
  }

  lemma OpeningStep(p: Pub, s: Disk, t: Turn, since: int, hash: Bytes -> string)
    requires StagedAt(p, s, since) && p.pc.Opening? && since <= t.call.now && Proper(p.art.name)
    ensures var (p', s') := PubStep(p, s, t, hash); p'.art == p.art && (Lost(p'.pc) || StagedAt(p', s', since))
  {
    FilesGrow(p.pc.i);
    PartialIsNotProper(p.art.name);
    hide PartialOf, FileAt, FirstFiles;
    var d, f := Partial(p), FileAt(p.pc.i);
    assert s[d].files[f := File(Blob(t.call.during), t.call.now)].Keys == s[d].files.Keys + {f};
  }

  lemma ClosingStep(p: Pub, s: Disk, t: Turn, since: int, hash: Bytes -> string)
    requires StagedAt(p, s, since) && p.pc.Closing? && Proper(p.art.name)
    ensures var (p', s') := PubStep(p, s, t, hash); p'.art == p.art && (Lost(p'.pc) || StagedAt(p', s', since))
  {
    PartialIsNotProper(p.art.name);
    var s' := PubStep(p, s, t, hash).1;
    hide PartialOf, FileAt, SourceAt;
    if FileAt(p.pc.i) in s[Partial(p)].files {
      assert s'[Partial(p)].files.Keys == s[Partial(p)].files.Keys;
    }
  }

  lemma RenamingStep(p: Pub, s: Disk, t: Turn, since: int, hash: Bytes -> string)
    requires SafePub(p, s, hash) && StagedAt(p, s, since) && p.pc.Renaming?
    ensures var (p', s') := PubStep(p, s, t, hash); p'.art == p.art && (Lost(p'.pc) || StagedAt(p', s', since))
  {
    PartialIsNotProper(p.art.name);
    assert s[Partial(p)].files.Keys == {PAYLOAD, CHECKSUM, METADATA};
    assert IsComplete(s[Partial(p)]);
    hide PartialOf, IsComplete;
  }

  // ---- what others do ---------------------------------------------------------------------------------------------

  lemma StagedFrame(p: Pub, s: Disk, s': Disk, since: int)
    requires StagedAt(p, s, since) && SameChild(s, s', p.art.name) && SameChild(s, s', Partial(p))
    ensures StagedAt(p, s', since)
  {
    hide PartialOf, FileAt;
  }

  /** A pruner from before the publication leaves its directory alone and takes nothing of it into its hands. */
  lemma PruneSpares(p: Pub, q: Prune, s: Disk, t: Turn, since: int)
    requires Proper(p.art.name) && StagedAt(p, s, since) && Behind(q, p.art, since)
    ensures Behind(PruneStep(q, s, t).0, p.art, since)
    ensures SameChild(s, PruneStep(q, s, t).1, p.art.name) && SameChild(s, PruneStep(q, s, t).1, Partial(p))
  {
    PartialIsNotProper(p.art.name);
    match q.pc
    case Clearing(todo, _) =>
      RemovalShrinks(todo, s, t);
      hide RemovalStep, StagedAt, PartialOf;
    case Scan(names) =>
      if names != [] {
        if names[0] == p.art.name { NameIsKept(p, q, s, t.call, since); }
        if names[0] == Partial(p) { PartialIsKept(p, q, s, t.call, since); }
      }
      hide Verdict, StagedAt, PartialOf;
    case _ =>
  }

  lemma NameIsKept(p: Pub, q: Prune, s: Disk, c: Call, since: int)
    requires Proper(p.art.name) && StagedAt(p, s, since) && Behind(q, p.art, since)
    ensures Verdict(q, s, p.art.name, c) != Some(true)
  {
    assert !(PartialPrefix(q.cluster) <= p.art.name) by { assert PartialPrefix(q.cluster)[0] == '.'; }
    hide PartialOf, ClusterPrefix, PartialPrefix, FileAt;
  }

  lemma PartialIsKept(p: Pub, q: Prune, s: Disk, c: Call, since: int)
    requires Proper(p.art.name) && StagedAt(p, s, since) && Behind(q, p.art, since)
    ensures Verdict(q, s, Partial(p), c) != Some(true)
  {
    assert !(ClusterPrefix(q.cluster) <= Partial(p)) by { assert ClusterPrefix(q.cluster)[0] == 'g' && Partial(p)[0] == '.'; }
    hide PartialOf, ClusterPrefix, PartialPrefix, FileAt;
  }

  lemma UndisturbedAdvance(w: World, pid: nat, i: nat, t: Turn, since: int, hash: Bytes -> string)
    requires Undisturbed(w, pid, since, hash) && i in w.procs && w.clock <= t.call.now
    requires Standing(Advance(w, i, t, hash), pid) ==> since <= t.call.now
    ensures Undisturbed(Advance(w, i, t, hash), pid, since, hash)
  {
    SafeAdvance(w, i, t, hash);
    var p, w' := w.procs[pid].pub, Advance(w, i, t, hash);
    LostStays(p, w.disk, t, hash);
    if i == pid {
      if !Lost(p.pc) { OwnStep(p, w.disk, t, since, hash); }
      hide PubStep, StagedAt, Behind, Safe, SafePub;
    } else if !Lost(p.pc) {
      SafeProper(w, hash);
      match w.procs[i]
      case Publishing(other) =>
        Distinct(w, i, pid);
        PubFrame(other, w.disk, t, hash);
        NamesApart(other.art.name, p.art.name);
        hide PubStep, StagedAt, Behind, Safe, SafePub;
        StagedFrame(p, w.disk, w'.disk, since);
      case Pruning(q) =>
        PruneSpares(p, q, w.disk, t, since);
        hide PruneStep, StagedAt, Behind, Safe, SafePub;
        StagedFrame(p, w.disk, w'.disk, since);
    }
  }

  lemma LostStays(p: Pub, s: Disk, t: Turn, hash: Bytes -> string)
    ensures Lost(p.pc) ==> Lost(PubStep(p, s, t, hash).0.pc)
  {
    hide RemovalStep;
  }

  /** The directory is not made before `since`. */
  ghost predicate IdleBefore(ws: seq<World>, pid: nat, since: int) {
    forall i | 0 <= i < |ws| && Standing(ws[i], pid) :: since <= ws[i].clock
  }

  lemma {:induction false} PublishIsUndisturbed(ws: seq<World>, hash: Bytes -> string, pid: nat, since: int)
    requires Behaviour(ws, hash) && SoundDisk(ws[0].disk, hash) && IdleBefore(ws, pid, since)
    requires pid in ws[0].procs && ws[0].procs[pid].Publishing?
    requires var name := ws[0].procs[pid].pub.art.name; name !in ws[0].disk && PartialOf(name) !in ws[0].disk
    requires forall i | i in ws[0].procs && ws[0].procs[i].Pruning? ::
               Behind(ws[0].procs[i].prune, ws[0].procs[pid].pub.art, since)
    ensures Undisturbed(ws[|ws| - 1], pid, since, hash)
  {
    hide PubStep, PruneStep, Advance, SoundDisk;
    if |ws| == 1 {
      SafeThroughout(ws, hash);
    } else {
      hide Behind, DistinctNames;
      var w, i, t := LastStep(ws, hash);
      PublishIsUndisturbed(ws[..|ws| - 1], hash, pid, since);
      assert ws[..|ws| - 1][|ws| - 2] == w;
      ClockOf(w, i, t, hash);
      UndisturbedAdvance(w, pid, i, t, since, hash);
    }
  }

  lemma ClockOf(w: World, i: nat, t: Turn, hash: Bytes -> string)
    requires i in w.procs
    ensures Advance(w, i, t, hash).clock == t.call.now
  {
  }

  /** A publication that has returned normally is there, complete and verified. */
  ghost predicate KeptBy(w: World, pid: nat, hash: Bytes -> string) {
    pid in w.procs && w.procs[pid].Publishing?
    && var p := w.procs[pid].pub;
       p.pc == Finished(true) ==>
         p.art.name in w.disk && IsComplete(w.disk[p.art.name])
         && w.disk[p.art.name].files[METADATA].body == p.art.metadata.body
         && Verified(w.disk[p.art.name].files[PAYLOAD].body, p.art.metadata.body, hash)
  }

  lemma UndisturbedIsKept(w: World, pid: nat, since: int, hash: Bytes -> string)
    requires Undisturbed(w, pid, since, hash)
    ensures KeptBy(w, pid, hash)
  {
    var p := w.procs[pid].pub;
    if p.pc == Finished(true) {
      assert p.art.name in w.disk && Proper(p.art.name) && SoundNode(w.disk[p.art.name], hash);
    }
    hide Verified;
  }
}
