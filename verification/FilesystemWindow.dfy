/** The retention window on the filesystem: the races between one publisher and one pruner that make the condition exact. */
module FilesystemWindow {
  import opened Errors
  import opened Strings
  import opened Keys
  import opened Objects
  import opened Filesystem
  import opened FilesystemWorld
  import opened FilesystemRace
  import FilesystemBackend

  /** What a publication needs to succeed at all: a name and a manifest that describes the payload. */
  ghost predicate Publishable(art: Artifact, hash: Bytes -> string) {
    Proper(art.name)
    && forall now :: ParseManifest(art.metadata.body, now).Some?
         && var m := ParseManifest(art.metadata.body, now).value; Matches(art.payload.body, m.size, m.sha, hash)
  }

  /** Pruners work with a cutoff in their past. */
  ghost predicate LooksBack(w: World) {
    forall i | i in w.procs && w.procs[i].Pruning? && !w.procs[i].prune.pc.List? :: w.procs[i].prune.cutoff <= w.clock
  }

  /** The directory of `pid` is made at time `t`. */
  ghost predicate MadeAt(ws: seq<World>, pid: nat, t: int) {
    exists k | 0 <= k < |ws| - 1 :: FirstMade(ws, pid, k) && ws[k + 1].clock == t
  }

  ghost predicate FirstMade(ws: seq<World>, pid: nat, k: int) {
    0 <= k < |ws| - 1 && (forall i | 0 <= i <= k :: !Standing(ws[i], pid)) && Standing(ws[k + 1], pid)
  }

  /** Any number of processes on a sound disk; `pid` publishes `art` under a new name and makes its directory at `t`, and no
      pruner has a later cutoff than `cutoff`. */
  ghost predicate Race(ws: seq<World>, pid: nat, art: Artifact, t: int, cutoff: int, hash: Bytes -> string) {
    Behaviour(ws, hash) && SoundDisk(ws[0].disk, hash) && (forall i | 0 <= i < |ws| :: LooksBack(ws[i]))
    && pid in ws[0].procs && ws[0].procs[pid] == Publishing(PubStart(art))
    && art.name !in ws[0].disk && PartialOf(art.name) !in ws[0].disk && MadeAt(ws, pid, t)
    && forall i | i in ws[0].procs && ws[0].procs[i].Pruning? :: ws[0].procs[i].prune.cutoff <= cutoff
  }

  /** A publication that has returned normally stays complete and verified, however the processes are interleaved. */
  ghost predicate Keeps(art: Artifact, t: int, cutoff: int, hash: Bytes -> string) {
    forall ws: seq<World>, pid: nat | Race(ws, pid, art, t, cutoff, hash) :: KeptBy(ws[|ws| - 1], pid, hash)
  }

  predicate InWindow(art: Artifact, t: int, cutoff: int) { cutoff <= t && StampInWindow(art, cutoff) }

  // ---- inside the window ------------------------------------------------------------------------------------------

  lemma {:induction false} ClockRises(ws: seq<World>, hash: Bytes -> string)
    requires Behaviour(ws, hash)
    ensures forall i, j | 0 <= i <= j < |ws| :: ws[i].clock <= ws[j].clock
  {
    hide Advance, DistinctNames;
    if |ws| > 1 {
      var w, pid, t := LastStep(ws, hash);
      ClockRises(ws[..|ws| - 1], hash);
      ClockOf(w, pid, t, hash);
      forall i, j | 0 <= i <= j < |ws| ensures ws[i].clock <= ws[j].clock {
        if i < |ws| - 1 {
          assert ws[..|ws| - 1][i].clock <= ws[..|ws| - 1][if j == |ws| - 1 then j - 1 else j].clock;
        }
      }
    }
  }

  lemma KeepsInWindow(art: Artifact, t: int, cutoff: int, hash: Bytes -> string)
    requires InWindow(art, t, cutoff)
    ensures Keeps(art, t, cutoff, hash)
  {
    hide KeptBy, DistinctNames, SoundDisk;
    forall ws: seq<World>, pid: nat | Race(ws, pid, art, t, cutoff, hash) ensures KeptBy(ws[|ws| - 1], pid, hash) {
      ClockRises(ws, hash);
      var k :| 0 <= k < |ws| - 1 && FirstMade(ws, pid, k) && ws[k + 1].clock == t;
      forall i | i in ws[0].procs && ws[0].procs[i].Pruning? ensures Behind(ws[0].procs[i].prune, art, t) {
        assert AtStart(ws[0].procs[i]);
      }
      hide Behaviour, Standing;
      assert IdleBefore(ws, pid, t);
      hide Behind, IdleBefore;
      PublishIsUndisturbed(ws, hash, pid, t);
      UndisturbedIsKept(ws[|ws| - 1], pid, t, hash);
    }
  }

  // ---- outside the window -----------------------------------------------------------------------------------------

  lemma Extend(ws: seq<World>, pid: nat, t: Turn, hash: Bytes -> string) returns (more: seq<World>)
    requires Behaviour(ws, hash) && forall i | 0 <= i < |ws| :: LooksBack(ws[i])
    requires var w := ws[|ws| - 1];
      pid in w.procs && w.clock <= t.call.now && (w.procs[pid].Pruning? ==> w.procs[pid].prune.cutoff <= t.call.now)
    ensures more == ws + [Advance(ws[|ws| - 1], pid, t, hash)]
    ensures Behaviour(more, hash) && forall i | 0 <= i < |more| :: LooksBack(more[i])
  {
    var w := ws[|ws| - 1];
    var w' := Advance(w, pid, t, hash);
    more := ws + [w'];
    LooksBackStill(w, pid, t, hash);
    hide Advance, DistinctNames, LooksBack;
    assert Next(w, w', hash);
    forall i | 0 <= i < |more| - 1 ensures Next(more[i], more[i + 1], hash) {
      if i < |ws| - 1 { assert Next(ws[i], ws[i + 1], hash); }
    }
  }

  lemma LooksBackStill(w: World, pid: nat, t: Turn, hash: Bytes -> string)
    requires pid in w.procs && w.clock <= t.call.now && LooksBack(w)
    requires w.procs[pid].Pruning? ==> w.procs[pid].prune.cutoff <= t.call.now
    ensures LooksBack(Advance(w, pid, t, hash))
  {
    if w.procs[pid].Pruning? { PruneShrinks(w.procs[pid].prune, w.disk, t); }
    hide PubStep, PruneStep;
  }

  /** Publisher 0 and pruner 1. */
  function Two(s: Disk, clock: int, p: Pub, q: Prune): World { World(s, clock, map[0 := Publishing(p), 1 := Pruning(q)]) }

  lemma PublisherMoves(s: Disk, clock: int, p: Pub, q: Prune, t: Turn, hash: Bytes -> string)
    ensures var (p', s') := PubStep(p, s, t, hash); Advance(Two(s, clock, p, q), 0, t, hash) == Two(s', t.call.now, p', q)
  {
    hide PubStep;
  }

  lemma PrunerMoves(s: Disk, clock: int, p: Pub, q: Prune, t: Turn, hash: Bytes -> string)
    ensures var (q', s') := PruneStep(q, s, t); Advance(Two(s, clock, p, q), 1, t, hash) == Two(s', t.call.now, p, q')
  {
    hide PruneStep;
  }

  function WorkingTurn(now: int, pick: seq<string>): Turn { Turn(Call(Works, now, []), pick) }

  /** The publisher after `n` calls that worked. */
  function PubAt(art: Artifact, n: nat): Pub {
    Pub(art, if n == 0 then Look else if n == 1 then Make else if n == 2 then Opening(0) else if n == 3 then Closing(0)
             else if n == 4 then Opening(1) else if n == 5 then Closing(1) else if n == 6 then Opening(2)
             else if n == 7 then Closing(2) else if n == 8 then ReadBack else if n == 9 then Renaming
             else if n == 10 then Confirming else Finished(true))
  }

  /** And its directory. The first three calls are made at `t`, the others at `late`. */
  function NodeAt(art: Artifact, t: int, late: int, n: nat): Node {
    var none: map<string, File> := map[];
    var opened0 := none[PAYLOAD := File(Blob([]), t)];
    var closed0 := opened0[PAYLOAD := art.payload];
    var opened1 := closed0[CHECKSUM := File(Blob([]), late)];
    var closed1 := opened1[CHECKSUM := art.checksum];
    var opened2 := closed1[METADATA := File(Blob([]), late)];
    var closed2 := opened2[METADATA := art.metadata];
    if n <= 2 then Tree(none, t) else if n == 3 then Tree(opened0, t) else if n == 4 then Tree(closed0, t)
    else if n == 5 then Tree(opened1, late) else if n == 6 then Tree(closed1, late) else if n == 7 then Tree(opened2, late)
    else Tree(closed2, late)
  }

  function DiskAt(art: Artifact, t: int, late: int, n: nat): Disk {
    if n < 2 then map[] else if n < 10 then map[PartialOf(art.name) := NodeAt(art, t, late, n)]
    else map[art.name := NodeAt(art, t, late, n)]
  }

  function TimeOf(t: int, late: int, n: nat): int { if n < 3 then t else late }

  lemma OneChild(d: string, n: Node, m: Node, name: string)
    requires d != name
    ensures var s: Disk := map[d := n]; s[d := m] == map[d := m] && s[name := n] - {d} == map[name := n]
    ensures var s: Disk := map[]; s[d := m] == map[d := m]
  {
  }

  lemma CopyStep(art: Artifact, t: int, late: int, n: nat, hash: Bytes -> string)
    requires Proper(art.name) && 2 <= n < 8
    ensures PubStep(PubAt(art, n), DiskAt(art, t, late, n), WorkingTurn(TimeOf(t, late, n), []), hash)
            == (PubAt(art, n + 1), DiskAt(art, t, late, n + 1))
  {
    PartialIsNotProper(art.name);
    FilesystemBackend.NamesDiffer();
    hide PartialOf;
    OneChild(PartialOf(art.name), NodeAt(art, t, late, n), NodeAt(art, t, late, n + 1), art.name);
    var src := SourceAt(art, if n < 4 then 0 else if n < 6 then 1 else 2);
    assert File(src.body, src.mtime) == src;
  }

  lemma StageStep(art: Artifact, t: int, late: int, n: nat, hash: Bytes -> string)
    requires Publishable(art, hash) && n < 11
    ensures PubStep(PubAt(art, n), DiskAt(art, t, late, n), WorkingTurn(TimeOf(t, late, n), []), hash)
            == (PubAt(art, n + 1), DiskAt(art, t, late, n + 1))
  {
    PartialIsNotProper(art.name);
    if 2 <= n < 8 {
      CopyStep(art, t, late, n, hash);
    } else {
      hide PartialOf, ParseManifest, Matches;
      OneChild(PartialOf(art.name), NodeAt(art, t, late, n), NodeAt(art, t, late, n + 1), art.name);
      if n == 8 { assert Checked(PubAt(art, n), DiskAt(art, t, late, n), WorkingTurn(late, []).call, hash); }
    }
  }

  lemma PublishesOnce(ws: seq<World>, art: Artifact, t: int, late: int, n: nat, q: Prune, hash: Bytes -> string)
    returns (more: seq<World>)
    requires Publishable(art, hash) && t <= late && n < 11
    requires Behaviour(ws, hash) && forall i | 0 <= i < |ws| :: LooksBack(ws[i])
    requires ws[|ws| - 1] == Two(DiskAt(art, t, late, n), ws[|ws| - 1].clock, PubAt(art, n), q)
    requires ws[|ws| - 1].clock <= TimeOf(t, late, n)
    ensures Behaviour(more, hash) && (forall i | 0 <= i < |more| :: LooksBack(more[i]))
    ensures ws <= more && |more| == |ws| + 1
    ensures more[|more| - 1] == Two(DiskAt(art, t, late, n + 1), TimeOf(t, late, n), PubAt(art, n + 1), q)
  {
    var turn := WorkingTurn(TimeOf(t, late, n), []);
    StageStep(art, t, late, n, hash);
    PublisherMoves(DiskAt(art, t, late, n), ws[|ws| - 1].clock, PubAt(art, n), q, turn, hash);
    hide PubAt, DiskAt, Advance, PubStep, Publishable, LooksBack, Behaviour, TimeOf;
    more := Extend(ws, 0, turn, hash);
  }

  /** Publisher 0 goes on from its call `n` to its call `n'`. */
  lemma {:induction false} Publishes(ws: seq<World>, art: Artifact, t: int, late: int, n: nat, n': nat, q: Prune,
                                     hash: Bytes -> string)
    returns (more: seq<World>)
    requires Publishable(art, hash) && t <= late && n <= n' <= 11
    requires Behaviour(ws, hash) && forall i | 0 <= i < |ws| :: LooksBack(ws[i])
    requires ws[|ws| - 1] == Two(DiskAt(art, t, late, n), ws[|ws| - 1].clock, PubAt(art, n), q)
    requires ws[|ws| - 1].clock <= TimeOf(t, late, n)
    ensures Behaviour(more, hash) && (forall i | 0 <= i < |more| :: LooksBack(more[i]))
    ensures ws <= more && |more| == |ws| + (n' - n)
    ensures var w := more[|more| - 1];
      w == Two(DiskAt(art, t, late, n'), w.clock, PubAt(art, n'), q)
      && w.clock == if n == n' then ws[|ws| - 1].clock else TimeOf(t, late, n' - 1)
    decreases n' - n
  {
    more := ws;
    hide PubAt, DiskAt, Publishable, LooksBack, Behaviour;
    if n < n' {
      more := PublishesOnce(ws, art, t, late, n, q, hash);
      more := Publishes(more, art, t, late, n + 1, n', q, hash);
    }
  }

  /** One call of pruner 1. */
  lemma Prunes(ws: seq<World>, now: int, pick: seq<string>, s: Disk, p: Pub, q: Prune, hash: Bytes -> string)
    returns (more: seq<World>)
    requires Behaviour(ws, hash) && forall i | 0 <= i < |ws| :: LooksBack(ws[i])
    requires ws[|ws| - 1] == Two(s, ws[|ws| - 1].clock, p, q) && ws[|ws| - 1].clock <= now && q.cutoff <= now
    ensures Behaviour(more, hash) && (forall i | 0 <= i < |more| :: LooksBack(more[i]))
    ensures ws <= more && |more| == |ws| + 1
    ensures var (q', s') := PruneStep(q, s, WorkingTurn(now, pick)); more[|more| - 1] == Two(s', now, p, q')
  {
    PrunerMoves(s, ws[|ws| - 1].clock, p, q, WorkingTurn(now, pick), hash);
    hide Advance, PruneStep, LooksBack, Behaviour;
    more := Extend(ws, 1, WorkingTurn(now, pick), hash);
  }

  /** One call of publisher 0, wherever it stands. */
  lemma Calls(ws: seq<World>, now: int, s: Disk, p: Pub, q: Prune, hash: Bytes -> string) returns (more: seq<World>)
    requires Behaviour(ws, hash) && forall i | 0 <= i < |ws| :: LooksBack(ws[i])
    requires ws[|ws| - 1] == Two(s, ws[|ws| - 1].clock, p, q) && ws[|ws| - 1].clock <= now
    ensures Behaviour(more, hash) && (forall i | 0 <= i < |more| :: LooksBack(more[i]))
    ensures ws <= more && |more| == |ws| + 1
    ensures var (p', s') := PubStep(p, s, WorkingTurn(now, []), hash); more[|more| - 1] == Two(s', now, p', q)
  {
    PublisherMoves(s, ws[|ws| - 1].clock, p, q, WorkingTurn(now, []), hash);
    hide Advance, PubStep, LooksBack, Behaviour;
    more := Extend(ws, 0, WorkingTurn(now, []), hash);
  }

  lemma AtTheStart(art: Artifact, t: int, cluster: string, cutoff: int, hash: Bytes -> string) returns (ws: seq<World>)
    requires Proper(art.name)
    ensures ws == [Two(map[], t, PubStart(art), PruneStart(cluster, cutoff))]
    ensures Behaviour(ws, hash) && LooksBack(ws[0]) && SoundDisk(ws[0].disk, hash)
  {
    ws := [Two(map[], t, PubStart(art), PruneStart(cluster, cutoff))];
  }

  /** The first `n` calls of the publication, the directory made by the second of them at `t`. */
  lemma Begun(art: Artifact, t: int, late: int, n: nat, q: Prune, hash: Bytes -> string) returns (ws: seq<World>)
    requires Publishable(art, hash) && q == PruneStart(q.cluster, q.cutoff) && t <= late && 2 <= n <= 11
    ensures Behaviour(ws, hash) && (forall i | 0 <= i < |ws| :: LooksBack(ws[i])) && |ws| == n + 1
    ensures ws[0] == Two(map[], t, PubStart(art), q)
    ensures !Standing(ws[0], 0) && !Standing(ws[1], 0) && Standing(ws[2], 0) && ws[2].clock == t
    ensures ws[n] == Two(DiskAt(art, t, late, n), TimeOf(t, late, n - 1), PubAt(art, n), q)
  {
    ws := AtTheStart(art, t, q.cluster, q.cutoff, hash);
    EarlyStates(art, t, late);
    hide PubAt, DiskAt, Publishable, LooksBack, Behaviour, Standing;
    ws := Publishes(ws, art, t, late, 0, 1, q, hash);
    ws := Publishes(ws, art, t, late, 1, 2, q, hash);
    TwoStands(DiskAt(art, t, late, 0), t, PubAt(art, 0), q);
    TwoStands(DiskAt(art, t, late, 1), t, PubAt(art, 1), q);
    TwoStands(DiskAt(art, t, late, 2), t, PubAt(art, 2), q);
    ws := Publishes(ws, art, t, late, 2, n, q, hash);
  }

  lemma EarlyStates(art: Artifact, t: int, late: int)
    ensures DiskAt(art, t, late, 0) == map[] && PubAt(art, 0) == PubStart(art)
    ensures !Stands(PubAt(art, 0).pc) && !Stands(PubAt(art, 1).pc) && Stands(PubAt(art, 2).pc)
  {
  }

  lemma TwoStands(s: Disk, clock: int, p: Pub, q: Prune)
    ensures Standing(Two(s, clock, p, q), 0) <==> Stands(p.pc)
  {
  }

  lemma IsLostRace(ws: seq<World>, art: Artifact, t: int, cluster: string, cutoff: int, s: Disk, q: Prune,
                  hash: Bytes -> string)
    requires Behaviour(ws, hash) && (forall i | 0 <= i < |ws| :: LooksBack(ws[i])) && |ws| > 2
    requires ws[0] == Two(map[], t, PubStart(art), PruneStart(cluster, cutoff))
    requires !Standing(ws[0], 0) && !Standing(ws[1], 0) && Standing(ws[2], 0) && ws[2].clock == t
    requires ws[|ws| - 1] == Two(s, ws[|ws| - 1].clock, Pub(art, Finished(true)), q)
    requires art.name in s ==> s[art.name].Tree? && PAYLOAD !in s[art.name].files
    ensures Race(ws, 0, art, t, cutoff, hash) && !KeptBy(ws[|ws| - 1], 0, hash)
  {
    hide LooksBack, Behaviour, Standing;
    assert FirstMade(ws, 0, 1);
    hide FirstMade;
    assert ws[1 + 1].clock == t;
  }

  // ---- the slow publication ---------------------------------------------------------------------------------------

  /** The three calls with which a pruner takes the directory into its hands after the payload was opened. */
  lemma TakesPartial(art: Artifact, t: int, late: int, cluster: string, cutoff: int, now: int)
    returns (q1: Prune, q2: Prune, q3: Prune)
    requires Proper(art.name) && ClusterPrefix(cluster) <= art.name && t < cutoff
    ensures var s, d := DiskAt(art, t, late, 3), PartialOf(art.name);
      PruneStep(PruneStart(cluster, cutoff), s, WorkingTurn(now, [d])) == (q1, s)
      && PruneStep(q1, s, WorkingTurn(now, [])) == (q2, s) && PruneStep(q2, s, WorkingTurn(now, [PAYLOAD])) == (q3, s)
      && q1.cutoff == q2.cutoff == q3.cutoff == cutoff && q3.pc == Clearing(Removal(d, true, [PAYLOAD]), [])
  {
    var s, d, n := DiskAt(art, t, late, 3), PartialOf(art.name), NodeAt(art, t, late, 3);
    assert PartialPrefix(cluster) <= d;
    assert s == map[d := n] && n.files.Keys == {PAYLOAD} && FilesystemBackend.AllOlder(n, cutoff);
    hide PartialOf, PartialPrefix, ClusterPrefix, NodeAt, DiskAt, FilesystemBackend.AllOlder;
    q1, q2 := FindsAbandoned(n, d, cluster, cutoff, now);
    q3 := ScansPayload(n, d, q2, now);
  }

  lemma FindsAbandoned(n: Node, d: string, cluster: string, cutoff: int, now: int) returns (q1: Prune, q2: Prune)
    requires n.Tree? && PartialPrefix(cluster) <= d && FilesystemBackend.AllOlder(n, cutoff)
    ensures var s: Disk := map[d := n];
      PruneStep(PruneStart(cluster, cutoff), s, WorkingTurn(now, [d])) == (q1, s)
      && PruneStep(q1, s, WorkingTurn(now, [])) == (q2, s)
    ensures q1.cutoff == q2.cutoff == cutoff && q2.pc == Clearing(Removal(d, false, []), [])
  {
    var s: Disk := map[d := n];
    assert s.Keys == {d} && Order({d}, [d]) == [d];
    hide PartialPrefix, ClusterPrefix, Order, FilesystemBackend.AllOlder;
    q1, q2 := Prune(cluster, cutoff, Scan([d])), Prune(cluster, cutoff, Clearing(Removal(d, false, []), []));
    assert [d][1..] == [];
  }

  lemma ScansPayload(n: Node, d: string, q: Prune, now: int) returns (q3: Prune)
    requires n.Tree? && n.files.Keys == {PAYLOAD} && q.pc == Clearing(Removal(d, false, []), [])
    ensures var s: Disk := map[d := n]; PruneStep(q, s, WorkingTurn(now, [PAYLOAD])) == (q3, s)
    ensures q3 == q.(pc := Clearing(Removal(d, true, [PAYLOAD]), []))
  {
    assert Order({PAYLOAD}, [PAYLOAD]) == [PAYLOAD];
    hide Order;
    q3 := q.(pc := Clearing(Removal(d, true, [PAYLOAD]), []));
  }

  /** The payload is unlinked between the check of the copy and the rename, which both work. */
  lemma RenamesTheRest(art: Artifact, t: int, late: int, q: Prune, hash: Bytes -> string)
    returns (q': Prune, s1: Disk, s2: Disk)
    requires Proper(art.name) && q.pc == Clearing(Removal(PartialOf(art.name), true, [PAYLOAD]), [])
    ensures PruneStep(q, DiskAt(art, t, late, 9), WorkingTurn(late, [])) == (q', s1)
    ensures PubStep(PubAt(art, 9), s1, WorkingTurn(late, []), hash) == (PubAt(art, 10), s2)
    ensures PubStep(PubAt(art, 10), s2, WorkingTurn(late, []), hash) == (Pub(art, Finished(true)), s2)
    ensures art.name in s2 && s2[art.name].Tree? && PAYLOAD !in s2[art.name].files
  {
    PartialIsNotProper(art.name);
    hide PartialOf;
    q' := PruneStep(q, DiskAt(art, t, late, 9), WorkingTurn(late, [])).0;
    s1 := PruneStep(q, DiskAt(art, t, late, 9), WorkingTurn(late, [])).1;
    s2 := PubStep(PubAt(art, 9), s1, WorkingTurn(late, []), hash).1;
  }

  lemma SlowCopyLoses(art: Artifact, t: int, cluster: string, cutoff: int, hash: Bytes -> string) returns (ws: seq<World>)
    requires Publishable(art, hash) && ClusterPrefix(cluster) <= art.name && t < cutoff
    ensures Race(ws, 0, art, t, cutoff, hash) && !KeptBy(ws[|ws| - 1], 0, hash)
  {
    var d, q0 := PartialOf(art.name), PruneStart(cluster, cutoff);
    var q1, q2, q3 := TakesPartial(art, t, cutoff, cluster, cutoff, cutoff);
    var q4, s1, s2 := RenamesTheRest(art, t, cutoff, q3, hash);
    var d3, p3 := DiskAt(art, t, cutoff, 3), PubAt(art, 3);
    hide PubAt, DiskAt, Publishable, LooksBack, Behaviour, Standing, PubStep, PruneStep, PartialOf, Race, KeptBy, ClusterPrefix;
    ws := Begun(art, t, cutoff, 3, q0, hash);
    ws := Prunes(ws, cutoff, [d], d3, p3, q0, hash);
    ws := Prunes(ws, cutoff, [], d3, p3, q1, hash);
    ws := Prunes(ws, cutoff, [PAYLOAD], d3, p3, q2, hash);
    ws := Publishes(ws, art, t, cutoff, 3, 9, q3, hash);
    ws := Prunes(ws, cutoff, [], DiskAt(art, t, cutoff, 9), PubAt(art, 9), q3, hash);
    ws := Calls(ws, cutoff, s1, PubAt(art, 9), q4, hash);
    ws := Calls(ws, cutoff, s2, PubAt(art, 10), q4, hash);
    IsLostRace(ws, art, t, cluster, cutoff, s2, q4, hash);
  }

  // ---- the old time stamp -----------------------------------------------------------------------------------------

  const ALL: seq<string> := [PAYLOAD, CHECKSUM, METADATA]

  /** The finished directory. */
  lemma FinishedNode(art: Artifact, t: int)
    ensures var n := NodeAt(art, t, t, 11);
      n.Tree? && n.files.Keys == {PAYLOAD, CHECKSUM, METADATA} && n.files[METADATA] == art.metadata
    ensures DiskAt(art, t, t, 11) == map[art.name := NodeAt(art, t, t, 11)] && PubAt(art, 11) == Pub(art, Finished(true))
  {
    FilesystemBackend.NamesDiffer();
  }

  /** A pruner that lists the disk finds the directory expired by its metadata. */
  lemma FindsExpired(n: Node, name: string, art: Artifact, cluster: string, cutoff: int, now: int)
    returns (q1: Prune, q2: Prune)
    requires Proper(name) && ClusterPrefix(cluster) <= name && !StampInWindow(art, cutoff)
    requires n.Tree? && METADATA in n.files && n.files[METADATA] == art.metadata
    ensures var s: Disk := map[name := n];
      PruneStep(PruneStart(cluster, cutoff), s, WorkingTurn(now, [name])) == (q1, s)
      && PruneStep(q1, s, WorkingTurn(now, [])) == (q2, s)
    ensures q1.cutoff == q2.cutoff == cutoff && q2.pc == Clearing(Removal(name, false, []), [])
  {
    var s: Disk := map[name := n];
    assert !(PartialPrefix(cluster) <= name) by { assert PartialPrefix(cluster)[0] == '.'; }
    assert s.Keys == {name} && Order({name}, [name]) == [name];
    hide PartialOf, PartialPrefix, ClusterPrefix, Order;
    q1, q2 := Prune(cluster, cutoff, Scan([name])), Prune(cluster, cutoff, Clearing(Removal(name, false, []), []));
    assert [name][1..] == [];
  }

  /** And takes its payload. */
  lemma TakesPayload(n: Node, name: string, q: Prune, now: int) returns (q3: Prune, q4: Prune, s': Disk)
    requires n.Tree? && n.files.Keys == {PAYLOAD, CHECKSUM, METADATA} && q.pc == Clearing(Removal(name, false, []), [])
    ensures var s: Disk := map[name := n];
      PruneStep(q, s, WorkingTurn(now, ALL)) == (q3, s) && PruneStep(q3, s, WorkingTurn(now, [])) == (q4, s')
    ensures q3.cutoff == q.cutoff && name in s' && s'[name].Tree? && PAYLOAD !in s'[name].files
  {
    var s: Disk := map[name := n];
    assert Order({PAYLOAD, CHECKSUM, METADATA}, ALL) == ALL;
    hide Order;
    q3 := q.(pc := Clearing(Removal(name, true, ALL), []));
    q4, s' := PruneStep(q3, s, WorkingTurn(now, [])).0, PruneStep(q3, s, WorkingTurn(now, [])).1;
  }

  lemma OldStampLoses(art: Artifact, t: int, cluster: string, cutoff: int, hash: Bytes -> string) returns (ws: seq<World>)
    requires Publishable(art, hash) && ClusterPrefix(cluster) <= art.name && cutoff <= t && !StampInWindow(art, cutoff)
    ensures Race(ws, 0, art, t, cutoff, hash) && !KeptBy(ws[|ws| - 1], 0, hash)
  {
    var q0, n, p := PruneStart(cluster, cutoff), NodeAt(art, t, t, 11), Pub(art, Finished(true));
    FinishedNode(art, t);
    var q1, q2 := FindsExpired(n, art.name, art, cluster, cutoff, t);
    var q3, q4, s := TakesPayload(n, art.name, q2, t);
    var s0: Disk := map[art.name := n];
    hide PubAt, DiskAt, NodeAt, Publishable, LooksBack, Behaviour, Standing, PubStep, PruneStep, PartialOf, Race, KeptBy,
      ClusterPrefix, StampInWindow, WorkingTurn;
    ws := Begun(art, t, t, 11, q0, hash);
    ws := Prunes(ws, t, [art.name], s0, p, q0, hash);
    ws := Prunes(ws, t, [], s0, p, q1, hash);
    ws := Prunes(ws, t, ALL, s0, p, q2, hash);
    ws := Prunes(ws, t, [], s0, p, q3, hash);
    IsLostRace(ws, art, t, cluster, cutoff, s, q4, hash);
  }

  /** Retention spares a publication, in every interleaving of the system calls of any number of processes and under every
      fault, exactly if the cutoff is not later than the making of its directory and not later than the time stamp in the
      metadata. */
  lemma KeepsIffInWindow(art: Artifact, t: int, cluster: string, cutoff: int, hash: Bytes -> string)
    requires Publishable(art, hash) && ClusterPrefix(cluster) <= art.name
    ensures Keeps(art, t, cutoff, hash) <==> InWindow(art, t, cutoff)
  {
    hide Race, KeptBy, Publishable, StampInWindow, ClusterPrefix;
    if InWindow(art, t, cutoff) {
      KeepsInWindow(art, t, cutoff, hash);
    } else if t < cutoff {
      var ws := SlowCopyLoses(art, t, cluster, cutoff, hash);
    } else {
      var ws := OldStampLoses(art, t, cluster, cutoff, hash);
    }
  }
}
