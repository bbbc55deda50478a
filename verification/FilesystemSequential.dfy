/** The step machines of publication and retention on the filesystem, run on a disk that nobody else changes, go through the
    states that are stated of the backend's methods: so the interleaved runs are about the same operations. */
module FilesystemSequential {
  import opened Errors
  import opened Strings
  import opened Keys
  import opened Objects
  import opened Filesystem
  import opened FilesystemWorld
  import opened FilesystemRace
  import FilesystemBackend

  // ---- publication ------------------------------------------------------------------------------------------------

  function PubRun(p: Pub, s: Disk, turns: seq<Turn>, hash: Bytes -> string): (Pub, Disk) {
    if turns == [] then (p, s)
    else var (q, u) := PubRun(p, s, turns[..|turns| - 1], hash); PubStep(q, u, turns[|turns| - 1], hash)
  }

  /** Until the rename at most the partial directory differs; then the backup is there, complete and verified. */
  ghost predicate PubAt(p: Pub, s0: Disk, s: Disk, since: int, hash: Bytes -> string) {
    SafePub(p, s, hash)
    && if Lost(p.pc) then FilesystemBackend.Passes(s0, s, p.art, hash)
       else StagedAt(p, s, since)
            && if p.pc.Confirming? || p.pc.Finished? then FilesystemBackend.After(s0, s, p.art, hash)
               else FilesystemBackend.Before(s0, s, p.art.name)
  }

  lemma BeforeKept(p: Pub, s0: Disk, s: Disk, t: Turn, hash: Bytes -> string)
    requires SafePub(p, s, hash) && FilesystemBackend.Before(s0, s, p.art.name) && !p.pc.Renaming?
    ensures FilesystemBackend.Before(s0, PubStep(p, s, t, hash).1, p.art.name)
  {
    PubFrame(p, s, t, hash);
    hide PubStep, SafePub, PartialOf;
    var s' := PubStep(p, s, t, hash).1;
    forall k | k != PartialOf(p.art.name) ensures SameChild(s0, s', k) {
      assert SameChild(s0, s, k) && SameChild(s, s', k);
    }
  }

  lemma RenameLists(p: Pub, s0: Disk, s: Disk, t: Turn, since: int, hash: Bytes -> string)
    requires SafePub(p, s, hash) && FilesystemBackend.Before(s0, s, p.art.name) && p.pc.Renaming? && StagedAt(p, s, since)
    ensures var s' := PubStep(p, s, t, hash).1;
      if t.call.Takes() then FilesystemBackend.After(s0, s', p.art, hash) else s' == s
  {
    PartialIsNotProper(p.art.name);
    assert s[Partial(p)].files.Keys == {PAYLOAD, CHECKSUM, METADATA};
    assert SameChild(s0, s, p.art.name) by { assert p.art.name != PartialOf(p.art.name); }
    hide PartialOf, Verified;
    var s' := PubStep(p, s, t, hash).1;
    forall k | k != p.art.name && k != Partial(p) ensures SameChild(s0, s', k) { assert SameChild(s0, s, k); }
  }

  lemma LostPasses(p: Pub, s0: Disk, s: Disk, t: Turn, hash: Bytes -> string)
    requires SafePub(p, s, hash) && Lost(p.pc) && FilesystemBackend.Passes(s0, s, p.art, hash)
    ensures FilesystemBackend.Passes(s0, PubStep(p, s, t, hash).1, p.art, hash)
  {
    if FilesystemBackend.Before(s0, s, p.art.name) {
      BeforeKept(p, s0, s, t, hash);
    } else {
      assert PartialOf(p.art.name) !in s;
    }
    hide FilesystemBackend.Before, FilesystemBackend.After;
  }

  lemma ConfirmedSame(p: Pub, s: Disk, t: Turn, hash: Bytes -> string)
    requires p.pc.Confirming? || p.pc.Finished?
    ensures PubStep(p, s, t, hash).1 == s
    ensures p.pc.Finished? ==> PubStep(p, s, t, hash).0 == p
  {
  }

  lemma PubAtStep(p: Pub, s0: Disk, s: Disk, t: Turn, since: int, hash: Bytes -> string)
    requires PubAt(p, s0, s, since, hash) && since <= t.call.now
    ensures PubAt(PubStep(p, s, t, hash).0, s0, PubStep(p, s, t, hash).1, since, hash)
    ensures PubStep(p, s, t, hash).0.art == p.art
  {
    var (p', s') := PubStep(p, s, t, hash);
    SafePubStep(p, s, t, hash);
    PubFrame(p, s, t, hash);
    LostStays(p, s, t, hash);
    StandsOrder(p, s, t, hash);
    if Lost(p.pc) {
      LostPasses(p, s0, s, t, hash);
    } else {
      OwnStep(p, s, t, since, hash);
      if p.pc.Confirming? || p.pc.Finished? { ConfirmedSame(p, s, t, hash); }
      else if p.pc.Renaming? { RenameLists(p, s0, s, t, since, hash); }
      else { BeforeKept(p, s0, s, t, hash); }
    }
    hide PubStep, SafePub, StagedAt, FilesystemBackend.Before, FilesystemBackend.After;
  }

  /** The rename is what leads to the last two points. */
  lemma StandsOrder(p: Pub, s: Disk, t: Turn, hash: Bytes -> string)
    ensures var q := PubStep(p, s, t, hash).0;
      (q.pc.Confirming? ==> p.pc.Renaming? && t.call.Takes())
      && (q.pc == Finished(true) ==> p.pc.Confirming? || p.pc == Finished(true))
      && (p.pc.Renaming? ==> Lost(q.pc) || q.pc.Confirming?) && (p.pc.Confirming? ==> Lost(q.pc) || q.pc == Finished(true))
  {
    hide RemovalStep, Checked;
  }

  /** Every state of an undisturbed publication under a new name is one that the method may leave behind; the machine ends
      with the backup in place exactly where the method does. */
  lemma {:induction false} PubRunPasses(art: Artifact, s0: Disk, turns: seq<Turn>, since: int, hash: Bytes -> string)
    requires Proper(art.name) && art.name !in s0 && PartialOf(art.name) !in s0
    requires forall i | 0 <= i < |turns| :: since <= turns[i].call.now
    ensures var (p, s) := PubRun(PubStart(art), s0, turns, hash);
      p.art == art && PubAt(p, s0, s, since, hash) && FilesystemBackend.Passes(s0, s, art, hash)
      && (p.pc == Finished(true) ==> FilesystemBackend.After(s0, s, art, hash))
  {
    if turns == [] {
      hide PartialOf;
    } else {
      PubRunPasses(art, s0, turns[..|turns| - 1], since, hash);
      var (p, s) := PubRun(PubStart(art), s0, turns[..|turns| - 1], hash);
      hide PubStep, SafePub, StagedAt, FilesystemBackend.Before, FilesystemBackend.After;
      PubAtStep(p, s0, s, turns[|turns| - 1], since, hash);
    }
  }

  // ---- retention --------------------------------------------------------------------------------------------------

  function PruneRun(q: Prune, s: Disk, turns: seq<Turn>): (Prune, Disk) {
    if turns == [] then (q, s)
    else var (r, u) := PruneRun(q, s, turns[..|turns| - 1]); PruneStep(r, u, turns[|turns| - 1])
  }

  /** Child `k` is untouched, or it is expired and gone, or it is the one that is being removed. */
  ghost predicate ChildAt(q: Prune, s0: Disk, s: Disk, k: string) {
    SameChild(s0, s, k)
    || (FilesystemBackend.Expired(s0, q.cluster, q.cutoff, k)
        && (k !in s || (q.pc.Clearing? && k == q.pc.todo.dir) || q.pc.Done?)
        && (k in s ==> s[k] == s0[k] || Eroded(s0[k], s[k])))
  }

  /** What has expired and is still there is to be looked at, or being removed. */
  ghost predicate Pending(q: Prune, s0: Disk, s: Disk, k: string) {
    k in s && FilesystemBackend.Expired(s0, q.cluster, q.cutoff, k) ==>
      match q.pc
      case List => true
      case Scan(names) => k in names
      case Clearing(todo, rest) => k == todo.dir || k in rest
      case Done(ok) => !ok
  }

  ghost predicate PruneAt(q: Prune, s0: Disk, s: Disk) {
    (forall k :: ChildAt(q, s0, s, k) && Pending(q, s0, s, k))
    && (q.pc.Clearing? ==> FilesystemBackend.Expired(s0, q.cluster, q.cutoff, q.pc.todo.dir))
  }

  lemma VerdictIsExpired(q: Prune, s: Disk, k: string, c: Call)
    ensures Verdict(q, s, k, c).Some? ==> Verdict(q, s, k, c).value == FilesystemBackend.Expired(s, q.cluster, q.cutoff, k)
  {
    hide ClusterPrefix, PartialPrefix, FilesystemBackend.AllOlder;
  }

  lemma ScanAt(q: Prune, s0: Disk, s: Disk, t: Turn)
    requires PruneAt(q, s0, s) && q.pc.Scan?
    ensures PruneAt(PruneStep(q, s, t).0, s0, PruneStep(q, s, t).1)
  {
    var (r, u) := PruneStep(q, s, t);
    if q.pc.names != [] {
      var n := q.pc.names[0];
      VerdictIsExpired(q, s, n, t.call);
      assert ChildAt(q, s0, s, n) && Pending(q, s0, s, n);
      if SameChild(s0, s, n) { FilesystemBackend.SameVerdict(s0, s, q.cluster, q.cutoff, n); }
    }
    hide Verdict, FilesystemBackend.Expired;
    forall k ensures ChildAt(r, s0, u, k) && Pending(r, s0, u, k) { assert ChildAt(q, s0, s, k) && Pending(q, s0, s, k); }
  }

  lemma ClearAt(q: Prune, s0: Disk, s: Disk, t: Turn)
    requires PruneAt(q, s0, s) && q.pc.Clearing?
    ensures PruneAt(PruneStep(q, s, t).0, s0, PruneStep(q, s, t).1)
  {
    var (r, u) := PruneStep(q, s, t);
    var d := q.pc.todo.dir;
    RemovalShrinks(q.pc.todo, s, t);
    GoneIsGone(q.pc.todo, s, t);
    hide RemovalStep, FilesystemBackend.Expired;
    forall k ensures ChildAt(r, s0, u, k) && Pending(r, s0, u, k) {
      assert ChildAt(q, s0, s, k) && Pending(q, s0, s, k);
      if k != d { assert SameChild(s, u, k); }
    }
  }

  lemma GoneIsGone(r: Removal, s: Disk, t: Turn)
    ensures RemovalStep(r, s, t).0.Gone? ==> r.dir !in RemovalStep(r, s, t).1
  {
  }

  lemma PruneAtStep(q: Prune, s0: Disk, s: Disk, t: Turn)
    requires PruneAt(q, s0, s)
    ensures PruneAt(PruneStep(q, s, t).0, s0, PruneStep(q, s, t).1)
    ensures PruneStep(q, s, t).0.cluster == q.cluster && PruneStep(q, s, t).0.cutoff == q.cutoff
  {
    PruneShrinks(q, s, t);
    match q.pc
    case List =>
      var r := PruneStep(q, s, t).0;
      hide FilesystemBackend.Expired;
      forall k ensures ChildAt(r, s0, s, k) && Pending(r, s0, s, k) { assert ChildAt(q, s0, s, k); }
    case Scan(_) => ScanAt(q, s0, s, t);
    case Clearing(_, _) => ClearAt(q, s0, s, t);
    case Done(_) =>
  }

  /** Every state of an undisturbed retention run is one that is stated of the method; one that ends normally has removed
      exactly what had expired. */
  lemma {:induction false} PruneRunPasses(cluster: string, cutoff: int, s0: Disk, turns: seq<Turn>)
    ensures var (q, s) := PruneRun(PruneStart(cluster, cutoff), s0, turns);
      q.cluster == cluster && q.cutoff == cutoff && PruneAt(q, s0, s) && FilesystemBackend.PrunePasses(s0, s, cluster, cutoff)
      && (q.pc == Done(true) ==> FilesystemBackend.IsPruned(s0, s, cluster, cutoff))
  {
    var (q, s) := PruneRun(PruneStart(cluster, cutoff), s0, turns);
    if turns != [] {
      PruneRunPasses(cluster, cutoff, s0, turns[..|turns| - 1]);
      var (r, u) := PruneRun(PruneStart(cluster, cutoff), s0, turns[..|turns| - 1]);
      PruneAtStep(r, s0, u, turns[|turns| - 1]);
    }
    hide PruneStep, FilesystemBackend.Expired;
    forall k: string
      ensures FilesystemBackend.PassesAt(s0, s, cluster, cutoff, k)
      ensures q.pc == Done(true) ==> if FilesystemBackend.Expired(s0, cluster, cutoff, k) then k !in s else SameChild(s0, s, k)
    {
      assert ChildAt(q, s0, s, k) && Pending(q, s0, s, k);
    }
  }

  // ---- runs in which the calls work -------------------------------------------------------------------------------

  ghost predicate Once(names: seq<string>) { forall i, j | 0 <= i < j < |names| :: names[i] != names[j] }

  /** Every call works, and no listing has a name twice. */
  ghost predicate Smooth(turns: seq<Turn>) {
    forall i | 0 <= i < |turns| :: turns[i].call.fault.Works? && Once(turns[i].pick)
  }

  /** An undisturbed removal: what is left of the listing is what is left of the directory. */
  ghost predicate Sweeping(r: Removal, s: Disk) {
    r.dir in s && s[r.dir].Tree?
    && (r.scanned ==> Once(r.files) && forall f :: f in r.files <==> f in s[r.dir].files)
  }

  /** It goes on, or has removed the directory and nothing else. */
  lemma SweepStep(r: Removal, s: Disk, t: Turn)
    requires Sweeping(r, s) && t.call.fault.Works? && Once(t.pick)
    ensures var (p, u) := RemovalStep(r, s, t);
      (p.Going? && p.todo.dir == r.dir && Sweeping(p.todo, u) && u == s[r.dir := u[r.dir]]) || (p.Gone? && u == s - {r.dir})
  {
    var files := s[r.dir].files;
    if r.scanned && r.files != [] {
      var f := r.files[0];
      assert f in r.files;
      forall g ensures g in r.files[1..] <==> g in files - {f} {
        if g in r.files[1..] { assert g in r.files && g != f; }
        if g in r.files && g != f { var i :| 0 <= i < |r.files| && r.files[i] == g; assert r.files[1..][i - 1] == g; }
      }
    } else if r.scanned {
      assert forall f :: f in files.Keys <==> f in r.files;
      assert files.Keys == {};
    } else {
      assert s == s[r.dir := s[r.dir]];
    }
  }

  // ---- publication ------------------------------------------------------------------------------------------------

  predicate Staging(pc: PubPc) { pc.Opening? || pc.Closing? || pc.ReadBack? || pc.Renaming? || pc.Confirming? }

  /** A publication that tidies up: the directory is going, or gone. */
  ghost predicate TidiesUp(p: Pub, s0: Disk, s: Disk) {
    var d := Partial(p);
    (p.pc.Tidying? && p.pc.todo.dir == d && SameBut(s0, s, d) && (d in s || p.pc.todo.scanned ==> Sweeping(p.pc.todo, s)))
    || (p.pc == Finished(false) && SameBut(s0, s, d) && d !in s)
  }

  lemma TidyStep(p: Pub, s0: Disk, s: Disk, t: Turn, hash: Bytes -> string)
    requires TidiesUp(p, s0, s) && t.call.fault.Works? && Once(t.pick)
    ensures TidiesUp(PubStep(p, s, t, hash).0, s0, PubStep(p, s, t, hash).1) && PubStep(p, s, t, hash).0.art == p.art
  {
    if p.pc.Tidying? && Sweeping(p.pc.todo, s) { SweepStep(p.pc.todo, s, t); }
    var u := PubStep(p, s, t, hash).1;
    hide RemovalStep, Sweeping, PartialOf;
    forall k | k != Partial(p) ensures SameChild(s0, u, k) { assert SameChild(s0, s, k); }
  }

  /** A publication that fails once its directory is made removes it: with working calls from there on the machine ends with
      the directory gone and nothing else touched. */
  lemma {:induction false} FailureTidies(p: Pub, s: Disk, t: Turn, turns: seq<Turn>, hash: Bytes -> string)
    requires Staging(p.pc) && (Partial(p) in PubStep(p, s, t, hash).1 ==> PubStep(p, s, t, hash).1[Partial(p)].Tree?)
    requires Lost(PubStep(p, s, t, hash).0.pc) && Smooth(turns)
    ensures var (q, u) := PubStep(p, s, t, hash);
      PubRun(q, u, turns, hash).0.art == p.art && TidiesUp(PubRun(q, u, turns, hash).0, u, PubRun(q, u, turns, hash).1)
  {
    var (q, u) := PubStep(p, s, t, hash);
    if turns == [] {
      hide PartialOf, Checked, Written;
    } else {
      var before, last := turns[..|turns| - 1], turns[|turns| - 1];
      FailureTidies(p, s, t, before, hash);
      hide PubStep, TidiesUp;
      TidyStep(PubRun(q, u, before, hash).0, u, PubRun(q, u, before, hash).1, last, hash);
    }
  }

  /** One file, opened and closed. */
  lemma CopyPair(p: Pub, s: Disk, t: Turn, t': Turn, i: nat, hash: Bytes -> string)
    requires p.pc == Opening(i) && i <= 2 && Partial(p) in s && s[Partial(p)].Tree?
    requires t.call.fault.Works? && t'.call.fault.Works?
    ensures var (q, u) := PubStep(p, s, t, hash); var (r, v) := PubStep(q, u, t', hash); var d := Partial(p);
      r.art == p.art && r.pc == (if i < 2 then Opening(i + 1) else ReadBack) && d in v && v[d].Tree? && v == s[d := v[d]]
      && v[d].files == s[d].files[FileAt(i) := SourceAt(p.art, i)]
  {
    hide PartialOf, Checked, FileAt, SourceAt;
  }

  lemma PubRunTwo(p: Pub, s: Disk, turns: seq<Turn>, k: nat, hash: Bytes -> string)
    requires k + 2 <= |turns|
    ensures PubRun(p, s, turns[..k + 1], hash)
            == PubStep(PubRun(p, s, turns[..k], hash).0, PubRun(p, s, turns[..k], hash).1, turns[k], hash)
    ensures PubRun(p, s, turns[..k + 2], hash)
            == PubStep(PubRun(p, s, turns[..k + 1], hash).0, PubRun(p, s, turns[..k + 1], hash).1, turns[k + 1], hash)
  {
    hide PubStep;
    assert turns[..k + 1][..k] == turns[..k] && turns[..k + 2][..k + 1] == turns[..k + 1];
  }

  /** The three files of the artifact under their names. */
  function FilesOf(art: Artifact): map<string, File> {
    map["backup.tar.enc" := art.payload, "backup.sha256" := art.checksum, "metadata.json" := art.metadata]
  }

  /** Only the partial directory differs, and it holds these files. */
  ghost predicate Holding(p: Pub, s0: Disk, s: Disk, files: map<string, File>) {
    var d := Partial(p); d in s && s[d].Tree? && s == s0[d := s[d]] && s[d].files == files
  }

  lemma OneFileMore(p: Pub, s0: Disk, s: Disk, files: map<string, File>, pair: seq<Turn>, i: nat, hash: Bytes -> string)
    requires p.pc == Opening(i) && i <= 2 && Holding(p, s0, s, files) && Smooth(pair) && |pair| == 2
    ensures var (q, u) := PubRun(p, s, pair, hash);
      q == Pub(p.art, if i < 2 then Opening(i + 1) else ReadBack)
      && Holding(q, s0, u, files[FileAt(i) := SourceAt(p.art, i)])
  {
    assert pair[..0] == [] && pair[..2] == pair;
    hide PubStep, PartialOf, FileAt, SourceAt;
    PubRunTwo(p, s, pair, 0, hash);
    CopyPair(p, s, pair[0], pair[1], i, hash);
    hide PubRun;
  }

  /** From the new directory to the staged copy. */
  lemma StagedBySix(p: Pub, s: Disk, turns: seq<Turn>, hash: Bytes -> string)
    requires p.pc == Opening(0) && Holding(p, s, s, map[]) && Smooth(turns) && |turns| == 6
    ensures var (q, u) := PubRun(p, s, turns, hash); q == Pub(p.art, ReadBack) && Holding(q, s, u, FilesOf(p.art))
  {
    var one, two, three := turns[..2], turns[2..4], turns[4..];
    assert turns == one + two + three;
    SmoothSlice(turns, 0, 2);
    SmoothSlice(turns, 2, 4);
    SmoothSlice(turns, 4, 6);
    ThreeFiles(p.art);
    hide *;
    PubRunSplit(p, s, one + two, three, hash);
    PubRunSplit(p, s, one, two, hash);
    OneFileMore(p, s, s, map[], one, 0, hash);
    var (p1, s1) := PubRun(p, s, one, hash);
    OneFileMore(p1, s, s1, map[][FileAt(0) := SourceAt(p.art, 0)], two, 1, hash);
    var (p2, s2) := PubRun(p1, s1, two, hash);
    OneFileMore(p2, s, s2, map[][FileAt(0) := SourceAt(p.art, 0)][FileAt(1) := SourceAt(p.art, 1)], three, 2, hash);
  }

  lemma PubRunNone(p: Pub, s: Disk, hash: Bytes -> string)
    ensures PubRun(p, s, [], hash) == (p, s)
  {
  }

  lemma ThreeFiles(art: Artifact)
    ensures map[][FileAt(0) := SourceAt(art, 0)][FileAt(1) := SourceAt(art, 1)][FileAt(2) := SourceAt(art, 2)] == FilesOf(art)
  {
  }

  /** A run is its beginning and then the rest. */
  lemma {:induction false} PubRunSplit(p: Pub, s: Disk, turns: seq<Turn>, more: seq<Turn>, hash: Bytes -> string)
    ensures PubRun(p, s, turns + more, hash) == PubRun(PubRun(p, s, turns, hash).0, PubRun(p, s, turns, hash).1, more, hash)
  {
    hide PubStep;
    if more == [] {
      assert turns + more == turns;
    } else {
      PubRunSplit(p, s, turns, more[..|more| - 1], hash);
      assert (turns + more)[..|turns + more| - 1] == turns + more[..|more| - 1];
    }
  }

  /** The two calls before the copies. */
  lemma DirectoryMade(art: Artifact, s0: Disk, turns: seq<Turn>, hash: Bytes -> string)
    requires art.name !in s0 && PartialOf(art.name) !in s0 && Smooth(turns) && |turns| == 2
    ensures PubRun(PubStart(art), s0, turns, hash)
            == (Pub(art, Opening(0)), s0[PartialOf(art.name) := Tree(map[], turns[1].call.now)])
    ensures var (p, s) := PubRun(PubStart(art), s0, turns, hash); Holding(p, s, s, map[])
  {
    assert turns[..0] == [] && turns[..2] == turns;
    PubRunTwo(PubStart(art), s0, turns, 0, hash);
    hide PartialOf;
  }

  /** The three calls behind them: readback, rename, the last look at the mount. */
  lemma CopyCommitted(p: Pub, s0: Disk, s: Disk, turns: seq<Turn>, data: Bytes, time: int, hash: Bytes -> string)
    requires p.pc == ReadBack && p.art.name !in s && Holding(p, s0, s, FilesOf(p.art)) && Smooth(turns) && |turns| == 3
    requires p.art.payload.body == Blob(data)
    requires Described(p.art.metadata.body, |data|, hash(data), time, turns[0].call.now)
    ensures PubRun(p, s, turns, hash) == (Pub(p.art, Finished(true)), s[p.art.name := s[Partial(p)]] - {Partial(p)})
  {
    var now := turns[0].call.now;
    assert turns[..0] == [] && turns[..1] == [turns[0]] && turns[..3] == turns;
    ManifestMeans(p.art.metadata.body, now);
    DescribedOnce(p.art.metadata.body, ParseManifest(p.art.metadata.body, now).value, |data|, hash(data), time, now);
    hide PartialOf, ParseManifest, Described;
    assert Checked(p, s, turns[0].call, hash);
    PubRunTwo(p, s, turns, 0, hash);
    PubRunTwo(p, s, turns, 1, hash);
    hide Checked, FilesOf;
  }

  /** Eleven working calls publish a described payload under a new name: the disk has gained the directory with exactly the
      three files of the artifact. */
  lemma PubRunSucceeds(art: Artifact, s0: Disk, turns: seq<Turn>, data: Bytes, time: int, hash: Bytes -> string)
    requires art.name !in s0 && PartialOf(art.name) !in s0 && Smooth(turns) && |turns| == 11
    requires art.payload.body == Blob(data)
    requires Described(art.metadata.body, |data|, hash(data), time, turns[8].call.now)
    ensures var (p, s) := PubRun(PubStart(art), s0, turns, hash);
      p.pc == Finished(true) && art.name in s && s == s0[art.name := s[art.name]]
      && s[art.name].Tree? && s[art.name].files == FilesOf(art)
  {
    var first, copies, last := turns[..2], turns[2..8], turns[8..];
    assert turns == first + copies + last && turns[8] == last[0];
    SmoothSlice(turns, 0, 2);
    SmoothSlice(turns, 2, 8);
    SmoothSlice(turns, 8, 11);
    var d := PartialOf(art.name);
    assert |d| > |art.name|;
    hide *;
    PubRunSplit(PubStart(art), s0, first + copies, last, hash);
    PubRunSplit(PubStart(art), s0, first, copies, hash);
    DirectoryMade(art, s0, first, hash);
    var (p1, s1) := PubRun(PubStart(art), s0, first, hash);
    StagedBySix(p1, s1, copies, hash);
    var (p2, s2) := PubRun(p1, s1, copies, hash);
    HoldingMeans(p2, s1, s2, FilesOf(art));
    CopyCommitted(p2, s1, s2, last, data, time, hash);
    RenamedAway(s0, s1, s2, d, art.name);
  }

  lemma SmoothSlice(turns: seq<Turn>, i: nat, k: nat)
    requires Smooth(turns) && i <= k <= |turns|
    ensures Smooth(turns[i..k]) && (i == 0 ==> turns[i..k] == turns[..k]) && (k == |turns| ==> turns[i..k] == turns[i..])
  {
    hide Once;
  }

  lemma RenamedAway(s0: Disk, s1: Disk, s2: Disk, d: string, name: string)
    requires d !in s0 && d != name && d in s1 && s1 == s0[d := s1[d]] && d in s2 && s2 == s1[d := s2[d]]
    ensures s2[name := s2[d]] - {d} == s0[name := s2[d]]
  {
  }

  lemma HoldingMeans(p: Pub, s0: Disk, s: Disk, files: map<string, File>)
    requires Holding(p, s0, s, files)
    ensures var d := PartialOf(p.art.name); d in s && s[d].Tree? && s == s0[d := s[d]] && s[d].files == files
  {
  }

  // ---- retention --------------------------------------------------------------------------------------------------

  ghost predicate AsFound(names: seq<string>, s0: Disk, s: Disk) { Once(names) && forall k | k in names :: SameChild(s0, s, k) }

  /** A retention run that has met nothing to stop at. */
  ghost predicate Unhindered(q: Prune, s0: Disk, s: Disk) {
    match q.pc
    case List => s == s0
    case Scan(names) => AsFound(names, s0, s)
    case Clearing(todo, rest) => Sweeping(todo, s) && todo.dir !in rest && AsFound(rest, s0, s)
    case Done(ok) => ok
  }

  lemma OrderOnce(names: set<string>, pick: seq<string>)
    requires Once(pick)
    ensures Once(Order(names, pick))
  {
  }

  lemma UnhinderedScan(q: Prune, s0: Disk, s: Disk, t: Turn)
    requires Unhindered(q, s0, s) && q.pc.Scan? && t.call.fault.Works?
    requires !FilesystemBackend.SomeUnreadable(s0, q.cluster)
    ensures Unhindered(PruneStep(q, s, t).0, s0, PruneStep(q, s, t).1)
  {
    if q.pc.names != [] {
      var k := q.pc.names[0];
      assert k in q.pc.names && SameChild(s0, s, k);
      FilesystemBackend.SameVerdict(s0, s, q.cluster, q.cutoff, k);
      assert k in s0 ==> !FilesystemBackend.Unreadable(s0, q.cluster, k);
      VerdictReads(q, s, k, t.call);
      hide Verdict, FilesystemBackend.Unreadable, FilesystemBackend.Expired;
    }
  }

  lemma VerdictReads(q: Prune, s: Disk, k: string, c: Call)
    requires c.fault.Works?
    ensures Verdict(q, s, k, c).None? ==> k in s && FilesystemBackend.Unreadable(s, q.cluster, k)
    ensures Verdict(q, s, k, c) == Some(true) ==> k in s && s[k].Tree?
  {
    hide ClusterPrefix, PartialPrefix, FilesystemBackend.AllOlder, FilesystemBackend.Readable;
  }

  lemma UnhinderedStep(q: Prune, s0: Disk, s: Disk, t: Turn)
    requires Unhindered(q, s0, s) && t.call.fault.Works? && Once(t.pick) && !FilesystemBackend.SomeUnreadable(s0, q.cluster)
    ensures Unhindered(PruneStep(q, s, t).0, s0, PruneStep(q, s, t).1)
  {
    match q.pc
    case List => OrderOnce(s.Keys, t.pick);
    case Scan(_) => UnhinderedScan(q, s0, s, t);
    case Clearing(todo, rest) =>
      SweepStep(todo, s, t);
      var u := PruneStep(q, s, t).1;
      hide RemovalStep, Sweeping;
      forall k | k in rest ensures SameChild(s0, u, k) { assert SameChild(s0, s, k); }
    case Done(_) =>
  }

  /** With working calls and readable metadata an undisturbed retention run never stops short: when it is done, it has ended
      normally. */
  lemma {:induction false} PruneRunSucceeds(cluster: string, cutoff: int, s0: Disk, turns: seq<Turn>)
    requires Smooth(turns) && !FilesystemBackend.SomeUnreadable(s0, cluster)
    ensures var (q, s) := PruneRun(PruneStart(cluster, cutoff), s0, turns);
      q.cluster == cluster && Unhindered(q, s0, s) && q.pc != Done(false)
  {
    if turns != [] {
      var before, last := turns[..|turns| - 1], turns[|turns| - 1];
      PruneRunSucceeds(cluster, cutoff, s0, before);
      var (q, s) := PruneRun(PruneStart(cluster, cutoff), s0, before);
      assert last.call.fault.Works? && Once(last.pick);
      PruneAtCluster(q, s, last);
      hide PruneStep, FilesystemBackend.SomeUnreadable;
      UnhinderedStep(q, s0, s, last);
    }
  }

  lemma PruneAtCluster(q: Prune, s: Disk, t: Turn)
    ensures PruneStep(q, s, t).0.cluster == q.cluster
  {
    hide Verdict, RemovalStep;
  }
}
