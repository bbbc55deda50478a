/** One restore run: nothing is destroyed before the fetched backup has passed every check, and success is claimed only for
    a database that was started and counted. Every call that leaves the process is answered by a schedule and noted, with
    its answer, in a journal. */
module RestoreRun {
  import opened Errors
  import opened Container
  import opened RestoreChecks

  datatype Op =
    | Acquire | ReadState | WriteState | WriteMetric | Build | Preflight | MakeDir | Restrict | Fetch | ReadMeta | ReadPayload
    | Decrypt | OpenArchive | Extract | Clear | CopyBack | Own | StartServer | Poll | ReadLog | Verify | StopServer
    | BuildMarker | WriteMarker | Close | RemoveDir

  /** The answer to one call. `took` says whether a call that raised had its effect all the same. */
  datatype Reply = Reply(failure: Option<Failure>, took: bool, number: int, elapsed: nat) {
    predicate Works() { failure.None? }
    predicate Takes() { failure.None? || took }
  }

  datatype Entry = Entry(op: Op, reply: Reply)

  /** The metadata as the restore reads it; `size` is None when it is not a number. */
  datatype Meta = Meta(format: int, cluster: string, version: string, size: Option<int>, sha: string, plainSha: string)

  /** What `fetch_latest` put into the work directory. */
  datatype Fetched = Fetched(payload: Bytes, meta: Option<Meta>)

  datatype Event = Locked | ShutdownFailure | MarkerFailure | CleanupFailure | RestoreSuccess | RestoreFailure(code: Code)
    | MetricsWriteFailure

  datatype Status = Succeeded | FailedWith(code: Code) | LockedOut

  datatype StateFile = Damaged | Readable(lastRun: Option<Status>)

  /** Everything outside: the configuration, the backup, the cipher, the archive, the server and the data directory. */
  datatype Setting = Setting(
    cluster: string, version: string, parse: string -> Option<(int, int)>, pass: string, p: Primitives,
    hash: Bytes -> string, fetched: Fetched, legacy: Result<Bytes>, members: Bytes -> Option<seq<Member>>,
    server: Server, path: Path, there: Contents, order: seq<string>, stuck: set<string>)

  /** `is_mariadb_version_compatible`: major and minor, not newer than the host's. */
  predicate Compatible(s: Setting, version: string) {
    s.parse(version).Some? && s.parse(s.version).Some?
    && var b, t := s.parse(version).value, s.parse(s.version).value; b.0 < t.0 || (b.0 == t.0 && b.1 <= t.1)
  }

  function Decrypted(s: Setting): Result<Bytes> {
    if FormatOf(s.fetched.payload).V1? then s.legacy else Open(s.p, s.pass, s.fetched.payload)
  }

  predicate MetaFits(s: Setting, m: Meta) {
    m.format in {1, 2, 3} && m.cluster == s.cluster
    && (m.version != "" && s.version != "" ==> Compatible(s, m.version))
  }

  /** The chain from the metadata to the plaintext: size, digest, authenticated decryption, digest again, safe members. */
  ghost predicate Proven(s: Setting, plain: Bytes) {
    s.fetched.meta.Some?
    && var payload, m := s.fetched.payload, s.fetched.meta.value;
    MetaFits(s, m) && m.size == Some(|payload|) && s.hash(payload) == m.sha
    && Decrypted(s) == Ok(plain) && s.hash(plain) == m.plainSha
    && s.members(plain).Some? && forall x | x in s.members(plain).value :: SafeMember(x)
  }

  ghost predicate ProvenBackup(s: Setting) { exists plain :: Proven(s, plain) }

  /** The restored database was listed and counted. */
  predicate ProvenDatabase(s: Setting) {
    s.server.checkWorks && s.server.databases.Some? && UserOnly(Names(s.server.databases.value)) != []
    && Total(s.server, UserOnly(Names(s.server.databases.value))).Some?
    && Total(s.server, UserOnly(Names(s.server.databases.value))).value.tables > 0
  }

  /** What a backup has to be before anything is destroyed, spelled out, with its plaintext. */
  ghost predicate Sound(s: Setting, plain: Bytes) {
    s.fetched.meta.Some?
    && var m, payload := s.fetched.meta.value, s.fetched.payload;
       (m.format == 1 || m.format == 2 || m.format == 3) && m.cluster == s.cluster
       && (m.version == "" || s.version == ""
           || (s.parse(m.version).Some? && s.parse(s.version).Some?
               && var a, b := s.parse(m.version).value, s.parse(s.version).value; a.0 < b.0 || (a.0 == b.0 && a.1 <= b.1)))
       && m.size == Some(|payload|) && s.hash(payload) == m.sha
       && (if |payload| >= 4 && (payload[..4] == [0x47, 0x42, 0x33, 0x47] || payload[..4] == [0x47, 0x42, 0x32, 0x47])
           then Open(s.p, s.pass, payload) == Ok(plain) else s.legacy == Ok(plain))
       && s.hash(plain) == m.plainSha
       && s.members(plain).Some? && forall x | x in s.members(plain).value :: Harmless(x)
  }

  lemma ProvenIff(s: Setting)
    ensures ProvenBackup(s) <==> exists plain :: Sound(s, plain)
  {
    FormatByBytes(s.fetched.payload);
    forall m: Member ensures SafeMember(m) <==> Harmless(m) { SafeMemberIff(m); }
    hide Open, SafeMember, Harmless, FormatOf;
    forall plain ensures Proven(s, plain) <==> Sound(s, plain) {}
  }

  lemma FormatByBytes(data: Bytes)
    ensures !FormatOf(data).V1?
            <==> |data| >= 4 && (data[..4] == [0x47, 0x42, 0x33, 0x47] || data[..4] == [0x47, 0x42, 0x32, 0x47])
  {
  }

  /** `order` is the data directory as it is read: each entry once. */
  ghost predicate Listed(s: Setting) {
    (s.there.Some? ==> forall k :: k in s.order <==> k in s.there.value)
    && forall i, j | 0 <= i < j < |s.order| :: s.order[i] != s.order[j]
  }

  // ---- what the run complains of ----------------------------------------------------------------------------------

  /** A call that is not enough by having worked: what is wrong with what it delivered. */
  predicate Unfit(s: Setting, op: Op) {
    var meta := s.fetched.meta;
    match op
    case ReadMeta => meta.None? || !MetaFits(s, meta.value)
    case ReadPayload =>
      meta.Some? && (meta.value.size != Some(|s.fetched.payload|) || s.hash(s.fetched.payload) != meta.value.sha)
    case Decrypt => Decrypted(s).Err? || (meta.Some? && s.hash(Decrypted(s).value) != meta.value.plainSha)
    case OpenArchive =>
      Decrypted(s).Ok? && (s.members(Decrypted(s).value).None?
        || exists i | 0 <= i < |s.members(Decrypted(s).value).value| :: !SafeMember(s.members(Decrypted(s).value).value[i]))
    case Clear => !MayClear(s.path, s.there) || (s.there.Some? && s.there.value * s.stuck != {})
    case ReadLog => true
    case Verify => !ProvenDatabase(s)
    case _ => false
  }

  /** With which error. */
  function UnfitError(s: Setting, op: Op): Failure {
    match op
    case ReadMeta => if s.fetched.meta.None? then Uncoded else Coded(E_INTEGRITY, 0)
    case Decrypt => if Decrypted(s).Err? then Decrypted(s).failure else Coded(E_INTEGRITY, 0)
    case OpenArchive =>
      if Decrypted(s).Ok? && s.members(Decrypted(s).value).None? then Uncoded else Coded(E_INTEGRITY, 0)
    case _ => Coded(E_INTEGRITY, 0)
  }

  /** What the `try` block raises over one call. Marker, close and removal after a verified restore are not raised over, nor
      is the stop of the server; a state file that cannot be read is E_STATE. */
  function Complaint(s: Setting, damaged: bool, e: Entry): Option<Failure> {
    match e.op
    case WriteMarker => None
    case Close => None
    case RemoveDir => None
    case StopServer => None
    case ReadState => if e.reply.failure.Some? || damaged then Some(Coded(E_STATE, 0)) else None
    case Clear =>
      if Protected(s.path) then Some(Coded(E_INTEGRITY, 0))
      else if e.reply.failure.Some? then e.reply.failure
      else if Unfit(s, Clear) then Some(UnfitError(s, Clear)) else None
    case op =>
      if e.reply.failure.Some? then e.reply.failure else if Unfit(s, op) then Some(UnfitError(s, op)) else None
  }

  /** A call that returned is raised over only as an integrity error, with three exceptions: a state file that cannot be
      read, metadata or an archive that cannot be parsed, and a version 1 file that the external tool refuses. */
  lemma ComplaintCodes(s: Setting, damaged: bool, e: Entry)
    ensures var f := Complaint(s, damaged, e);
      e.reply.failure.None? && f.Some? ==>
        match e.op
        case ReadState => damaged && f == Some(Coded(E_STATE, 0))
        case ReadMeta => f == Some(if s.fetched.meta.None? then Uncoded else Coded(E_INTEGRITY, 0))
        case OpenArchive =>
          Decrypted(s).Ok? && f == Some(if s.members(Decrypted(s).value).None? then Uncoded else Coded(E_INTEGRITY, 0))
        case Decrypt => f == Some(Coded(E_INTEGRITY, 0)) || (FormatOf(s.fetched.payload).V1? && s.legacy == Err(f.value))
        case op => f == Some(Coded(E_INTEGRITY, 0))
  {
    hide SafeMember, ProvenDatabase, Protected, TagVerifies, Ctr;
  }

  ghost predicate Quiet(s: Setting, damaged: bool, j: seq<Entry>) {
    forall k | 0 <= k < |j| :: Complaint(s, damaged, j[k]).None?
  }

  /** `f` is the complaint over the first call there was anything to complain of; after it at most the server was stopped. */
  ghost predicate RaisedBy(s: Setting, damaged: bool, j: seq<Entry>, f: Failure) {
    exists k :: RaisedAt(s, damaged, j, f, k)
  }

  ghost predicate RaisedAt(s: Setting, damaged: bool, j: seq<Entry>, f: Failure, k: int) {
    0 <= k < |j| && Quiet(s, damaged, j[..k]) && Complaint(s, damaged, j[k]) == Some(f)
    && forall i | k < i < |j| :: j[i].op.StopServer?
  }

  /** A backend is open, a work directory is to be removed. */
  function HasBackend(j: seq<Entry>): bool {
    if j == [] then false
    else
      var e := j[|j| - 1];
      if e.op.Build? && e.reply.Works() then true else if e.op.WriteMarker? then false else HasBackend(j[..|j| - 1])
  }

  function HasDir(j: seq<Entry>): bool {
    if j == [] then false
    else
      var e := j[|j| - 1];
      if e.op.MakeDir? && e.reply.Works() then true else if e.op.WriteMarker? then false else HasDir(j[..|j| - 1])
  }

  /** Every call of a restore that succeeds. */
  const WHOLE: set<Op> := {
    ReadState, Build, Preflight, MakeDir, Restrict, Fetch, ReadMeta, ReadPayload, Decrypt, OpenArchive, Extract, Clear,
    CopyBack, Own, StartServer, Poll, Verify, StopServer, BuildMarker, WriteMarker, Close, RemoveDir, WriteState, WriteMetric
  }

  function Calls(j: seq<Entry>): set<Op> { set e | e in j :: e.op }

  lemma CallsMore(j: seq<Entry>, e: Entry)
    ensures Calls(j + [e]) == Calls(j) + {e.op}
  {
  }

  /** The success has been recorded. */
  function WroteSuccess(j: seq<Entry>): bool {
    if j == [] then false else (j[|j| - 1].op.WriteState? && j[|j| - 1].reply.Works()) || WroteSuccess(j[..|j| - 1])
  }

  lemma OneMore(s: Setting, damaged: bool, j: seq<Entry>, e: Entry)
    requires Quiet(s, damaged, j)
    ensures Complaint(s, damaged, e).None? ==> Quiet(s, damaged, j + [e])
    ensures Complaint(s, damaged, e).Some? ==> RaisedBy(s, damaged, j + [e], Complaint(s, damaged, e).value)
    ensures HasBackend(j + [e]) == ((e.op.Build? && e.reply.Works()) || (!e.op.WriteMarker? && HasBackend(j)))
    ensures HasDir(j + [e]) == ((e.op.MakeDir? && e.reply.Works()) || (!e.op.WriteMarker? && HasDir(j)))
    ensures WroteSuccess(j + [e]) == ((e.op.WriteState? && e.reply.Works()) || WroteSuccess(j))
  {
    hide Complaint;
    assert (j + [e])[..|j|] == j;
    if Complaint(s, damaged, e).Some? { assert RaisedAt(s, damaged, j + [e], Complaint(s, damaged, e).value, |j|); }
  }

  /** Calls that are enough if they work. */
  lemma PlainCall(s: Setting, damaged: bool, e: Entry)
    requires e.op.Acquire? || e.op.Build? || e.op.Preflight? || e.op.MakeDir? || e.op.Restrict?
    ensures Complaint(s, damaged, e) == e.reply.failure
  {
  }

  lemma NeverOver(s: Setting, damaged: bool, e: Entry)
    requires e.op.WriteMarker? || e.op.Close? || e.op.RemoveDir? || e.op.StopServer?
    ensures Complaint(s, damaged, e).None?
  {
  }

  /** Nothing to complain of, or `failure` is what is raised. */
  ghost predicate Stands(s: Setting, damaged: bool, j: seq<Entry>, failure: Option<Failure>) {
    if failure.None? then Quiet(s, damaged, j) else RaisedBy(s, damaged, j, failure.value)
  }

  lemma StopKeeps(s: Setting, damaged: bool, j: seq<Entry>, failure: Option<Failure>, e: Entry)
    requires Stands(s, damaged, j, failure) && e.op.StopServer?
    ensures Stands(s, damaged, j + [e], failure) && HasBackend(j + [e]) == HasBackend(j) && HasDir(j + [e]) == HasDir(j)
    ensures WroteSuccess(j + [e]) == WroteSuccess(j)
  {
    NeverOver(s, damaged, e);
    hide Complaint, Quiet, RaisedBy, HasBackend, HasDir, WroteSuccess;
    if failure.None? { OneMore(s, damaged, j, e); } else { StoppedAfter(s, damaged, j, failure.value, e); }
  }

  lemma StoppedAfter(s: Setting, damaged: bool, j: seq<Entry>, f: Failure, e: Entry)
    requires RaisedBy(s, damaged, j, f) && e.op.StopServer?
    ensures RaisedBy(s, damaged, j + [e], f) && HasBackend(j + [e]) == HasBackend(j) && HasDir(j + [e]) == HasDir(j)
    ensures WroteSuccess(j + [e]) == WroteSuccess(j)
  {
    hide Complaint;
    var k :| RaisedAt(s, damaged, j, f, k);
    assert (j + [e])[..k] == j[..k] && (j + [e])[..|j|] == j;
    assert RaisedAt(s, damaged, j + [e], f, k);
  }

  // ---- what becomes of the error ----------------------------------------------------------------------------------

  /** Where the run stands when its `try` block has raised: call `t` is next. */
  datatype Point = Point(t: nat, backend: bool, workDir: bool)

  function RemovalCall(p: Point): nat { if p.backend then p.t + 1 else p.t }

  function StateCall(p: Point): nat { if p.workDir then RemovalCall(p) + 1 else RemovalCall(p) }

  function CleanUpFailures(script: (nat, Op) -> Reply, p: Point): seq<Failure> {
    (if p.backend && !script(p.t, Close).Works() then [script(p.t, Close).failure.value] else [])
    + (if p.workDir && !script(RemovalCall(p), RemoveDir).Works()
       then [script(RemovalCall(p), RemoveDir).failure.value] else [])
  }

  /** The removal of the work directory raises something that is no BackupError, which the handler does not catch. */
  predicate Escapes(script: (nat, Op) -> Reply, p: Point) {
    p.workDir && script(RemovalCall(p), RemoveDir).failure == Some(Uncoded)
  }

  /** Unlike a backup's, the handler does not guard the state file: the update, which reads and writes it, or the later
      reading of the last success raises in the handler. */
  function Replacement(script: (nat, Op) -> Reply, t: nat): Option<Failure> {
    if !script(t, ReadState).Works() then Some(Coded(E_STATE, 0))
    else if !script(t + 1, WriteState).Works() then script(t + 1, WriteState).failure
    else if !script(t + 2, ReadState).Works() then Some(Coded(E_STATE, 0)) else None
  }

  /** The error with what the clean-up added. */
  function WithNotes(script: (nat, Op) -> Reply, p: Point, f: Failure): Failure {
    Folded(f, CleanUpFailures(script, p), E_INTEGRITY)
  }

  /** The error that leaves the run when its `try` block raised `f`. */
  function Final(script: (nat, Op) -> Reply, p: Point, f: Failure): Failure {
    if Escapes(script, p) then Uncoded
    else if CodeOf(f, E_INTEGRITY) == E_STATE then WithNotes(script, p, f)
    else match Replacement(script, StateCall(p)) case Some(g) => g case None => WithNotes(script, p, f)
  }

  /** The notes in the order in which they are made. */
  lemma NotesInTurn(script: (nat, Op) -> Reply, p: Point, f: Failure)
    ensures var close, remove := script(p.t, Close), script(RemovalCall(p), RemoveDir);
      var g := if p.backend && !close.Works() then Combine(f, close.failure.value, E_INTEGRITY) else f;
      WithNotes(script, p, f) == if p.workDir && !remove.Works() then Combine(g, remove.failure.value, E_INTEGRITY) else g
  {
    var close, remove := script(p.t, Close), script(RemovalCall(p), RemoveDir);
    if p.backend && !close.Works() && p.workDir && !remove.Works() {
      FoldTwo(f, close.failure.value, remove.failure.value);
    } else if p.backend && !close.Works() {
      FoldOne(f, close.failure.value);
    } else if p.workDir && !remove.Works() {
      FoldOne(f, remove.failure.value);
    }
  }

  lemma FoldOne(f: Failure, x: Failure)
    ensures Folded(f, [x], E_INTEGRITY) == Combine(f, x, E_INTEGRITY) && [x] + [] == [x] && [] + [x] == [x]
  {
    assert [x][1..] == [];
  }

  lemma FoldTwo(f: Failure, x: Failure, y: Failure)
    ensures Folded(f, [x, y], E_INTEGRITY) == Combine(Combine(f, x, E_INTEGRITY), y, E_INTEGRITY)
    ensures [x] + [y] == [x, y]
  {
    assert [x, y][1..] == [y];
    FoldOne(Combine(f, x, E_INTEGRITY), y);
  }

  /** An error that survives keeps its code, and has a note for every clean-up call that raised. */
  lemma SurvivingErrorKeepsCode(script: (nat, Op) -> Reply, p: Point, f: Failure)
    requires !Escapes(script, p)
    requires CodeOf(f, E_INTEGRITY) == E_STATE || Replacement(script, StateCall(p)).None?
    ensures var n := (if p.backend && script(p.t, Close).failure.Some? then 1 else 0)
                     + (if p.workDir && script(if p.backend then p.t + 1 else p.t, RemoveDir).failure.Some? then 1 else 0);
      Final(script, p, f) == if n == 0 then f
                             else match f
                                  case Coded(code, notes) => Coded(code, notes + n)
                                  case Uncoded => Coded(E_INTEGRITY, n)
  {
    CleanUpKeepsCode(f, CleanUpFailures(script, p), E_INTEGRITY);
  }

  /** The error is lost, so that every other one would have ended in the same way, exactly if the removal of the work
      directory escapes or one of the three calls on the state file raises. */
  lemma ErrorIsLostIff(script: (nat, Op) -> Reply, p: Point, f: Failure)
    requires CodeOf(f, E_INTEGRITY) != E_STATE
    ensures (forall g | CodeOf(g, E_INTEGRITY) != E_STATE :: Final(script, p, g) == Final(script, p, f))
            <==> Escapes(script, p) || Replacement(script, StateCall(p)).Some?
  {
    if !Escapes(script, p) && Replacement(script, StateCall(p)).None? {
      var g := if CodeOf(f, E_INTEGRITY) == E_GALERA then Coded(E_WRITER, 0) else Coded(E_GALERA, 0);
      SurvivingErrorKeepsCode(script, p, f);
      SurvivingErrorKeepsCode(script, p, g);
      assert Final(script, p, g) != Final(script, p, f);
    }
  }

  /** At such an input: a data directory that must not be cleared, then a state file that cannot be written; what is raised
      is the error of the write, without a code. */
  lemma StateFileHidesTheCause(script: (nat, Op) -> Reply, t: nat)
    requires script(t, Close).Works() && script(t + 1, RemoveDir).Works() && script(t + 2, ReadState).Works()
    requires script(t + 3, WriteState).failure == Some(Uncoded)
    ensures Final(script, Point(t, true, true), Coded(E_INTEGRITY, 0)) == Uncoded
  {
  }

  // ---- waiting for the server -------------------------------------------------------------------------------------

  /** How many half seconds these polls have taken, with the pause after each. */
  function PollTime(polls: seq<Entry>): nat {
    if polls == [] then 0 else PollTime(polls[..|polls| - 1]) + polls[|polls| - 1].reply.elapsed + 1
  }

  /** Polls within thirty seconds, none of which raised or found the server. */
  ghost predicate Unanswered(polls: seq<Entry>) {
    forall k | 0 <= k < |polls| ::
      polls[k].op.Poll? && polls[k].reply.failure.None? && polls[k].reply.number != 0 && PollTime(polls[..k]) < 60
  }

  /** These calls are a wait that ends with `failure`: polls for thirty seconds, the last of them answered or raising, or a
      look into the log once the time is over. */
  ghost predicate Waits(calls: seq<Entry>, failure: Option<Failure>) {
    calls != []
    && var n := |calls| - 1; var last := calls[n].reply;
       Unanswered(calls[..n])
       && if calls[n].op.Poll? then PollTime(calls[..n]) < 60 && last.failure == failure && (failure.None? ==> last.number == 0)
          else calls[n].op.ReadLog? && PollTime(calls[..n]) >= 60
               && failure == (if last.failure.Some? then last.failure else Some(Coded(E_INTEGRITY, 0)))
  }

  lemma NoPolls()
    ensures Unanswered([]) && PollTime([]) == 0
  {
  }

  lemma WaitedLong(polls: seq<Entry>, e: Entry, failure: Option<Failure>)
    requires Unanswered(polls) && PollTime(polls) >= 60 && e.op.ReadLog?
    requires failure == (if e.reply.failure.Some? then e.reply.failure else Some(Coded(E_INTEGRITY, 0)))
    ensures Waits(polls + [e], failure)
  {
    assert (polls + [e])[..|polls|] == polls;
    hide Unanswered, PollTime;
  }

  lemma PollMore(polls: seq<Entry>, e: Entry)
    requires Unanswered(polls) && PollTime(polls) < 60 && e.op.Poll?
    ensures e.reply.failure.None? && e.reply.number != 0 ==> Unanswered(polls + [e])
    ensures PollTime(polls + [e]) == PollTime(polls) + e.reply.elapsed + 1
    ensures e.reply.failure.Some? || e.reply.number == 0 ==> Waits(polls + [e], e.reply.failure)
  {
    var more := polls + [e];
    assert more[..|polls|] == polls;
    forall k | 0 <= k < |polls| ensures more[..k] == polls[..k] && more[k] == polls[k] {}
  }

  // ---- the run ----------------------------------------------------------------------------------------------------

  class Restore {
    const s: Setting
    const script: (nat, Op) -> Reply
    /** What the state file held when the run began. */
    const found: StateFile
    const damaged := found.Damaged?
    var tick: nat
    var clock: int
    var locked: bool
    var backend: bool
    var workDir: bool
    /** A server that this run has started and not yet tried to stop. */
    var server: bool
    var dataDir: Contents
    /** The work directory, with the decrypted backup, is on the disk. */
    var staging: bool
    var state: StateFile
    var lastRunSuccess: Option<int>
    var events: seq<Event>
    ghost var journal: seq<Entry>

    constructor (s: Setting, script: (nat, Op) -> Reply, state: StateFile, lastRunSuccess: Option<int>)
      ensures this.s == s && this.script == script && this.state == state && this.lastRunSuccess == lastRunSuccess
      ensures Fresh()
    {
      this.s, this.script, this.found, this.tick, this.clock := s, script, state, 0, 0;
      this.state, this.lastRunSuccess, this.dataDir, this.staging, this.journal := state, lastRunSuccess, s.there, false, [];
      this.locked, this.backend, this.workDir, this.server, this.events := false, false, false, false, [];
    }

    ghost predicate Fresh()
      reads this
    {
      tick == 0 && journal == [] && !locked && !backend && !workDir && !server && dataDir == s.there && !staging && events == []
      && state == found
    }

    /** The state file during the `try` block. */
    ghost function StateOf(j: seq<Entry>): StateFile { if WroteSuccess(j) then Readable(Some(Succeeded)) else found }

    /** The journal holds every call of the run, in order, each with its own answer. */
    ghost predicate Journalled()
      reads this`tick, this`journal
    {
      |journal| == tick && forall k | 0 <= k < |journal| :: journal[k].reply == script(k, journal[k].op)
    }

    /** On the way through the `try` block, with nothing to complain of so far. */
    ghost predicate Going()
      reads this
    {
      GoesOn(None)
    }

    /** On the way out of it. */
    ghost predicate Raises(f: Failure)
      reads this
    {
      GoesOn(Some(f))
    }

    /** A work directory that is on the disk is still to be removed, or its removal has been reported to fail. */
    ghost predicate Tidy()
      reads this
    {
      (workDir ==> staging) && (staging && !workDir ==> CleanupFailure in events)
    }

    ghost predicate GoesOn(failure: Option<Failure>)
      reads this
    {
      Journalled() && Stands(s, damaged, journal, failure) && backend == HasBackend(journal) && workDir == HasDir(journal)
      && state == StateOf(journal)
    }

    method Ask(op: Op) returns (r: Reply)
      requires Journalled()
      modifies this`tick, this`clock, this`journal
      ensures Journalled() && tick == old(tick) + 1 && r == script(old(tick), op) && clock == old(clock) + r.elapsed
      ensures journal == old(journal) + [Entry(op, r)] && Calls(journal) == old(Calls(journal)) + {op}
    {
      CallsMore(journal, Entry(op, script(tick, op)));
      r := script(tick, op);
      tick, clock := tick + 1, clock + r.elapsed;
      journal := journal + [Entry(op, r)];
    }

    method Emit(e: Event)
      modifies this`events
      ensures events == old(events) + [e]
    {
      events := events + [e];
    }

    /** A call of the `try` block that is neither Build, MakeDir, WriteMarker nor WriteState: goes on, or raises
        what there is to complain of. */
    method Do(op: Op) returns (r: Reply)
      requires Going() && !op.Build? && !op.MakeDir? && !op.WriteMarker? && !op.WriteState?
      modifies this`tick, this`clock, this`journal
      ensures r == script(old(tick), op) && clock == old(clock) + r.elapsed && tick == old(tick) + 1
      ensures journal == old(journal) + [Entry(op, r)]
      ensures GoesOn(Complaint(s, damaged, Entry(op, r))) && Calls(journal) == old(Calls(journal)) + {op}
    {
      OneMore(s, damaged, journal, Entry(op, script(tick, op)));
      hide Complaint, Quiet, RaisedBy, HasBackend, HasDir, WroteSuccess, Calls;
      r := Ask(op);
    }

    /** Any call of the `try` block, and what the journal says after it. */
    method AskOn(op: Op) returns (r: Reply)
      requires Going()
      modifies this`tick, this`clock, this`journal
      ensures Journalled() && r == script(old(tick), op) && Calls(journal) == old(Calls(journal)) + {op}
      ensures tick == old(tick) + 1
      ensures var c := Complaint(s, damaged, Entry(op, r));
        if c.None? then Quiet(s, damaged, journal) else RaisedBy(s, damaged, journal, c.value)
      ensures HasBackend(journal) == ((op.Build? && r.Works()) || (!op.WriteMarker? && backend))
      ensures HasDir(journal) == ((op.MakeDir? && r.Works()) || (!op.WriteMarker? && workDir))
      ensures StateOf(journal) == if op.WriteState? && r.Works() then Readable(Some(Succeeded)) else state
    {
      OneMore(s, damaged, journal, Entry(op, script(tick, op)));
      hide Complaint, Quiet, RaisedBy, HasBackend, HasDir, WroteSuccess, Calls;
      r := Ask(op);
    }

    /** A call over which nothing is raised. */
    method AskQuietly(op: Op) returns (r: Reply)
      requires Going() && (op.Close? || op.RemoveDir?)
      modifies this`tick, this`clock, this`journal
      ensures Going() && r == script(old(tick), op) && Calls(journal) == old(Calls(journal)) + {op} && tick == old(tick) + 1
    {
      NeverOver(s, damaged, Entry(op, script(tick, op)));
      hide Complaint, Quiet, RaisedBy, HasBackend, HasDir, WroteSuccess, Calls, Restore.StateOf, Restore.Journalled;
      r := AskOn(op);
    }

    /** The server is stopped on every way out of its verification. */
    method AskStop(ghost failure: Option<Failure>) returns (r: Reply)
      requires GoesOn(failure)
      modifies this`tick, this`clock, this`journal
      ensures GoesOn(failure) && r == script(old(tick), Op.StopServer) && tick == old(tick) + 1
      ensures Calls(journal) == old(Calls(journal)) + {Op.StopServer}
    {
      StopKeeps(s, damaged, journal, failure, Entry(Op.StopServer, script(tick, Op.StopServer)));
      hide Quiet, RaisedBy, HasBackend, HasDir, WroteSuccess, Calls, Stands;
      r := Ask(Op.StopServer);
    }

    /** The file is replaced at the end of the write: one that raises has not changed it. */
    method WriteStatus(st: Status) returns (failure: Option<Failure>)
      requires Journalled()
      modifies this`tick, this`clock, this`journal, this`state
      ensures Journalled() && tick == old(tick) + 1
              && journal == old(journal) + [Entry(WriteState, script(old(tick), WriteState))]
      ensures failure == script(old(tick), WriteState).failure
      ensures state == if failure.None? then Readable(Some(st)) else old(state)
      ensures old(Calls(journal)) + {WriteState} <= Calls(journal)
    {
      var reply := Ask(WriteState);
      failure := reply.failure;
      if failure.None? { state := Readable(Some(st)); }
    }

    /** A metric that raises may have been written all the same: its security context is set afterwards. */
    method ShowMetric(success: int) returns (failure: Option<Failure>)
      requires Journalled()
      modifies this`tick, this`clock, this`journal, this`lastRunSuccess
      ensures Journalled() && tick == old(tick) + 1
              && journal == old(journal) + [Entry(WriteMetric, script(old(tick), WriteMetric))]
      ensures failure == script(old(tick), WriteMetric).failure
      ensures lastRunSuccess == if script(old(tick), WriteMetric).Takes() then Some(success) else old(lastRunSuccess)
      ensures old(Calls(journal)) + {WriteMetric} <= Calls(journal)
    {
      var reply := Ask(WriteMetric);
      failure := reply.failure;
      if reply.Takes() { lastRunSuccess := Some(success); }
    }

    /** Steps 1 to 5: metadata, size and digest, decryption, digest of the plaintext, members of the archive. */
    method CheckBackup() returns (failure: Option<Failure>)
      requires Going()
      modifies this`tick, this`clock, this`journal
      ensures GoesOn(failure)
      ensures failure.None? ==> ProvenBackup(s)
      ensures failure.None? ==> old(Calls(journal)) + {ReadMeta, ReadPayload, Decrypt, OpenArchive, Extract} <= Calls(journal)
      ensures failure.None? ==> exists plain :: Sound(s, plain)
      ensures (forall t: nat, op: Op :: script(t, op).Works()) ==>
                (failure.None? <==> ProvenBackup(s))
                && (failure.Some? && s.fetched.meta.Some? && Decrypted(s).Ok? && s.members(Decrypted(s).value).Some?
                    ==> failure == Some(Coded(E_INTEGRITY, 0)))
    {
      ProvenIff(s);
      hide FormatOf, Open, Quiet, RaisedBy, HasBackend, HasDir, WroteSuccess, Calls,
        Compatible, SafeMember, ProvenDatabase, Protected, Sound;
      var read := Do(ReadMeta);
      if read.failure.Some? { return read.failure; }
      if s.fetched.meta.None? { return Some(Uncoded); }
      var m := s.fetched.meta.value;
      if !MetaFits(s, m) { return Some(Coded(E_INTEGRITY, 0)); }
      read := Do(ReadPayload);
      if read.failure.Some? { return read.failure; }
      if m.size != Some(|s.fetched.payload|) { return Some(Coded(E_INTEGRITY, 0)); }
      if s.hash(s.fetched.payload) != m.sha { return Some(Coded(E_INTEGRITY, 0)); }
      read := Do(Decrypt);
      if read.failure.Some? { return read.failure; }
      var plain := Decrypted(s);
      if plain.Err? { return Some(plain.failure); }
      if s.hash(plain.value) != m.plainSha { return Some(Coded(E_INTEGRITY, 0)); }
      failure := CheckMembers(plain.value);
      if failure.None? {
        assert Proven(s, plain.value);
      }
    }

    /** The archive, member by member, before any of it is unpacked. */
    method CheckMembers(plain: Bytes) returns (failure: Option<Failure>)
      requires Going() && Decrypted(s) == Ok(plain)
      modifies this`tick, this`clock, this`journal
      ensures GoesOn(failure)
      ensures failure.None? ==> s.members(plain).Some? && forall x | x in s.members(plain).value :: SafeMember(x)
      ensures (forall t: nat, op: Op :: script(t, op).Works()) && s.members(plain).Some? ==>
                failure == if forall x | x in s.members(plain).value :: SafeMember(x) then None else Some(Coded(E_INTEGRITY, 0))
      ensures failure.None? ==> old(Calls(journal)) + {OpenArchive, Extract} <= Calls(journal)
    {
      hide FormatOf, Open, Quiet, RaisedBy, HasBackend, HasDir, WroteSuccess, Calls, Decrypted, SafeMember;
      var archive := Do(OpenArchive);
      if archive.failure.Some? { return archive.failure; }
      if s.members(plain).None? { return Some(Uncoded); }
      var members := s.members(plain).value;
      for i := 0 to |members|
        invariant forall k | 0 <= k < i :: SafeMember(members[k])
      {
        if !SafeMember(members[i]) { return Some(Coded(E_INTEGRITY, 0)); }
      }
      var extracted := Do(Extract);
      failure := extracted.failure;
    }

    /** Polls every half second for thirty seconds; times are in half seconds. A poll that raises ends the wait with its own
        error; after the wait the server's log is read for the message. */
    method WaitForServer() returns (failure: Option<Failure>)
      requires Going()
      modifies this`tick, this`clock, this`journal
      ensures GoesOn(failure) && old(journal) <= journal && Waits(journal[|old(journal)|..], failure)
      ensures failure.None? ==> old(Calls(journal)) + {Poll} <= Calls(journal)
    {
      var deadline := clock + 60;
      ghost var before, polls: seq<Entry> := journal, [];
      NoPolls();
      hide *;
      while clock < deadline
        invariant Going() && before == old(journal) && journal == before + polls
        invariant polls == [] || Poll in Calls(journal)
        invariant old(Calls(journal)) <= Calls(journal)
        invariant Unanswered(polls) && clock == deadline - 60 + PollTime(polls)
        decreases deadline - clock
      {
        var reply := PollServer();
        PollMore(polls, Entry(Poll, reply));
        polls := polls + [Entry(Poll, reply)];
        assert journal == before + polls && journal[|before|..] == polls;
        if reply.failure.Some? { return reply.failure; }
        if reply.number == 0 { return None; }
        Pause();
      }
      ghost var e;
      failure, e := ReadServerLog();
      WaitedLong(polls, e, failure);
      assert journal == before + (polls + [e]) && journal[|before|..] == polls + [e];
    }

    method Pause()
      requires Going()
      modifies this`clock
      ensures Going() && clock == old(clock) + 1
    {
      clock := clock + 1;
    }

    method PollServer() returns (r: Reply)
      requires Going()
      modifies this`tick, this`clock, this`journal
      ensures GoesOn(r.failure) && clock == old(clock) + r.elapsed && journal == old(journal) + [Entry(Poll, r)]
      ensures r.failure.None? ==> Going()
      ensures Calls(journal) == old(Calls(journal)) + {Poll}
    {
      hide Quiet, RaisedBy, HasBackend, HasDir, WroteSuccess, Calls, Stands;
      r := Do(Poll);
    }

    method ReadServerLog() returns (failure: Option<Failure>, ghost e: Entry)
      requires Going()
      modifies this`tick, this`clock, this`journal
      ensures GoesOn(failure) && journal == old(journal) + [e]
      ensures e.op.ReadLog? && failure == (if e.reply.failure.Some? then e.reply.failure else Some(Coded(E_INTEGRITY, 0)))
    {
      hide Quiet, RaisedBy, HasBackend, HasDir, WroteSuccess, Calls, Stands;
      var log := Do(ReadLog);
      failure, e := if log.failure.Some? then log.failure else Some(Coded(E_INTEGRITY, 0)), Entry(ReadLog, log);
    }

    /** `stop_standalone_server`: whatever happens is an event, never an exception. */
    method StopServer(ghost failure: Option<Failure>)
      requires GoesOn(failure) && server
      modifies this`tick, this`clock, this`journal, this`server, this`events
      ensures GoesOn(failure) && !server
      ensures var stop := script(old(tick), Op.StopServer);
        events == if stop.failure.Some? || stop.number !in {0, -15} then old(events) + [ShutdownFailure] else old(events)
      ensures old(Calls(journal)) + {Op.StopServer} <= Calls(journal)
    {
      var reply := AskStop(failure);
      if reply.failure.Some? || reply.number !in {0, -15} { Emit(ShutdownFailure); }
      server := false;
    }

    /** Step 7 and 8: the server is started, asked, and told to stop on every path. */
    method VerifyOnServer() returns (failure: Option<Failure>)
      requires Going() && !server
      modifies this`tick, this`clock, this`journal, this`server, this`events
      ensures GoesOn(failure) && !server && old(events) <= events
      ensures failure.None? ==> ProvenDatabase(s)
      ensures failure.None? ==> old(Calls(journal)) + {StartServer, Poll, Verify, Op.StopServer} <= Calls(journal)
    {
      hide Quiet, RaisedBy, HasBackend, HasDir, WroteSuccess, Calls;
      var started := Do(StartServer);
      if started.failure.Some? { return started.failure; }
      server := true;
      failure := WaitForServer();
      if failure.None? { failure := CountRestored(); }
      StopServer(failure);
    }

    method CountRestored() returns (failure: Option<Failure>)
      requires Going()
      modifies this`tick, this`clock, this`journal
      ensures GoesOn(failure)
      ensures failure.None? ==> ProvenDatabase(s)
      ensures failure.None? ==> old(Calls(journal)) + {Verify} <= Calls(journal)
    {
      hide Quiet, RaisedBy, HasBackend, HasDir, WroteSuccess, Calls;
      var asked := Do(Verify);
      if asked.failure.Some? { return asked.failure; }
      var totals := VerifyRestoredDatabase(s.server);
      failure := if totals.Some? then None else Some(Coded(E_INTEGRITY, 0));
    }

    /** The destructive part; it is entered only with a proven backup. */
    method CopyBack() returns (failure: Option<Failure>)
      requires Going() && ProvenBackup(s) && dataDir == s.there && !server && Listed(s)
      modifies this`tick, this`clock, this`journal, this`server, this`events, this`dataDir
      ensures GoesOn(failure) && !server && old(events) <= events
      ensures !MayClear(s.path, s.there) ==> failure.Some? && dataDir == s.there
      ensures failure.None? ==> ProvenDatabase(s)
      ensures failure.None? ==>
              old(Calls(journal)) + {Clear, Op.CopyBack, Own, StartServer, Poll, Verify, Op.StopServer} <= Calls(journal)
    {
      hide Quiet, RaisedBy, HasBackend, HasDir, WroteSuccess, Calls, ProvenDatabase, Protected, Proven, ProvenBackup;
      var looked := Do(Clear);
      if looked.failure.Some? && !Protected(s.path) { return looked.failure; }
      failure, dataDir := ClearDatadir(s.path, s.there, s.order, s.stuck);
      if failure.Some? { return; }
      failure := CopyAndVerify();
    }

    method CopyAndVerify() returns (failure: Option<Failure>)
      requires Going() && !server
      modifies this`tick, this`clock, this`journal, this`server, this`events
      ensures GoesOn(failure) && !server && old(events) <= events
      ensures failure.None? ==> ProvenDatabase(s)
      ensures failure.None? ==>
              old(Calls(journal)) + {Op.CopyBack, Own, StartServer, Poll, Verify, Op.StopServer} <= Calls(journal)
    {
      hide Quiet, RaisedBy, HasBackend, HasDir, WroteSuccess, Calls, ProvenDatabase;
      var copied := Do(Op.CopyBack);
      if copied.failure.Some? { return copied.failure; }
      var owned := Do(Own);
      if owned.failure.Some? { return owned.failure; }
      failure := VerifyOnServer();
    }

    /** The drill marker is checked before it is published; then nothing about marker, close and removal is raised over. */
    method Publish() returns (failure: Option<Failure>)
      requires Going() && Tidy()
      modifies this`tick, this`clock, this`journal, this`events, this`backend, this`workDir, this`staging
      ensures GoesOn(failure) && Tidy() && old(events) <= events
      ensures failure.None? ==> !backend && !workDir
      ensures failure.None? ==>
        events == old(events) + (if script(old(tick) + 1, WriteMarker).failure.Some? then [MarkerFailure] else [])
                  + CleanupEvents(old(tick) + 2)
      ensures failure.None? ==> old(Calls(journal)) + {BuildMarker, WriteMarker, Close, RemoveDir} <= Calls(journal)
    {
      hide Quiet, RaisedBy, HasBackend, HasDir, WroteSuccess, Calls;
      var built := Do(BuildMarker);
      if built.failure.Some? { return built.failure; }
      var marker := GiveUp();
      if marker.failure.Some? { Emit(MarkerFailure); }
      FinalizeCleanup();
      failure := None;
    }

    /** What close and removal, from call `t` on, are reported with. */
    function CleanupEvents(t: nat): seq<Event> {
      (if script(t, Close).failure.Some? then [CleanupFailure] else [])
      + (if script(t + 1, RemoveDir).failure.Some? then [CleanupFailure] else [])
    }

    /** `_finalize_success_cleanup` */
    method FinalizeCleanup()
      requires Going() && !backend && !workDir
      modifies this`tick, this`clock, this`journal, this`events, this`staging
      ensures Going() && Tidy()
      ensures events == old(events) + CleanupEvents(old(tick))
      ensures old(Calls(journal)) + {Close, RemoveDir} <= Calls(journal)
    {
      hide Complaint, Quiet, RaisedBy, HasBackend, HasDir, WroteSuccess, Calls;
      var closed := AskQuietly(Close);
      if closed.failure.Some? { Emit(CleanupFailure); }
      var removed := AskQuietly(RemoveDir);
      if removed.Takes() { staging := false; }
      if removed.failure.Some? {
        Emit(CleanupFailure);
        assert events[|events| - 1] == CleanupFailure;
      }
    }

    /** The marker is written; backend and work directory leave the hands of the `except` block. */
    method GiveUp() returns (marker: Reply)
      requires Going()
      modifies this`tick, this`clock, this`journal, this`backend, this`workDir
      ensures Going() && !backend && !workDir
      ensures marker == script(old(tick), WriteMarker) && tick == old(tick) + 1
      ensures old(Calls(journal)) + {WriteMarker} <= Calls(journal)
    {
      NeverOver(s, damaged, Entry(WriteMarker, script(tick, WriteMarker)));
      hide Complaint, RaisedBy, Quiet, HasBackend, HasDir, WroteSuccess, Calls;
      marker := AskOn(WriteMarker);
      backend, workDir := false, false;
    }

    /** State file, event and metric of a restore that has succeeded. */
    method RecordSuccess() returns (failure: Option<Failure>)
      requires Going() && !damaged
      modifies this`tick, this`clock, this`journal, this`events, this`state, this`lastRunSuccess
      ensures GoesOn(failure) && old(events) <= events
      ensures failure.None? ==> state == Readable(Some(Succeeded)) && lastRunSuccess == Some(1)
      ensures failure.None? ==> events == old(events) + [RestoreSuccess]
      ensures failure.None? ==> old(Calls(journal)) + {ReadState, WriteState, WriteMetric} <= Calls(journal)
    {
      hide Quiet, RaisedBy, HasBackend, HasDir, WroteSuccess, Calls;
      var read := Do(ReadState);
      if read.failure.Some? { return Some(Coded(E_STATE, 0)); }
      OneMore(s, damaged, journal, Entry(WriteState, script(tick, WriteState)));
      failure := WriteStatus(Succeeded);
      if failure.Some? { return; }
      Emit(RestoreSuccess);
      OneMore(s, damaged, journal, Entry(WriteMetric, script(tick, WriteMetric)));
      failure := ShowMetric(1);
    }

    /** State file, backend, work directory. */
    method Prepare() returns (failure: Option<Failure>)
      requires Going() && Tidy() && !backend && !workDir && state == found
      modifies this`tick, this`clock, this`journal, this`backend, this`workDir, this`staging
      ensures GoesOn(failure) && Tidy()
      ensures failure.None? ==> !damaged
      ensures failure.Some? && damaged ==> failure.value == Coded(E_STATE, 0)
      ensures failure.None? ==>
              old(Calls(journal)) + {ReadState, Build, Preflight, MakeDir, Restrict, Fetch} <= Calls(journal)
    {
      hide Quiet, RaisedBy, HasBackend, HasDir, WroteSuccess, Calls;
      var read := Do(ReadState);
      if read.failure.Some? || state.Damaged? { return Some(Coded(E_STATE, 0)); }
      failure := OpenBackend();
      if failure.Some? { return; }
      failure := MakeStaging();
      if failure.Some? { return; }
      var fetched := Do(Fetch);
      failure := fetched.failure;
    }

    method OpenBackend() returns (failure: Option<Failure>)
      requires Going()
      modifies this`tick, this`clock, this`journal, this`backend
      ensures GoesOn(failure)
      ensures failure.None? ==> old(Calls(journal)) + {Build, Preflight} <= Calls(journal)
    {
      hide Complaint, Quiet, RaisedBy, HasBackend, HasDir, WroteSuccess, Calls;
      failure := BuildBackend();
      if failure.Some? { return; }
      PlainCall(s, damaged, Entry(Preflight, script(tick, Preflight)));
      var preflight := Do(Preflight);
      failure := preflight.failure;
    }

    method BuildBackend() returns (failure: Option<Failure>)
      requires Going()
      modifies this`tick, this`clock, this`journal, this`backend
      ensures GoesOn(failure) && Calls(journal) == old(Calls(journal)) + {Build}
    {
      PlainCall(s, damaged, Entry(Build, script(tick, Build)));
      hide Complaint, Quiet, RaisedBy, HasBackend, HasDir, WroteSuccess, Calls;
      var built := AskOn(Build);
      failure := built.failure;
      if failure.None? { backend := true; }
    }

    method MakeStaging() returns (failure: Option<Failure>)
      requires Going() && Tidy()
      modifies this`tick, this`clock, this`journal, this`workDir, this`staging
      ensures GoesOn(failure) && Tidy()
      ensures failure.None? ==> old(Calls(journal)) + {MakeDir, Restrict} <= Calls(journal)
    {
      hide Complaint, Quiet, RaisedBy, HasBackend, HasDir, WroteSuccess, Calls;
      failure := MakeWorkDir();
      if failure.Some? { return; }
      PlainCall(s, damaged, Entry(Restrict, script(tick, Restrict)));
      var restricted := Do(Restrict);
      failure := restricted.failure;
    }

    method MakeWorkDir() returns (failure: Option<Failure>)
      requires Going()
      modifies this`tick, this`clock, this`journal, this`workDir, this`staging
      ensures if failure.None? then workDir && staging else workDir == old(workDir) && staging == old(staging)
      ensures GoesOn(failure) && Calls(journal) == old(Calls(journal)) + {MakeDir}
    {
      PlainCall(s, damaged, Entry(MakeDir, script(tick, MakeDir)));
      hide Complaint, Quiet, RaisedBy, HasBackend, HasDir, WroteSuccess, Calls, Restore.StateOf, Restore.Journalled;
      var made := AskOn(MakeDir);
      failure := made.failure;
      if failure.None? { workDir, staging := true, true; }
    }

    method Body() returns (failure: Option<Failure>)
      requires Going() && Tidy() && !backend && !workDir && !server && dataDir == s.there
      requires Listed(s) && state == found
      modifies this`tick, this`clock, this`journal, this`events, this`backend, this`workDir, this`staging, this`state,
               this`lastRunSuccess, this`server, this`dataDir
      ensures GoesOn(failure) && Tidy() && !server && old(events) <= events
      ensures failure.Some? && CodeOf(failure.value, E_INTEGRITY) != E_STATE ==> !state.Damaged?
      ensures dataDir != s.there ==> ProvenBackup(s) && MayClear(s.path, s.there)
      ensures failure.None? ==> ProvenBackup(s) && MayClear(s.path, s.there) && ProvenDatabase(s)
                                && state == Readable(Some(Succeeded)) && lastRunSuccess == Some(1) && !backend && !workDir
                                && RestoreSuccess in events
      ensures failure.None? ==> WHOLE <= Calls(journal)
    {
      hide Quiet, RaisedBy, HasBackend, HasDir, WroteSuccess, Calls, Proven, ProvenBackup, ProvenDatabase, MayClear;
      failure := Prepare();
      if failure.Some? { return; }
      failure := CheckBackup();
      if failure.Some? { return; }
      failure := CopyBack();
      if failure.Some? { return; }
      failure := Publish();
      if failure.Some? { return; }
      failure := RecordSuccess();
    }

    // ---- the failure path -----------------------------------------------------------------------------------------

    ghost function Here(): Point
      reads this
    {
      Point(tick, backend, workDir)
    }

    /** Close, and remove the work directory; what raises becomes a note, or escapes. */
    method GiveBack(f: Failure) returns (g: Failure, escaped: bool)
      requires Journalled()
      modifies this`tick, this`clock, this`journal, this`backend, this`workDir, this`staging
      ensures Journalled() && old(journal) <= journal && !backend
      ensures escaped == Escapes(script, old(Here())) && tick == StateCall(old(Here()))
      ensures g == if escaped then Uncoded else WithNotes(script, old(Here()), f)
      ensures staging ==> old(staging) && (old(workDir) ==> !script(RemovalCall(old(Here())), RemoveDir).Works())
    {
      NotesInTurn(script, Here(), f);
      hide Folded, CleanUpFailures, WithNotes;
      g, escaped := f, false;
      if backend {
        var closed := Ask(Close);
        if closed.failure.Some? { g := Combine(g, closed.failure.value, E_INTEGRITY); }
        backend := false;
      }
      if workDir {
        var removed := Ask(RemoveDir);
        if removed.Takes() { staging := false; }
        if removed.failure == Some(Uncoded) { return Uncoded, true; }
        if removed.failure.Some? { g := Combine(g, removed.failure.value, E_INTEGRITY); } else { workDir := false; }
      }
    }

    /** State file, event and metric of a failed run; only the metric is guarded. */
    method ShowFailure(code: Code) returns (second: Option<Failure>)
      requires Journalled() && !state.Damaged?
      modifies this`tick, this`clock, this`journal, this`events, this`state, this`lastRunSuccess
      ensures Journalled() && old(journal) <= journal && old(events) <= events
      ensures second == Replacement(script, old(tick))
      ensures state == if script(old(tick), ReadState).Works() && script(old(tick) + 1, WriteState).Works()
                       then Readable(Some(FailedWith(code))) else old(state)
      ensures second.None? ==> RestoreFailure(code) in events && (lastRunSuccess == Some(0) || MetricsWriteFailure in events)
    {
      hide Calls;
      var read := Ask(ReadState);
      if read.failure.Some? { return Some(Coded(E_STATE, 0)); }
      second := WriteStatus(FailedWith(code));
      if second.Some? { return; }
      Emit(RestoreFailure(code));
      assert events[|old(events)|] == RestoreFailure(code);
      read := Ask(ReadState);
      if read.failure.Some? { return Some(Coded(E_STATE, 0)); }
      var shown := ShowMetric(0);
      if shown.Some? { Emit(MetricsWriteFailure); }
    }

    /** What a failed run has said of itself. */
    ghost predicate Shown(p: Point, f: Failure, state0: StateFile)
      reads this`events, this`state, this`lastRunSuccess
    {
      var code, t := CodeOf(f, E_INTEGRITY), StateCall(p);
      if Escapes(script, p) then state == state0
      else if code == E_STATE then state == state0 && RestoreFailure(E_STATE) in events
      else
        state == (if script(t, ReadState).Works() && script(t + 1, WriteState).Works() then Readable(Some(FailedWith(code)))
                  else state0)
        && (Replacement(script, t).None?
            ==> RestoreFailure(code) in events && (lastRunSuccess == Some(0) || MetricsWriteFailure in events))
    }

    /** The `except` block. */
    method HandleFailure(f: Failure) returns (g: Failure)
      requires Journalled() && Tidy() && (CodeOf(f, E_INTEGRITY) != E_STATE ==> !state.Damaged?)
      modifies this`tick, this`clock, this`journal, this`events, this`backend, this`workDir, this`staging, this`state,
               this`lastRunSuccess
      ensures Journalled() && old(journal) <= journal && old(events) <= events && !backend
      ensures g == Final(script, old(Here()), f) && Shown(old(Here()), f, old(state))
      ensures staging ==> CleanupFailure in events
                          || (old(workDir) && !script(RemovalCall(old(Here())), RemoveDir).Works())
    {
      ghost var p := Here();
      CleanUpKeepsCode(f, CleanUpFailures(script, p), E_INTEGRITY);
      hide Folded, CleanUpFailures;
      var escaped;
      g, escaped := GiveBack(f);
      if escaped { return; }
      var code := CodeOf(g, E_INTEGRITY);
      if code == E_STATE {
        Emit(RestoreFailure(code));
        assert events[|old(events)|] == RestoreFailure(code);
        return;
      }
      var second := ShowFailure(code);
      if second.Some? { g := second.value; }
    }

    /** The lock is taken: the state file says so; a failure of it replaces E_LOCKED here too. */
    method RecordLocked() returns (g: Failure)
      requires Journalled() && state == found
      modifies this`tick, this`clock, this`journal, this`events, this`state
      ensures Journalled() && g == LockError(script, damaged, old(tick))
      ensures state == if SaysLocked(script, damaged, old(tick)) then Readable(Some(LockedOut)) else old(state)
      ensures events == if SaysLocked(script, damaged, old(tick)) then old(events) + [Locked] else old(events)
    {
      var read := Ask(ReadState);
      if read.failure.Some? || state.Damaged? { return Coded(E_STATE, 0); }
      var shown := WriteStatus(LockedOut);
      if shown.Some? { return shown.value; }
      Emit(Locked);
      g := Coded(E_LOCKED, 0);
    }

    /** The run failed at point `p` of its `try` block with `f`, and this is what became of it. */
    ghost predicate FailedAt(n: nat, f: Failure, g: Failure)
      reads this`journal, this`staging, this`events, this`state, this`lastRunSuccess
    {
      n <= |journal|
      && var j := journal[..n]; var p := Point(n, HasBackend(j), HasDir(j));
         RaisedBy(s, damaged, j, f) && g == Final(script, p, f)
         && Shown(p, f, StateOf(j)) && (staging ==> CleanupFailure in events || CleanUpFailures(script, p) != [])
    }

    /** `run_restore` from the lock on. An error is that of the first call there was anything to complain of, as `Final`
        hands it on; a work directory that stays on the disk is in an event or among the clean-up failures. */
    method RunRestore() returns (r: Result<()>)
      requires Fresh() && Listed(s)
      modifies this
      ensures Journalled() && !locked && !backend && !server
      ensures dataDir != s.there ==> ProvenBackup(s) && MayClear(s.path, s.there)
      ensures dataDir != s.there || r.Ok? ==> exists plain :: Sound(s, plain)
      ensures r.Ok? ==> ProvenBackup(s) && MayClear(s.path, s.there) && ProvenDatabase(s)
                        && state == Readable(Some(Succeeded)) && lastRunSuccess == Some(1) && !workDir
                        && (staging ==> CleanupFailure in events) && RestoreSuccess in events
      ensures !script(0, Acquire).Works()
              ==> r == Err(LockError(script, damaged, 1)) && dataDir == s.there && lastRunSuccess == old(lastRunSuccess)
                  && (if SaysLocked(script, damaged, 1) then state == Readable(Some(LockedOut)) && events == [Locked]
                      else state == old(state) && events == [])
      ensures r.Ok? ==> script(0, Acquire).Works() && Quiet(s, damaged, journal) && WHOLE <= Calls(journal)
      ensures script(0, Acquire).Works() && r.Err? ==> exists n: nat, f :: FailedAt(n, f, r.failure)
    {
      hide Quiet, RaisedBy, HasBackend, HasDir, WroteSuccess, Calls,
        Proven, ProvenBackup, ProvenDatabase, MayClear, FailedAt, Listed, Sound;
      ProvenIff(s);
      var taken := Acquired();
      if !taken {
        var g := RecordLocked();
        return Err(g);
      }
      locked := true;
      r := Attempt();
      ghost var n: nat, f := 0, Uncoded;
      if r.Err? { n, f :| FailedAt(n, f, r.failure); }
      locked := false;
      assert r.Err? ==> FailedAt(n, f, r.failure);
    }

    /** The `try` block and its `except` block. */
    method Attempt() returns (r: Result<()>)
      requires Going() && Tidy() && !backend && !workDir && !server && dataDir == s.there && Listed(s) && state == found
      requires locked
      modifies this
      ensures Journalled() && locked == old(locked) && !backend && !server
      ensures dataDir != s.there ==> ProvenBackup(s) && MayClear(s.path, s.there)
      ensures r.Ok? ==> ProvenBackup(s) && MayClear(s.path, s.there) && ProvenDatabase(s)
                        && state == Readable(Some(Succeeded)) && lastRunSuccess == Some(1) && !workDir
                        && RestoreSuccess in events && (staging ==> CleanupFailure in events)
                        && Quiet(s, damaged, journal) && WHOLE <= Calls(journal)
      ensures r.Err? ==> exists n: nat, f :: FailedAt(n, f, r.failure)
    {
      hide Quiet, RaisedBy, HasBackend, HasDir, WroteSuccess, Calls, Proven, ProvenBackup, ProvenDatabase, MayClear, FailedAt;
      var failure := Body();
      r := Ok(());
      if failure.Some? {
        var g := Fail(failure.value);
        r := Err(g);
      }
    }

    method Acquired() returns (taken: bool)
      requires Fresh()
      modifies this`tick, this`clock, this`journal
      ensures Journalled() && tick == 1 && taken == script(0, Acquire).Works()
      ensures taken ==> Going() && Tidy()
    {
      LockIsFirst(script(0, Acquire));
      var reply := Ask(Acquire);
      assert journal == [Entry(Acquire, reply)];
      taken := reply.failure.None?;
      hide Quiet, HasBackend, HasDir, WroteSuccess, Calls;
    }

    lemma LockIsFirst(r: Reply)
      ensures var j := [Entry(Acquire, r)];
        (r.Works() ==> Quiet(s, damaged, j)) && !HasBackend(j) && !HasDir(j) && !WroteSuccess(j)
    {
      OneMore(s, damaged, [], Entry(Acquire, r));
      assert [] + [Entry(Acquire, r)] == [Entry(Acquire, r)];
    }

    method Fail(f: Failure) returns (g: Failure)
      requires Raises(f) && Tidy() && (CodeOf(f, E_INTEGRITY) != E_STATE ==> !state.Damaged?)
      modifies this`tick, this`clock, this`journal, this`events, this`backend, this`workDir, this`staging, this`state,
               this`lastRunSuccess
      ensures Journalled() && !backend && exists n: nat :: FailedAt(n, f, g)
    {
      ghost var n := tick;
      ghost var j := journal;
      hide RaisedBy, HasBackend, HasDir, WroteSuccess, Calls, Final, Replacement, Escapes;
      g := HandleFailure(f);
      assert journal[..n] == j;
      assert FailedAt(n, f, g);
    }
  }

  /** The state file could be read and written, so it says that the lock was taken. */
  predicate SaysLocked(script: (nat, Op) -> Reply, damaged: bool, t: nat) {
    script(t, ReadState).Works() && !damaged && script(t + 1, WriteState).Works()
  }

  /** With what a run ends that found the lock taken, if call `t` is next. */
  function LockError(script: (nat, Op) -> Reply, damaged: bool, t: nat): Failure {
    if !script(t, ReadState).Works() || damaged then Coded(E_STATE, 0)
    else if !script(t + 1, WriteState).Works() then script(t + 1, WriteState).failure.value else Coded(E_LOCKED, 0)
  }
}
