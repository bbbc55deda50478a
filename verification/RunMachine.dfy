/** One backup run as a step machine, one step per call that leaves the process: lock, election, gates, desync, dump,
    publication, success record, best-effort tail, the failure path, the path of a node that was not elected, and that of a
    run that found the lock taken. The state of the machine includes the journal of the calls made and their answers. */
module RunMachine {
  import opened Errors
  import opened Strings
  import opened Election

  datatype Reading = Missing | NotANumber | Number(n: int)

  /** The wsrep status variables a run looks at. `size` is None when it is not a number. */
  datatype Vars = Vars(localState: string, comment: string, status: string, ready: string, connected: string,
                       size: Option<int>, paused: Reading)

  datatype Settings = Settings(node: Config, expected: int, threshold: int, s3: bool, coordinator: bool)

  datatype Op =
    | Acquire | ReadState | WriteState | WriteMetric | DiscardMetric | DiscardBridge | WriteBridge | AskDonor | AskWriter
    | Build | Preflight | QueryHealth | DiskUsage | MakeDir | Restrict | QueryLocal | DesyncOn | DesyncOff | Dump | Poll
    | Pack | QueryFlow | Publish | Close | RemoveDir | BuildRetention | PreflightRetention | Prune | CloseRetention
    | ReadMarker

  /** The answer to one call. `took` says whether a call that raised had its effect all the same. */
  datatype Reply = Reply(failure: Option<Failure>, took: bool, rows: Option<seq<string>>, vars: Vars, number: int,
                         elapsed: nat) {
    predicate Works() { failure.None? }
    predicate Takes() { failure.None? || took }
  }

  datatype Entry = Entry(op: Op, reply: Reply)

  datatype RunStatus = Success | FailedWith(code: Code) | LockedOut

  /** What the state file says. */
  datatype Record = Record(lastRun: Option<RunStatus>, lastSuccess: int, lastFailure: int)

  datatype StateFile = Absent | Damaged | Present(record: Record)

  datatype Metrics = Metrics(lastSuccess: int, lastFailure: int, runSuccess: int, size: int)

  datatype Event =
    | Skipped | DiscardFailure | RetentionSuccess | RetentionFailure | Locked | StateFailure(code: Code)
    | StateWriteFailure | MetricsWriteFailure | StateSuccess | BridgeSkipped | BridgeFailure | CleanupFailure

  datatype Done = NotElected | Finished

  const MIN_FREE := 500 * 1024 * 1024
  const SYNC_LIMIT := 900

  function Updated(r: Record, status: RunStatus, now: int): Record {
    if status.Success? then r.(lastRun := Some(status), lastSuccess := now)
    else r.(lastRun := Some(status), lastFailure := now)
  }

  function RecordOf(s: StateFile): Record { if s.Present? then s.record else Record(None, 0, 0) }

  // ---- where a run can stand --------------------------------------------------------------------------------------

  /** The gates before anything is done to the cluster, in order. */
  datatype Gate =
    | Beginning | Electing | Guarding | Building | Preflighting | CheckingHealth | CheckingSpace | MakingDir | Restricting
    | ReadingLocal

  datatype Dumping = SwitchingOn | Dumping | SwitchingOff(dump: Option<Failure>) | Polling(dump: Option<Failure>, deadline: int)

  datatype Closing = Packing | CheckingFlow | Publishing | ReadingState | WritingSuccess | ReadingBack | ReadingAgain
    | ShowingSuccess

  datatype Retaining = BuildingRetention | PreflightingRetention | Pruning | ClosingRetention

  datatype Tail = ReadingMarker | WritingBridge(unixtime: int) | FinalClose | FinalRemove

  datatype Handling = HandlingClose | HandlingRemove | ReadingForFailure | WritingFailure | ReadingLast
    | ShowingFailure(last: int)

  datatype Refusing = ReadingForLock | WritingLock | ReadingLastOfLock | ShowingLock(last: int)

  datatype Phase =
    | Locking
    | AtGate(gate: Gate)
    | AtDump(dumping: Dumping)
    | AtPublication(closing: Closing)
    | AtTail(tail: Tail)
    | AtRetention(retaining: Retaining, success: bool)
    | DiscardingMetric
    | DiscardingBridge
    | AtHandler(handling: Handling)
    | AtRefusal(refusing: Refusing)
    | Ended(result: Result<Done>)

  /** What the run leaves on the node. */
  datatype Files = Files(state: StateFile, metric: Option<Metrics>, bridge: Option<int>)

  /** What the run holds and has to give back. */
  datatype Held = Held(backend: bool, workDir: bool)

  /** What the run remembers: whether it switched the node, the health it saw, the size of the archive. */
  datatype Seen = Seen(switched: bool, health: Vars, size: int)

  /** `primary` is what left the `try` part, after `left` calls; `failure` is the error being raised, with its notes. */
  datatype Raising = Raising(primary: Option<Failure>, failure: Failure, left: nat)

  datatype Machine = Machine(phase: Phase, journal: seq<Entry>, clock: int, events: seq<Event>, files: Files, held: Held,
                             seen: Seen, raising: Raising)

  function Start(clock: int, files: Files): Machine {
    Machine(Locking, [], clock, [], files, Held(false, false), Seen(false, Vars("", "", "", "", "", None, Missing), 0),
            Raising(None, Uncoded, 0))
  }

  function OpOfGate(g: Gate): Op {
    match g
    case Beginning => ReadState case Electing => AskDonor case Guarding => AskWriter case Building => Build
    case Preflighting => Preflight case CheckingHealth => QueryHealth case CheckingSpace => DiskUsage
    case MakingDir => MakeDir case Restricting => Restrict case ReadingLocal => QueryLocal
  }

  function OpOfDump(d: Dumping): Op {
    match d
    case SwitchingOn => DesyncOn case Dumping => Dump case SwitchingOff(_) => DesyncOff case Polling(_, _) => Poll
  }

  function OpOfClosing(c: Closing): Op {
    match c
    case Packing => Pack case CheckingFlow => QueryFlow case Publishing => Publish case ReadingState => ReadState
    case WritingSuccess => WriteState case ReadingBack => ReadState case ReadingAgain => ReadState
    case ShowingSuccess => WriteMetric
  }

  function OpOfRetention(r: Retaining): Op {
    match r
    case BuildingRetention => BuildRetention case PreflightingRetention => PreflightRetention case Pruning => Prune
    case ClosingRetention => CloseRetention
  }

  function OpOfTail(t: Tail): Op {
    match t
    case ReadingMarker => ReadMarker case WritingBridge(_) => WriteBridge case FinalClose => Close case FinalRemove => RemoveDir
  }

  function OpOfHandling(h: Handling): Op {
    match h
    case HandlingClose => Close case HandlingRemove => RemoveDir case ReadingForFailure => ReadState
    case WritingFailure => WriteState case ReadingLast => ReadState case ShowingFailure(_) => WriteMetric
  }

  function OpOfRefusing(r: Refusing): Op {
    match r
    case ReadingForLock => ReadState case WritingLock => WriteState case ReadingLastOfLock => ReadState
    case ShowingLock(_) => WriteMetric
  }

  /** The call that a run at this point makes next. */
  function Wants(p: Phase): Op
    requires !p.Ended?
  {
    match p
    case Locking => Acquire
    case AtGate(g) => OpOfGate(g)
    case AtDump(d) => OpOfDump(d)
    case AtPublication(c) => OpOfClosing(c)
    case AtTail(t) => OpOfTail(t)
    case AtRetention(r, _) => OpOfRetention(r)
    case DiscardingMetric => DiscardMetric
    case DiscardingBridge => DiscardBridge
    case AtHandler(h) => OpOfHandling(h)
    case AtRefusal(r) => OpOfRefusing(r)
  }

  // ---- the checks -------------------------------------------------------------------------------------------------

  predicate Healthy(v: Vars, c: Settings) {
    v.comment == "Synced" && v.status == "Primary" && v.ready == "ON" && v.connected == "ON" && v.size == Some(c.expected)
  }

  /** What a gate has against going on: the call raised, or its answer is not good enough. */
  function Objection(c: Settings, g: Gate, s: StateFile, r: Reply): Option<Failure> {
    if r.failure.Some? then Some(if g.Beginning? then Coded(E_STATE, 0) else r.failure.value)
    else match g
      case Beginning =>
        if s.Damaged? then Some(Coded(E_STATE, 0))
        else if !c.node.electionSet then Some(Coded(E_CONFIG, 0))
        else if !c.node.credentials then Some(Coded(E_SECRETS, 0)) else None
      case Electing =>
        (match Elect(c.node, r.rows)
         case Err(f) => Some(f)
         case Ok(donor) =>
           if Strip(c.node.address) == [] || (donor == Strip(c.node.address) && !c.node.guardSet) then Some(Coded(E_CONFIG, 0))
           else None)
      case Guarding => Guard(c.node, r.rows)
      case CheckingHealth =>
        if r.vars.size.None? then Some(Uncoded)
        else if !Healthy(r.vars, c) then Some(Coded(E_GALERA, 0))
        else (match r.vars.paused
              case Missing => Some(Coded(E_GALERA, 0)) case NotANumber => Some(Uncoded) case Number(_) => None)
      case CheckingSpace => if r.number < MIN_FREE then Some(Coded(E_STORAGE, 0)) else None
      case _ => None
  }

  /** The flow-control gate. */
  function FlowObjection(c: Settings, health: Vars, r: Reply): Option<Failure> {
    if r.failure.Some? then r.failure
    else match r.vars.paused
      case Missing => Some(Coded(E_GALERA, 0))
      case NotANumber => Some(Uncoded)
      case Number(n) =>
        if health.paused.Number? && n - health.paused.n > c.threshold then Some(Coded(E_FLOW_CONTROL, 0)) else None
  }

  function NextGate(g: Gate): Gate {
    match g
    case Beginning => Electing case Electing => Guarding case Guarding => Building case Building => Preflighting
    case Preflighting => CheckingHealth case CheckingHealth => CheckingSpace case CheckingSpace => MakingDir
    case MakingDir => Restricting case Restricting => ReadingLocal case ReadingLocal => ReadingLocal
  }

  // ---- one step ---------------------------------------------------------------------------------------------------

  function End(m: Machine, r: Result<Done>): (n: Machine)
    ensures n.phase == Ended(r) && n.journal == m.journal && n.files == m.files && n.events == m.events
    ensures n.raising == m.raising && n.seen == m.seen && n.held == m.held && n.clock == m.clock
  {
    m.(phase := Ended(r))
  }

  /** The state file is written from what it holds. */
  function Recorded(m: Machine, status: RunStatus, r: Reply): (n: Machine)
    ensures n.phase == m.phase && n.journal == m.journal && n.events == m.events && n.held == m.held && n.seen == m.seen
    ensures n.raising == m.raising && n.clock == m.clock && n.files == m.files.(state := n.files.state)
    ensures n.files.state == if r.Works() then Present(Updated(RecordOf(m.files.state), status, m.clock)) else m.files.state
  {
    if r.Works() then m.(files := m.files.(state := Present(Updated(RecordOf(m.files.state), status, m.clock)))) else m
  }

  function Shown(m: Machine, x: Metrics, r: Reply): (n: Machine)
    ensures n.phase == m.phase && n.journal == m.journal && n.events == m.events && n.held == m.held && n.seen == m.seen
    ensures n.raising == m.raising && n.clock == m.clock && n.files == m.files.(metric := n.files.metric)
    ensures n.files.metric == if r.Takes() then Some(x) else m.files.metric
  {
    if r.Takes() then m.(files := m.files.(metric := Some(x))) else m
  }

  function Tell(m: Machine, e: Event): (n: Machine)
    ensures n.phase == m.phase && n.journal == m.journal && n.files == m.files && n.held == m.held && n.seen == m.seen
    ensures n.raising == m.raising && n.clock == m.clock && n.events == m.events + [e]
  {
    m.(events := m.events + [e])
  }

  /** Into the failure path, at the first thing that has to be given back. */
  function Fail(m: Machine, f: Failure): (n: Machine)
    ensures n.phase.AtHandler? && n.journal == m.journal && n.files == m.files && n.held == m.held && n.seen == m.seen
    ensures n.clock == m.clock && n.raising == Raising(Some(f), f, |m.journal|)
    ensures n.phase.handling == if m.held.backend then HandlingClose
                                else if m.held.workDir then HandlingRemove else ReadingForFailure
    ensures n.events == m.events
  {
    var n := m.(raising := Raising(Some(f), f, |m.journal|));
    if n.held.backend then n.(phase := AtHandler(HandlingClose)) else AfterClose(n)
  }

  function AfterClose(m: Machine): (n: Machine)
    ensures n.phase.AtHandler? && n.journal == m.journal && n.files == m.files && n.held == m.held && n.seen == m.seen
    ensures n.clock == m.clock && n.raising == m.raising
    ensures n.phase.handling == if m.held.workDir then HandlingRemove else ReadingForFailure
    ensures n.events == m.events
  {
    m.(phase := AtHandler(if m.held.workDir then HandlingRemove else ReadingForFailure))
  }

  function Noted(m: Machine, f: Failure): (n: Machine)
    ensures n.phase == m.phase && n.journal == m.journal && n.files == m.files && n.held == m.held && n.seen == m.seen
    ensures n.events == m.events && n.clock == m.clock && n.raising == m.raising.(failure := n.raising.failure)
    ensures n.raising.failure == Combine(m.raising.failure, f, E_STORAGE)
  {
    m.(raising := m.raising.(failure := Combine(m.raising.failure, f, E_STORAGE)))
  }

  function GateStep(c: Settings, m: Machine, r: Reply): Machine
    requires m.phase.AtGate?
  {
    var g := m.phase.gate;
    var o := Objection(c, g, m.files.state, r);
    if o.Some? then Fail(m, o.value)
    else match g
      case Electing =>
        if Elect(c.node, r.rows) == Ok(Strip(c.node.address)) then m.(phase := AtGate(Guarding))
        else Tell(m.(phase := DiscardingMetric), Skipped)
      case Building => m.(phase := AtGate(Preflighting), held := m.held.(backend := true))
      case CheckingHealth => m.(phase := AtGate(CheckingSpace), seen := m.seen.(health := r.vars))
      case MakingDir => m.(phase := AtGate(Restricting), held := m.held.(workDir := true))
      case ReadingLocal =>
        var switched := r.vars.localState == "4";
        m.(phase := AtDump(if switched then SwitchingOn else Dumping), seen := m.seen.(switched := switched))
      case _ => m.(phase := AtGate(NextGate(g)))
  }

  function AfterDump(m: Machine, dump: Option<Failure>): Machine {
    if dump.Some? then Fail(m, dump.value) else m.(phase := AtPublication(Packing))
  }

  /** The dump between the switches; what raises in the `finally` part replaces what the dump raised. */
  function DumpStep(m: Machine, r: Reply): Machine
    requires m.phase.AtDump?
  {
    match m.phase.dumping
    case SwitchingOn => if r.failure.Some? then Fail(m, r.failure.value) else m.(phase := AtDump(Dumping))
    case Dumping => if m.seen.switched then m.(phase := AtDump(SwitchingOff(r.failure))) else AfterDump(m, r.failure)
    case SwitchingOff(dump) =>
      if r.failure.Some? then Fail(m, r.failure.value) else m.(phase := AtDump(Polling(dump, m.clock + SYNC_LIMIT)))
    case Polling(dump, deadline) =>
      if r.failure.Some? then Fail(m, r.failure.value)
      else if r.vars.comment == "Synced" then AfterDump(m, dump)
      else if m.clock >= deadline then Fail(m, Coded(E_GALERA, 0))
      else m.(clock := m.clock + 5)
  }

  function PublicationStep(c: Settings, m: Machine, r: Reply): Machine
    requires m.phase.AtPublication?
  {
    match m.phase.closing
    case Packing =>
      if r.failure.Some? then Fail(m, r.failure.value)
      else m.(phase := AtPublication(CheckingFlow), seen := m.seen.(size := r.number))
    case CheckingFlow =>
      var o := FlowObjection(c, m.seen.health, r);
      if o.Some? then Fail(m, o.value) else m.(phase := AtPublication(Publishing))
    case Publishing => if r.failure.Some? then Fail(m, r.failure.value) else m.(phase := AtPublication(ReadingState))
    case ReadingState =>
      if r.failure.Some? || m.files.state.Damaged? then Fail(m, Coded(E_STATE, 0))
      else m.(phase := AtPublication(WritingSuccess))
    case WritingSuccess =>
      if r.failure.Some? then Fail(m, r.failure.value)
      else Tell(Recorded(m, Success, r).(phase := AtPublication(ReadingBack)), StateSuccess)
    case ReadingBack =>
      if r.failure.Some? || m.files.state.Damaged? then Fail(m, Coded(E_STATE, 0))
      else m.(phase := AtPublication(if RecordOf(m.files.state).lastFailure != 0 then ReadingAgain else ShowingSuccess))
    case ReadingAgain =>
      if r.failure.Some? || m.files.state.Damaged? then Fail(m, Coded(E_STATE, 0))
      else m.(phase := AtPublication(ShowingSuccess))
    case ShowingSuccess =>
      var n := Shown(m, Metrics(m.clock, RecordOf(m.files.state).lastFailure, 1, m.seen.size), r);
      if r.failure.Some? then Fail(n, r.failure.value) else EnterRetention(c, n, true)
  }

  /** Where retention begins: with a coordinator's own credential on S3, with the open backend elsewhere; else not at all. */
  function RetentionEntry(c: Settings, success: bool): Phase {
    if c.s3 && c.coordinator then AtRetention(BuildingRetention, success)
    else if !c.s3 && success then AtRetention(Pruning, success)
    else AfterRetentionAt(success)
  }

  function AfterRetentionAt(success: bool): Phase { if success then AtTail(ReadingMarker) else Ended(Ok(NotElected)) }

  function EnterRetention(c: Settings, m: Machine, success: bool): Machine { m.(phase := RetentionEntry(c, success)) }

  function AfterRetention(m: Machine, success: bool): Machine { m.(phase := AfterRetentionAt(success)) }

  function RetentionStep(c: Settings, m: Machine, r: Reply): Machine
    requires m.phase.AtRetention?
  {
    var success := m.phase.success;
    match m.phase.retaining
    case BuildingRetention =>
      if r.failure.Some? then AfterRetention(Tell(m, RetentionFailure), success)
      else m.(phase := AtRetention(PreflightingRetention, success))
    case PreflightingRetention =>
      if r.failure.Some? then AfterRetention(Tell(m, RetentionFailure), success) else m.(phase := AtRetention(Pruning, success))
    case Pruning =>
      var n := Tell(m, if r.failure.Some? then RetentionFailure else RetentionSuccess);
      if c.s3 then n.(phase := AtRetention(ClosingRetention, success)) else AfterRetention(n, success)
    case ClosingRetention => AfterRetention(m, success)
  }

  function TailStep(m: Machine, r: Reply): Machine
    requires m.phase.AtTail?
  {
    match m.phase.tail
    case ReadingMarker =>
      if r.failure.Some? then Tell(m.(phase := AtTail(FinalClose)), BridgeFailure)
      else if r.number > 0 then m.(phase := AtTail(WritingBridge(r.number)))
      else Tell(m.(phase := AtTail(FinalClose)), BridgeSkipped)
    case WritingBridge(unixtime) =>
      var n := (if r.Takes() then m.(files := m.files.(bridge := Some(unixtime))) else m).(phase := AtTail(FinalClose));
      if r.failure.Some? then Tell(n, BridgeFailure) else n
    case FinalClose =>
      var n := m.(phase := AtTail(FinalRemove), held := m.held.(backend := false));
      if r.failure.Some? then Tell(n, CleanupFailure) else n
    case FinalRemove =>
      var n := End(m.(held := m.held.(workDir := false)), Ok(Finished));
      if r.failure.Some? then Tell(n, CleanupFailure) else n
  }

  /** A node that was not elected takes its two metric files with it. */
  function SkipStep(c: Settings, m: Machine, r: Reply): Machine
    requires m.phase.DiscardingMetric? || m.phase.DiscardingBridge?
  {
    var n := if r.failure.Some? then Tell(m, DiscardFailure) else m;
    if m.phase.DiscardingMetric?
    then (if r.Takes() then n.(files := n.files.(metric := None)) else n).(phase := DiscardingBridge)
    else EnterRetention(c, if r.Takes() then n.(files := n.files.(bridge := None)) else n, false)
  }

  /** The `except` block. A work directory whose removal raises something else than a BackupError is not caught there: the
      error escapes and nothing is recorded. */
  function HandlerStep(m: Machine, r: Reply): Machine
    requires m.phase.AtHandler?
  {
    match m.phase.handling
    case HandlingClose =>
      AfterClose((if r.failure.Some? then Noted(m, r.failure.value) else m).(held := m.held.(backend := false)))
    case HandlingRemove =>
      if r.failure == Some(Uncoded) then End(m, Err(Uncoded))
      else (if r.failure.Some? then Noted(m, r.failure.value) else m.(held := m.held.(workDir := false)))
             .(phase := AtHandler(ReadingForFailure))
    case ReadingForFailure =>
      var n := Tell(m, StateFailure(CodeOf(m.raising.failure, E_STORAGE)));
      if r.failure.Some? || m.files.state.Damaged? then Tell(n.(phase := AtHandler(ReadingLast)), StateWriteFailure)
      else n.(phase := AtHandler(WritingFailure))
    case WritingFailure =>
      var n := Recorded(m, FailedWith(CodeOf(m.raising.failure, E_STORAGE)), r).(phase := AtHandler(ReadingLast));
      if r.failure.Some? then Tell(n, StateWriteFailure) else n
    case ReadingLast => m.(phase := AtHandler(ShowingFailure(LastSuccess(m.files.state, r))))
    case ShowingFailure(last) =>
      var n := End(Shown(m, Metrics(last, m.clock, 0, 0), r), Err(m.raising.failure));
      if r.failure.Some? then Tell(n, MetricsWriteFailure) else n
  }

  /** `last_success_unixtime`: zero when the state cannot be read. */
  function LastSuccess(s: StateFile, r: Reply): int {
    if r.failure.Some? || s.Damaged? then 0 else RecordOf(s).lastSuccess
  }

  /** The lock is taken: state and metric say so; here the metric write has no guard. */
  function RefusalStep(m: Machine, r: Reply): Machine
    requires m.phase.AtRefusal?
  {
    match m.phase.refusing
    case ReadingForLock =>
      if r.failure.Some? || m.files.state.Damaged? then Tell(m.(phase := AtRefusal(ReadingLastOfLock)), StateWriteFailure)
      else m.(phase := AtRefusal(WritingLock))
    case WritingLock =>
      var n := Recorded(m, LockedOut, r).(phase := AtRefusal(ReadingLastOfLock));
      if r.failure.Some? then Tell(n, StateWriteFailure) else n
    case ReadingLastOfLock => m.(phase := AtRefusal(ShowingLock(LastSuccess(m.files.state, r))))
    case ShowingLock(last) =>
      End(Shown(m, Metrics(last, m.clock, 0, 0), r), Err(if r.failure.Some? then r.failure.value else Coded(E_LOCKED, 0)))
  }

  function Logged(m: Machine, r: Reply): Machine
    requires !m.phase.Ended?
  {
    m.(journal := m.journal + [Entry(Wants(m.phase), r)], clock := m.clock + r.elapsed)
  }

  /** One call, answered. */
  function Step(c: Settings, m0: Machine, r: Reply): Machine {
    if m0.phase.Ended? then m0
    else
      var m := Logged(m0, r);
      match m.phase
      case Locking =>
        if r.failure.Some? then Tell(m.(phase := AtRefusal(ReadingForLock)), Locked)
        else m.(phase := AtGate(Beginning))
      case AtGate(_) => GateStep(c, m, r)
      case AtDump(_) => DumpStep(m, r)
      case AtPublication(_) => PublicationStep(c, m, r)
      case AtTail(_) => TailStep(m, r)
      case AtRetention(_, _) => RetentionStep(c, m, r)
      case DiscardingMetric => SkipStep(c, m, r)
      case DiscardingBridge => SkipStep(c, m, r)
      case AtHandler(_) => HandlerStep(m, r)
      case AtRefusal(_) => RefusalStep(m, r)
  }

  /** The machine after `n` calls; call number `t` of the run is answered by `script(t, op)`. */
  function Run(c: Settings, m: Machine, script: (nat, Op) -> Reply, n: nat): Machine {
    if n == 0 then m
    else
      var p := Run(c, m, script, n - 1);
      if p.phase.Ended? then p else Step(c, p, script(n - 1, Wants(p.phase)))
  }

  lemma RunMore(c: Settings, m: Machine, script: (nat, Op) -> Reply, n: nat)
    requires n > 0
    ensures var p := Run(c, m, script, n - 1);
      Run(c, m, script, n) == if p.phase.Ended? then p else Step(c, p, script(n - 1, Wants(p.phase)))
  {
    hide Step, Wants;
  }
}
