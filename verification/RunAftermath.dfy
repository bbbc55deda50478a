/** What stays true once a backup run has recorded its success, what it gives back, and what it does to the metric files. */
module RunAftermath {
  import opened Errors
  import opened Strings
  import opened Election
  import opened RunMachine
  import opened RunOrder

  // ---- success is final -------------------------------------------------------------------------------------------

  /** State file and metric have been written: retention, drill bridge and clean-up are left. */
  predicate Succeeded(p: Phase) { (p.AtRetention? && p.success) || p.AtTail? || p == Ended(Ok(Finished)) }

  /** The record of this success, by `now`: the last failure is what it was. */
  predicate WroteSuccess(s0: StateFile, s: StateFile, now: int) {
    s.Present? && s.record.lastRun == Some(Success) && s.record.lastSuccess <= now
    && s.record.lastFailure == (if s0.Present? then s0.record.lastFailure else 0)
  }

  /** The metric shows it: not before it was recorded, with the size of the archive and the last failure. */
  predicate SuccessShown(s0: StateFile, m: Machine) {
    m.files.metric.Some?
    && var shown := m.files.metric.value;
       WroteSuccess(s0, m.files.state, shown.lastSuccess) && shown.lastSuccess <= m.clock
       && shown.lastFailure == m.files.state.record.lastFailure && shown.runSuccess == 1 && shown.size == m.seen.size
  }

  predicate Records(s0: StateFile, m: Machine) {
    match m.phase
    case Locking => m.files.state == s0
    case AtGate(_) => m.files.state == s0
    case AtDump(_) => m.files.state == s0
    case AtPublication(p) =>
      if p.ReadingBack? || p.ReadingAgain? || p.ShowingSuccess? then WroteSuccess(s0, m.files.state, m.clock)
      else m.files.state == s0
    case _ => Succeeded(m.phase) ==> SuccessShown(s0, m)
  }

  lemma TailKeeps(c: Settings, m: Machine, r: Reply)
    requires Succeeded(m.phase)
    ensures var n := Step(c, m, r);
      Succeeded(n.phase) && n.files.state == m.files.state && n.files.metric == m.files.metric && n.seen == m.seen
      && n.clock >= m.clock
  {
    hide Tell, End;
  }

  lemma NotYet(c: Settings, m: Machine, r: Reply)
    requires !Succeeded(m.phase) && !m.phase.AtPublication?
    ensures !Succeeded(Step(c, m, r).phase)
    ensures m.phase.Locking? || m.phase.AtGate? || m.phase.AtDump? ==>
      var p := Step(c, m, r).phase;
      (p.AtGate? || p.AtDump? || p.AtPublication? ==> Step(c, m, r).files.state == m.files.state)
      && (p.AtPublication? ==> p.closing.Packing?)
  {
    hide Fail, Tell, Recorded, Shown, End, AfterClose, Noted, Objection, Elect,
      Strip, LastSuccess, PublicationStep, TailStep;
  }

  lemma RecordsAtPublication(c: Settings, s0: StateFile, m: Machine, r: Reply)
    requires m.phase.AtPublication? && Records(s0, m)
    ensures Records(s0, Step(c, m, r))
  {
    assert Step(c, m, r) == PublicationStep(c, Logged(m, r), r);
    var p, n := m.phase.closing, PublicationStep(c, Logged(m, r), r);
    hide Fail, Tell, FlowObjection, Step;
    if p.WritingSuccess? || p.ShowingSuccess? {
      hide Recorded, Shown;
    } else {
      hide Recorded, Shown, SuccessShown;
    }
  }

  lemma RecordsStep(c: Settings, s0: StateFile, m: Machine, r: Reply)
    requires Records(s0, m)
    ensures Records(s0, Step(c, m, r))
  {
    if m.phase.AtPublication? {
      RecordsAtPublication(c, s0, m, r);
    } else if Succeeded(m.phase) {
      TailKeeps(c, m, r);
      hide Step;
    } else {
      NotYet(c, m, r);
      OthersLeave(c, m, r);
      hide Step;
    }
  }

  lemma {:induction false} RunRecords(c: Settings, clock: int, files: Files, script: (nat, Op) -> Reply, n: nat)
    ensures Records(files.state, Run(c, Start(clock, files), script, n))
  {
    hide Step;
    if n > 0 {
      RunRecords(c, clock, files, script, n - 1);
      var p := Run(c, Start(clock, files), script, n - 1);
      hide Records, Start;
      if !p.phase.Ended? { RecordsStep(c, files.state, p, script(n - 1, Wants(p.phase))); }
    }
  }

  /** From the moment at which success is recorded nothing that fails changes state file, metric or result. */
  lemma {:induction false} SuccessIsFinal(c: Settings, clock: int, files: Files, script: (nat, Op) -> Reply, k: nat, n: nat)
    requires k <= n && Succeeded(Run(c, Start(clock, files), script, k).phase)
    ensures var m, p := Run(c, Start(clock, files), script, n), Run(c, Start(clock, files), script, k);
      Succeeded(m.phase) && SuccessShown(files.state, m)
      && m.files.state == p.files.state && m.files.metric == p.files.metric
      && (m.phase.Ended? ==> m.phase.result == Ok(Finished))
  {
    hide Step, Start;
    RunRecords(c, clock, files, script, n);
    if k < n {
      SuccessIsFinal(c, clock, files, script, k, n - 1);
      var p := Run(c, Start(clock, files), script, n - 1);
      if !p.phase.Ended? { TailKeeps(c, p, script(n - 1, Wants(p.phase))); }
      hide Records, SuccessShown, Succeeded;
    }
  }

  // ---- a finished run has published -------------------------------------------------------------------------------

  /** The call that published has worked, after every gate. */
  ghost predicate Published(c: Settings, s0: StateFile, j: seq<Entry>) {
    exists i | 0 <= i < |j| :: j[i].op.Publish? && j[i].reply.failure.None? && Qualified(c, s0, j[..i])
  }

  predicate PastPublication(p: Phase) {
    Succeeded(p) || (p.AtPublication? && !p.closing.Packing? && !p.closing.CheckingFlow? && !p.closing.Publishing?)
  }

  lemma ReachesPublication(c: Settings, m: Machine, r: Reply)
    requires !PastPublication(m.phase) && PastPublication(Step(c, m, r).phase)
    ensures m.phase == AtPublication(Publishing) && r.Works()
  {
    if m.phase.AtPublication? {
      assert Step(c, m, r) == PublicationStep(c, Logged(m, r), r);
      hide Fail, Tell, Recorded, Shown, FlowObjection, Step;
    } else {
      NotYet(c, m, r);
      OthersLeave(c, m, r);
      hide Step;
    }
  }

  lemma PublishedStep(c: Settings, s0: StateFile, m: Machine, r: Reply)
    requires PastPublication(m.phase) ==> Published(c, s0, m.journal)
    requires m.phase == AtPublication(Publishing) ==> Qualified(c, s0, m.journal)
    requires !m.phase.Ended?
    ensures PastPublication(Step(c, m, r).phase) ==> Published(c, s0, Step(c, m, r).journal)
  {
    hide Qualified;
    StepLogs(c, m, r);
    OnlyThereItPublishes(m.phase);
    var n := Step(c, m, r);
    if PastPublication(n.phase) && !PastPublication(m.phase) { ReachesPublication(c, m, r); }
    var e := Entry(Wants(m.phase), r);
    hide Step, Wants, PastPublication;
    if PastPublication(m.phase) {
      PublishedStill(c, s0, m.journal, e);
    } else if PastPublication(n.phase) {
      PublishedNow(c, s0, m.journal, e);
    }
  }

  lemma PublishedStill(c: Settings, s0: StateFile, j: seq<Entry>, e: Entry)
    requires Published(c, s0, j)
    ensures Published(c, s0, j + [e])
  {
    hide Qualified;
    var i :| 0 <= i < |j| && j[i].op.Publish? && j[i].reply.failure.None? && Qualified(c, s0, j[..i]);
    assert (j + [e])[i] == j[i] && (j + [e])[..i] == j[..i];
  }

  lemma PublishedNow(c: Settings, s0: StateFile, j: seq<Entry>, e: Entry)
    requires Qualified(c, s0, j) && e.op.Publish? && e.reply.Works()
    ensures Published(c, s0, j + [e])
  {
    hide Qualified;
    assert (j + [e])[..|j|] == j && (j + [e])[|j|] == e;
  }

  lemma AtPublishing(c: Settings, s0: StateFile, m: Machine)
    requires InOrder(c, s0, m) && m.phase == AtPublication(Publishing)
    ensures Qualified(c, s0, m.journal)
  {
    ClearedIff(c, s0, m.journal);
    hide Cleared, Qualified;
  }

  /** A run that finishes, and one that is past its publication, has published by a call that worked, after every gate. */
  lemma {:induction false} FinishedHasPublished(c: Settings, clock: int, files: Files, script: (nat, Op) -> Reply, n: nat)
    ensures var m := Run(c, Start(clock, files), script, n);
      PastPublication(m.phase) ==> Published(c, files.state, m.journal)
  {
    hide Step, Published;
    if n > 0 {
      FinishedHasPublished(c, clock, files, script, n - 1);
      RunInOrder(c, clock, files, script, n - 1);
      var p := Run(c, Start(clock, files), script, n - 1);
      RunMore(c, Start(clock, files), script, n);
      hide *;
      if !p.phase.Ended? {
        if p.phase == AtPublication(Publishing) { AtPublishing(c, files.state, p); }
        PublishedStep(c, files.state, p, script(n - 1, Wants(p.phase)));
      }
    }
  }

  // ---- the times in the state file --------------------------------------------------------------------------------

  ghost predicate HasPublished(j: seq<Entry>) { exists i | 0 <= i < |j| :: j[i].op.Publish? && j[i].reply.failure.None? }

  /** The state file is the one that was found, or says since when it says what it says: the time of the last success has
      changed only in a run that has published, the time of the last failure only in one that failed or was locked out, and
      the time of what is recorded lies within the run. */
  ghost predicate Times(s0: StateFile, since: int, m: Machine) {
    since <= m.clock
    && (m.files.state == s0
        || (m.files.state.Present?
            && var r := m.files.state.record; var was := if s0.Present? then s0.record else Record(None, 0, 0);
               (r.lastSuccess == was.lastSuccess || (since <= r.lastSuccess <= m.clock && HasPublished(m.journal)))
               && match r.lastRun
                  case None => false
                  case Some(Success) => r.lastFailure == was.lastFailure && since <= r.lastSuccess <= m.clock
                  case Some(_) => since <= r.lastFailure <= m.clock))
  }

  predicate StillSucceeding(p: Phase) { !p.AtHandler? && !p.AtRefusal? && !p.Ended? }

  ghost predicate Timed(s0: StateFile, since: int, m: Machine) {
    Times(s0, since, m)
    && (StillSucceeding(m.phase) && m.files.state != s0 ==> m.files.state.record.lastRun == Some(Success))
  }

  /** What one call writes into the state file. */
  ghost predicate Writes(m: Machine, r: Reply, n: Machine) {
    var p, now, was := m.phase, m.clock + r.elapsed, RecordOf(m.files.state);
    n.clock >= now && (StillSucceeding(n.phase) ==> StillSucceeding(p))
    && if p == AtPublication(WritingSuccess) && r.Works()
       then n.files.state == Present(Record(Some(Success), now, was.lastFailure))
       else if p == AtHandler(WritingFailure) && r.Works()
       then n.files.state == Present(Record(Some(FailedWith(CodeOf(m.raising.failure, E_STORAGE))), was.lastSuccess, now))
       else if p == AtRefusal(WritingLock) && r.Works()
       then n.files.state == Present(Record(Some(LockedOut), was.lastSuccess, now))
       else n.files.state == m.files.state
  }

  lemma WritesAtPublication(c: Settings, m: Machine, r: Reply)
    requires m.phase.AtPublication?
    ensures Writes(m, r, Step(c, m, r))
  {
    assert Step(c, m, r) == PublicationStep(c, Logged(m, r), r);
    hide Step, Fail, Tell, Shown, FlowObjection;
  }

  lemma WritesAtHandler(c: Settings, m: Machine, r: Reply)
    requires m.phase.AtHandler? || m.phase.AtRefusal?
    ensures Writes(m, r, Step(c, m, r))
  {
    hide Tell, Shown, End, AfterClose, Noted, LastSuccess;
  }

  lemma WritesElsewhere(c: Settings, m: Machine, r: Reply)
    requires !m.phase.AtPublication? && !m.phase.AtHandler? && !m.phase.AtRefusal? && !m.phase.Ended?
    ensures Writes(m, r, Step(c, m, r))
  {
    hide Fail, Tell, End, AfterClose, Objection, Elect, Strip;
  }

  lemma TimedStep(c: Settings, s0: StateFile, since: int, m: Machine, r: Reply)
    requires Timed(s0, since, m) && !m.phase.Ended?
    requires PastPublication(m.phase) ==> Published(c, s0, m.journal)
    ensures Timed(s0, since, Step(c, m, r))
  {
    StepLogs(c, m, r);
    PublishedHas(c, s0, m.journal, Entry(Wants(m.phase), r));
    hide Step, Published, HasPublished, Wants, Writes;
    if m.phase.AtPublication? { WritesAtPublication(c, m, r); }
    else if m.phase.AtHandler? || m.phase.AtRefusal? { WritesAtHandler(c, m, r); }
    else { WritesElsewhere(c, m, r); }
    WritesInTime(s0, since, m, r, Step(c, m, r));
  }

  lemma WritesInTime(s0: StateFile, since: int, m: Machine, r: Reply, n: Machine)
    requires Timed(s0, since, m) && Writes(m, r, n)
    requires HasPublished(m.journal) || m.phase == AtPublication(WritingSuccess) ==> HasPublished(n.journal)
    ensures Timed(s0, since, n)
  {
    hide HasPublished, CodeOf;
  }

  lemma PublishedHas(c: Settings, s0: StateFile, j: seq<Entry>, e: Entry)
    ensures Published(c, s0, j) || HasPublished(j) ==> HasPublished(j + [e])
  {
    hide Qualified;
    if i :| 0 <= i < |j| && j[i].op.Publish? && j[i].reply.failure.None? { assert (j + [e])[i] == j[i]; }
  }

  /** The record of a run, for every schedule and after any number of calls: a run that fails or is locked out keeps the time
      of the last success, one that succeeds that of the last failure. */
  lemma {:induction false} TimesAreKept(c: Settings, clock: int, files: Files, script: (nat, Op) -> Reply, n: nat)
    ensures Timed(files.state, clock, Run(c, Start(clock, files), script, n))
  {
    hide Step, Timed, PastPublication, Published;
    assert Timed(files.state, clock, Start(clock, files)) by { StartTimed(clock, files); }
    if n > 0 {
      TimesAreKept(c, clock, files, script, n - 1);
      FinishedHasPublished(c, clock, files, script, n - 1);
      var p := Run(c, Start(clock, files), script, n - 1);
      RunMore(c, Start(clock, files), script, n);
      hide *;
      if !p.phase.Ended? { TimedStep(c, files.state, clock, p, script(n - 1, Wants(p.phase))); }
    }
  }

  lemma StartTimed(clock: int, files: Files)
    ensures Timed(files.state, clock, Start(clock, files))
  {
  }

  // ---- what is held is given back ---------------------------------------------------------------------------------

  function Count(j: seq<Entry>, op: Op): nat {
    if j == [] then 0 else Count(j[..|j| - 1], op) + if j[|j| - 1].op == op then 1 else 0
  }

  function CountWorked(j: seq<Entry>, op: Op): nat {
    if j == [] then 0
    else CountWorked(j[..|j| - 1], op) + if j[|j| - 1].op == op && j[|j| - 1].reply.Works() then 1 else 0
  }

  lemma CountMore(j: seq<Entry>, e: Entry, op: Op)
    ensures Count(j + [e], op) == Count(j, op) + if e.op == op then 1 else 0
    ensures CountWorked(j + [e], op) == CountWorked(j, op) + if e.op == op && e.reply.Works() then 1 else 0
  {
    assert (j + [e])[..|j|] == j;
  }

  /** The handler has tried to remove the work directory, or the run is over. */
  predicate RemovalTried(p: Phase) {
    p.Ended? || (p.AtHandler? && !p.handling.HandlingClose? && !p.handling.HandlingRemove?)
  }

  /** A work directory is there and its removal has not been tried. */
  predicate Pending(m: Machine) { m.held.workDir && !RemovalTried(m.phase) }

  /** What is held at each point. */
  predicate Holds(m: Machine) {
    match m.phase
       case AtGate(g) => (m.held.backend <==> Rank(g) > 4) && (m.held.workDir <==> Rank(g) > 8)
       case AtDump(_) => m.held.backend && m.held.workDir
       case AtPublication(_) => m.held.backend && m.held.workDir
       case AtRetention(_, success) => m.held.backend == success && m.held.workDir == success
       case AtTail(t) => (m.held.backend <==> !t.FinalRemove?) && m.held.workDir
       case AtHandler(h) => (m.held.backend <==> h.HandlingClose?) && (h.HandlingRemove? ==> m.held.workDir)
       case Ended(_) => !m.held.backend
       case _ => !m.held.backend && !m.held.workDir
  }

  /** Built backends are open or closed, made directories are pending or their removal has been tried; all once. */
  ghost predicate Balanced(m: Machine) {
    CountWorked(m.journal, Build) == Count(m.journal, Close) + (if m.held.backend then 1 else 0)
    && CountWorked(m.journal, MakeDir) == Count(m.journal, RemoveDir) + (if Pending(m) then 1 else 0)
  }

  /** How one step changes what is held. */
  predicate Shifts(m: Machine, op: Op, r: Reply, n: Machine) {
    n.held.backend == ((op.Build? && r.Works()) || (m.held.backend && !op.Close?))
    && Pending(n) == ((op.MakeDir? && r.Works()) || (Pending(m) && !op.RemoveDir?))
    && (op.Build? ==> !m.held.backend) && (op.Close? ==> m.held.backend)
    && (op.MakeDir? ==> !Pending(m)) && (op.RemoveDir? ==> Pending(m))
  }

  lemma GateHolds(c: Settings, m: Machine, r: Reply)
    requires m.phase.AtGate?
    ensures var g, n := m.phase.gate, GateStep(c, m, r);
      n.held.backend == (m.held.backend || (g.Building? && r.Works()))
      && n.held.workDir == (m.held.workDir || (g.MakingDir? && r.Works()))
      && ((n.phase.AtHandler? && (n.held.backend <==> n.phase.handling.HandlingClose?)
           && (n.phase.handling.HandlingRemove? ==> n.held.workDir))
          || (g.Electing? && n.phase.DiscardingMetric?)
          || n.phase == AtGate(NextGate(g)) || (g.ReadingLocal? && n.phase.AtDump?))
      && (n.phase.AtGate? && (g.Building? || g.MakingDir?) ==> r.Works()) && (n.phase.AtGate? ==> !g.ReadingLocal?)
      && ((g.Building? || g.MakingDir?) && r.Works() ==> n.phase.AtGate?)
  {
    PassesOrRaises(c, m.phase.gate, m.files.state, r);
    hide Fail, Tell, Objection, Elect, Strip, AfterClose;
  }

  lemma ShiftsAtGate(c: Settings, m: Machine, r: Reply)
    requires Holds(m) && m.phase.AtGate?
    ensures Shifts(m, Wants(m.phase), r, Step(c, m, r))
  {
    assert Step(c, m, r) == GateStep(c, Logged(m, r), r);
    GateHolds(c, Logged(m, r), r);
    hide Step, GateStep, Fail;
  }

  lemma HoldsAtGate(c: Settings, m: Machine, r: Reply)
    requires Holds(m) && m.phase.AtGate?
    ensures Holds(Step(c, m, r)) && Shifts(m, Wants(m.phase), r, Step(c, m, r))
  {
    hide Shifts, Step, GateStep, Logged;
    ShiftsAtGate(c, m, r);
    IsGateStep(c, m, r);
    GateHolds(c, Logged(m, r), r);
    hide Wants;
  }

  lemma PassesOrRaises(c: Settings, g: Gate, s: StateFile, r: Reply)
    ensures g.Building? || g.MakingDir? ==> (r.Works() <==> Objection(c, g, s, r).None?)
  {
  }

  lemma HoldsAtPublication(c: Settings, m: Machine, r: Reply)
    requires Holds(m) && (m.phase.AtPublication? || m.phase.AtDump?)
    ensures Holds(Step(c, m, r)) && Shifts(m, Wants(m.phase), r, Step(c, m, r))
  {
    hide Fail, Tell, Recorded, Shown, FlowObjection;
  }

  lemma HoldsAtHandler(c: Settings, m: Machine, r: Reply)
    requires Holds(m) && (m.phase.AtHandler? || m.phase.AtRefusal?)
    ensures Holds(Step(c, m, r)) && Shifts(m, Wants(m.phase), r, Step(c, m, r))
  {
    hide Tell, End, Recorded, Shown, AfterClose, Noted, LastSuccess;
  }

  lemma HoldsAtTail(c: Settings, m: Machine, r: Reply)
    requires Holds(m) && (m.phase.AtTail? || m.phase.AtRetention?)
    ensures Holds(Step(c, m, r)) && Shifts(m, Wants(m.phase), r, Step(c, m, r))
  {
    hide Tell, End;
  }

  lemma HoldsElsewhere(c: Settings, m: Machine, r: Reply)
    requires Holds(m) && (m.phase.Locking? || m.phase.DiscardingMetric? || m.phase.DiscardingBridge?)
    ensures Holds(Step(c, m, r)) && Shifts(m, Wants(m.phase), r, Step(c, m, r))
  {
    hide Tell;
  }

  lemma HoldsStep(c: Settings, m: Machine, r: Reply)
    requires Holds(m) && !m.phase.Ended?
    ensures Holds(Step(c, m, r)) && Shifts(m, Wants(m.phase), r, Step(c, m, r))
  {
    hide Step, Holds, Shifts;
    if m.phase.AtGate? { HoldsAtGate(c, m, r); }
    else if m.phase.AtPublication? || m.phase.AtDump? { HoldsAtPublication(c, m, r); }
    else if m.phase.AtHandler? || m.phase.AtRefusal? { HoldsAtHandler(c, m, r); }
    else if m.phase.AtTail? || m.phase.AtRetention? { HoldsAtTail(c, m, r); }
    else { HoldsElsewhere(c, m, r); }
  }

  lemma BalancedStep(c: Settings, m: Machine, r: Reply)
    requires Holds(m) && Balanced(m) && !m.phase.Ended?
    ensures Holds(Step(c, m, r)) && Balanced(Step(c, m, r))
  {
    StepLogs(c, m, r);
    HoldsStep(c, m, r);
    hide Step, Holds, Count, CountWorked, Pending, Wants;
    var e := Entry(Wants(m.phase), r);
    CountMore(m.journal, e, Build);
    CountMore(m.journal, e, Close);
    CountMore(m.journal, e, MakeDir);
    CountMore(m.journal, e, RemoveDir);
  }

  lemma {:induction false} RunBalanced(c: Settings, clock: int, files: Files, script: (nat, Op) -> Reply, n: nat)
    ensures Holds(Run(c, Start(clock, files), script, n)) && Balanced(Run(c, Start(clock, files), script, n))
  {
    hide Step;
    if n > 0 {
      RunBalanced(c, clock, files, script, n - 1);
      var p := Run(c, Start(clock, files), script, n - 1);
      hide Balanced, Holds, Start;
      if !p.phase.Ended? { BalancedStep(c, p, script(n - 1, Wants(p.phase))); }
    }
  }

  /** At the end of every run every backend that was built has been closed once, and the removal of
      every work directory that was made has been tried once. */
  lemma EverythingGivenBack(c: Settings, clock: int, files: Files, script: (nat, Op) -> Reply, n: nat)
    requires Run(c, Start(clock, files), script, n).phase.Ended?
    ensures var m := Run(c, Start(clock, files), script, n);
      CountWorked(m.journal, Build) == Count(m.journal, Close)
      && CountWorked(m.journal, MakeDir) == Count(m.journal, RemoveDir)
  {
    RunBalanced(c, clock, files, script, n);
    hide Run, Count, CountWorked, Start;
  }

  // ---- the metric files -------------------------------------------------------------------------------------------

  /** A call on the lock, on the state file or on a metric file. */
  predicate OnFiles(op: Op) { op.Acquire? || op.ReadState? || op.WriteMetric? || op.DiscardMetric? || op.DiscardBridge? }

  /** The calls on the lock, the state file and the metric files work, the run sees this view of the backup hostgroup, and
      the removal of a work directory raises nothing that the handler does not catch. Nothing is said of any other call. */
  predicate Good(view: Option<seq<string>>, op: Op, r: Reply) {
    (OnFiles(op) ==> r.Works())
    && (op.AskDonor? ==> r.Works() && r.rows == view)
    && (op.RemoveDir? ==> r.failure != Some(Uncoded))
  }

  ghost predicate FileCallsWork(script: (nat, Op) -> Reply, view: Option<seq<string>>) {
    forall t: nat, op: Op :: Good(view, op, script(t, op))
  }

  predicate Skipping(p: Phase) {
    p.DiscardingMetric? || p.DiscardingBridge? || (p.AtRetention? && !p.success) || p == Ended(Ok(NotElected))
  }

  /** Where each path has left the metric files. */
  ghost predicate Tidies(c: Settings, view: Option<seq<string>>, m: Machine) {
    !m.files.state.Damaged? && !m.phase.AtRefusal?
    && (Skipping(m.phase) ==> Declines(c.node, view))
    && (!Skipping(m.phase) && !m.phase.Locking? && m.phase != AtGate(Beginning) && m.phase != AtGate(Electing)
        ==> !Declines(c.node, view))
    && (m.phase.DiscardingBridge? ==> m.files.metric.None?)
    && ((m.phase.AtRetention? && !m.phase.success) || m.phase == Ended(Ok(NotElected))
        ==> m.files.metric.None? && m.files.bridge.None?)
    && (Succeeded(m.phase) || (m.phase.Ended? && !Skipping(m.phase)) ==> m.files.metric.Some?)
  }

  lemma TidiesGate(c: Settings, view: Option<seq<string>>, m: Machine, r: Reply)
    requires Tidies(c, view, m) && m.phase.AtGate? && Good(view, Wants(m.phase), r)
    ensures Tidies(c, view, Step(c, m, r))
  {
    var n := GateStep(c, Logged(m, r), r);
    assert Step(c, m, r) == n;
    GateOutcome(c, view, m, r);
    hide Step, GateStep, Elect, Strip, Proceeds, Declines, Objection, Logged, Good;
  }

  /** A readable state and a working query: only the election sends a run away, and exactly the nodes that decline. */
  lemma GateOutcome(c: Settings, view: Option<seq<string>>, m: Machine, r: Reply)
    requires m.phase.AtGate? && !m.files.state.Damaged? && Good(view, Wants(m.phase), r)
    ensures var n, g := GateStep(c, Logged(m, r), r), m.phase.gate;
      n.files == m.files && (n.phase.AtGate? || n.phase.AtDump? || n.phase.AtHandler? || n.phase.DiscardingMetric?)
      && (n.phase.DiscardingMetric? ==> g.Electing? && Declines(c.node, view))
      && (g.Electing? && !n.phase.DiscardingMetric? ==> !Declines(c.node, view))
      && (g.Beginning? ==> n.phase == AtGate(Electing) || !Declines(c.node, view))
      && (n.phase == AtGate(Electing) ==> g.Beginning?) && n.phase != AtGate(Beginning)
  {
    hide Fail, Tell, Guard, Healthy, Least, Candidates, Lines, Strip;
  }

  lemma TidiesAtPublication(c: Settings, view: Option<seq<string>>, m: Machine, r: Reply)
    requires Tidies(c, view, m) && m.phase.AtPublication? && Good(view, Wants(m.phase), r)
    ensures Tidies(c, view, Step(c, m, r))
  {
    assert Step(c, m, r) == PublicationStep(c, Logged(m, r), r);
    hide Fail, Tell, FlowObjection, Step, Declines;
  }

  lemma TidiesHandling(c: Settings, view: Option<seq<string>>, m: Machine, r: Reply)
    requires Tidies(c, view, m) && (m.phase.AtHandler? || m.phase.AtDump?) && Good(view, Wants(m.phase), r)
    ensures Tidies(c, view, Step(c, m, r))
  {
    hide Fail, Tell, End, AfterClose, Noted, LastSuccess, Declines;
  }

  lemma TidiesOther(c: Settings, view: Option<seq<string>>, m: Machine, r: Reply)
    requires Tidies(c, view, m) && !m.phase.Ended? && Good(view, Wants(m.phase), r)
    requires m.phase.Locking? || m.phase.AtTail? || m.phase.AtRetention?
             || m.phase.DiscardingMetric? || m.phase.DiscardingBridge?
    ensures Tidies(c, view, Step(c, m, r))
  {
    hide Tell, End, Declines;
  }

  lemma {:induction false} RunTidies(c: Settings, clock: int, files: Files, script: (nat, Op) -> Reply, n: nat,
                                     view: Option<seq<string>>)
    requires FileCallsWork(script, view) && !files.state.Damaged?
    ensures Tidies(c, view, Run(c, Start(clock, files), script, n))
  {
    hide Step, Declines;
    if n > 0 {
      RunTidies(c, clock, files, script, n - 1, view);
      var p := Run(c, Start(clock, files), script, n - 1);
      hide Start, Good;
      if !p.phase.Ended? {
        var r := script(n - 1, Wants(p.phase));
        assert Good(view, Wants(p.phase), r);
        NoRefusal(c, view, p);
        hide Tidies;
        if p.phase.AtGate? { TidiesGate(c, view, p, r); }
        else if p.phase.AtPublication? { TidiesAtPublication(c, view, p, r); }
        else if p.phase.AtHandler? || p.phase.AtDump? { TidiesHandling(c, view, p, r); }
        else { TidiesOther(c, view, p, r); }
      }
    }
  }

  lemma NoRefusal(c: Settings, view: Option<seq<string>>, m: Machine)
    requires Tidies(c, view, m)
    ensures !m.phase.AtRefusal?
  {
  }

  /** With a readable state file, one view and working file calls, a finished run has left a backup metric on this node if
      and only if the node does not decline, whatever was there before; and a node that declines has no bridge file. */
  lemma MetricIsTheDonors(c: Settings, clock: int, files: Files, script: (nat, Op) -> Reply, n: nat, view: Option<seq<string>>)
    requires FileCallsWork(script, view) && !files.state.Damaged?
    requires Run(c, Start(clock, files), script, n).phase.Ended?
    ensures var m := Run(c, Start(clock, files), script, n);
      (m.files.metric.Some? <==> !Declines(c.node, view)) && (Declines(c.node, view) ==> m.files.bridge.None?)
  {
    RunTidies(c, clock, files, script, n, view);
    hide Run, Declines, Start, FileCallsWork;
  }
}
