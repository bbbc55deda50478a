/** One backup run on one node as the program has it: nested methods, local variables, exceptions as results. Every call
    that leaves the process is answered by a schedule, and the run is in step with the machine at every one of them. */
module BackupRun {
  import opened Errors
  import opened Strings
  import opened Election
  import opened RunMachine
  import RunOutcome
  import RunVerdicts
  import RunAftermath

  /** A run that finishes has published, by a call that worked, after every gate, and says so in state file and metric. One
      that fails under the lock raises the error with which its `try` part was left, as `RunOutcome.FailedProperly` has it;
      one that found the lock taken ends as `RunOutcome.RefusedProperly` has it. Whatever a call of the `try` part raised, or
      returned that is not good enough, is what is raised. The time of the last success moves only with a publication. */
  ghost predicate Means(c: Settings, s0: StateFile, since: int, m: Machine, r: Result<Done>) {
    (r == Ok(Finished) ==> RunAftermath.Published(c, s0, m.journal) && RunAftermath.SuccessShown(s0, m))
    && (r.Err? ==> |m.journal| > 0
                   && if m.journal[0].reply.Works() then RunOutcome.FailedProperly(c, s0, m, r.failure)
                      else RunOutcome.RefusedProperly(s0, m, r.failure))
    && (forall k, f | RunVerdicts.Stops(c, s0, m.journal, k, f) :: r.Err? && RunVerdicts.RaisedAs(m.journal, k, f, r.failure))
    && RunAftermath.Times(s0, since, m)
  }

  lemma EndMeans(c: Settings, clock: int, files: Files, script: (nat, Op) -> Reply, n: nat)
    requires Run(c, Start(clock, files), script, n).phase.Ended?
    ensures var m := Run(c, Start(clock, files), script, n); Means(c, files.state, clock, m, m.phase.result)
  {
    RunAftermath.FinishedHasPublished(c, clock, files, script, n);
    RunAftermath.RunRecords(c, clock, files, script, n);
    RunAftermath.TimesAreKept(c, clock, files, script, n);
    hide Run, Start, RunAftermath.Published, RunAftermath.SuccessShown, RunAftermath.Times, RunOutcome.FailedProperly,
      RunOutcome.RefusedProperly, RunVerdicts.Stops, RunVerdicts.RaisedAs;
    var m := Run(c, Start(clock, files), script, n);
    if m.phase.result.Err? { RunOutcome.FailureIsKeptAndShown(c, clock, files, script, n); }
    forall k, f | RunVerdicts.Stops(c, files.state, m.journal, k, f)
      ensures m.phase.result.Err? && RunVerdicts.RaisedAs(m.journal, k, f, m.phase.result.failure)
    {
      RunVerdicts.StopIsRaised(c, clock, files, script, n, k, f);
    }
  }

  class Runner {
    const cfg: Settings
    const script: (nat, Op) -> Reply

    var tick: nat
    var clock: int
    var state: StateFile
    var metric: Option<Metrics>
    var bridge: Option<int>
    var locked: bool
    var backend: bool
    var workDir: bool
    var events: seq<Event>
    ghost var origin: Machine
    ghost var m: Machine

    constructor (cfg: Settings, script: (nat, Op) -> Reply, clock: int, files: Files)
      ensures this.cfg == cfg && this.script == script && Fresh() && origin == Start(clock, files)
    {
      this.cfg, this.script, this.tick, this.clock := cfg, script, 0, clock;
      this.state, this.metric, this.bridge := files.state, files.metric, files.bridge;
      this.locked, this.backend, this.workDir, this.events := false, false, false, [];
      this.origin, this.m := Start(clock, files), Start(clock, files);
    }

    /** A process that has done nothing yet, on whatever files it finds. */
    ghost predicate Fresh()
      reads this
    {
      tick == 0 && !locked && !backend && !workDir && events == []
      && origin == Start(clock, Files(state, metric, bridge)) && m == origin
    }

    /** The machine after `tick` calls of this run is `m`. */
    ghost predicate Tracks()
      reads this
    {
      m == Run(cfg, origin, script, tick)
    }

    /** What the machine has is what the program has. */
    ghost predicate InStep()
      reads this
    {
      m.files == Files(state, metric, bridge) && m.held == Held(backend, workDir) && m.events == events && m.clock == clock
    }

    ghost predicate At(p: Phase)
      reads this
    {
      Tracks() && InStep() && m.phase == p
    }

    /** On the way out with this failure. */
    ghost predicate Raises(f: Failure)
      reads this
    {
      Tracks() && InStep() && m.phase.AtHandler? && m.raising == Raising(Some(f), f, |m.journal|)
      && m.phase.handling == if backend then HandlingClose else if workDir then HandlingRemove else ReadingForFailure
    }

    method Ask(op: Op) returns (r: Reply)
      requires Tracks() && m.clock == clock && !m.phase.Ended? && Wants(m.phase) == op
      modifies this`tick, this`clock, this`m
      ensures Tracks() && r == script(old(tick), op) && m == Step(cfg, old(m), r) && clock == old(clock) + r.elapsed
    {
      hide Step, Wants, Fail, Recorded, Shown, Tell, End, Noted;
      r := script(tick, op);
      m := Step(cfg, m, r);
      tick, clock := tick + 1, clock + r.elapsed;
    }

    method AskGate(op: Op) returns (r: Reply)
      requires Tracks() && m.clock == clock && m.phase.AtGate? && Wants(m.phase) == op
      modifies this`tick, this`clock, this`m
      ensures Tracks() && r == script(old(tick), op) && m == GateStep(cfg, Logged(old(m), r), r)
              && clock == old(clock) + r.elapsed
    {
      hide Run, Wants, GateStep, DumpStep, PublicationStep, RetentionStep, TailStep, SkipStep, HandlerStep, RefusalStep;
      r := Ask(op);
    }

    method AskDump(op: Op) returns (r: Reply)
      requires Tracks() && m.clock == clock && m.phase.AtDump? && Wants(m.phase) == op
      modifies this`tick, this`clock, this`m
      ensures Tracks() && r == script(old(tick), op) && m == DumpStep(Logged(old(m), r), r) && clock == old(clock) + r.elapsed
    {
      hide Run, Wants, GateStep, DumpStep, PublicationStep, RetentionStep, TailStep, SkipStep, HandlerStep, RefusalStep;
      r := Ask(op);
    }

    method AskPublication(op: Op) returns (r: Reply)
      requires Tracks() && m.clock == clock && m.phase.AtPublication? && Wants(m.phase) == op
      modifies this`tick, this`clock, this`m
      ensures Tracks() && r == script(old(tick), op) && m == PublicationStep(cfg, Logged(old(m), r), r)
              && clock == old(clock) + r.elapsed
    {
      hide Run, Wants, GateStep, DumpStep, PublicationStep, RetentionStep, TailStep, SkipStep, HandlerStep, RefusalStep;
      r := Ask(op);
    }

    method AskRetention(op: Op) returns (r: Reply)
      requires Tracks() && m.clock == clock && m.phase.AtRetention? && Wants(m.phase) == op
      modifies this`tick, this`clock, this`m
      ensures Tracks() && r == script(old(tick), op) && m == RetentionStep(cfg, Logged(old(m), r), r)
              && clock == old(clock) + r.elapsed
    {
      hide Run, Wants, GateStep, DumpStep, PublicationStep, RetentionStep, TailStep, SkipStep, HandlerStep, RefusalStep;
      r := Ask(op);
    }

    method AskTail(op: Op) returns (r: Reply)
      requires Tracks() && m.clock == clock && m.phase.AtTail? && Wants(m.phase) == op
      modifies this`tick, this`clock, this`m
      ensures Tracks() && r == script(old(tick), op) && m == TailStep(Logged(old(m), r), r) && clock == old(clock) + r.elapsed
    {
      hide Run, Wants, GateStep, DumpStep, PublicationStep, RetentionStep, TailStep, SkipStep, HandlerStep, RefusalStep;
      r := Ask(op);
    }

    method AskSkip(op: Op) returns (r: Reply)
      requires Tracks() && m.clock == clock && (m.phase.DiscardingMetric? || m.phase.DiscardingBridge?)
               && Wants(m.phase) == op
      modifies this`tick, this`clock, this`m
      ensures Tracks() && r == script(old(tick), op) && m == SkipStep(cfg, Logged(old(m), r), r)
              && clock == old(clock) + r.elapsed
    {
      hide Run, Wants, GateStep, DumpStep, PublicationStep, RetentionStep, TailStep, SkipStep, HandlerStep, RefusalStep;
      r := Ask(op);
    }

    method AskHandler(op: Op) returns (r: Reply)
      requires Tracks() && m.clock == clock && m.phase.AtHandler? && Wants(m.phase) == op
      modifies this`tick, this`clock, this`m
      ensures Tracks() && r == script(old(tick), op) && m == HandlerStep(Logged(old(m), r), r)
              && clock == old(clock) + r.elapsed
    {
      hide Run, Wants, GateStep, DumpStep, PublicationStep, RetentionStep, TailStep, SkipStep, HandlerStep, RefusalStep;
      r := Ask(op);
    }

    method AskRefusal(op: Op) returns (r: Reply)
      requires Tracks() && m.clock == clock && m.phase.AtRefusal? && Wants(m.phase) == op
      modifies this`tick, this`clock, this`m
      ensures Tracks() && r == script(old(tick), op) && m == RefusalStep(Logged(old(m), r), r)
              && clock == old(clock) + r.elapsed
    {
      hide Run, Wants, GateStep, DumpStep, PublicationStep, RetentionStep, TailStep, SkipStep, HandlerStep, RefusalStep;
      r := Ask(op);
    }

    method Emit(e: Event)
      modifies this`events
      ensures events == old(events) + [e]
    {
      events := events + [e];
    }

    // ---- the gates ------------------------------------------------------------------------------------------------

    /** State file, election. None when another node was elected. */
    method ElectSelf() returns (r: Result<bool>)
      requires At(AtGate(Beginning))
      modifies this`tick, this`clock, this`events, this`m
      ensures r == Ok(true) ==> At(AtGate(Guarding))
      ensures r == Ok(false) ==> At(DiscardingMetric)
      ensures r.Err? ==> Raises(r.failure)
    {
      hide Step, Fail, Elect, Strip, Run, Recorded, Shown, Tell, End, Noted;
      var first := AskGate(ReadState);
      if first.failure.Some? || state.Damaged? { return Err(Coded(E_STATE, 0)); }
      if !cfg.node.electionSet { return Err(Coded(E_CONFIG, 0)); }
      if !cfg.node.credentials { return Err(Coded(E_SECRETS, 0)); }
      var query := AskGate(AskDonor);
      if query.failure.Some? { return Err(query.failure.value); }
      var donor := Elect(cfg.node, query.rows);
      if donor.Err? { return Err(donor.failure); }
      var me := Strip(cfg.node.address);
      if me == [] { return Err(Coded(E_CONFIG, 0)); }
      if donor.value != me {
        Emit(Skipped);
        return Ok(false);
      }
      if !cfg.node.guardSet { return Err(Coded(E_CONFIG, 0)); }
      r := Ok(true);
    }

    /** `assert_scheduler_is_not_writer` */
    method CheckWriter() returns (failure: Option<Failure>)
      requires At(AtGate(Guarding))
      modifies this`tick, this`clock, this`m
      ensures failure.None? ==> At(AtGate(Building))
      ensures failure.Some? ==> Raises(failure.value)
    {
      hide Step, Guard, Run, Fail, Recorded, Shown, Tell, End, Noted;
      var writers := AskGate(AskWriter);
      if writers.failure.Some? { return writers.failure; }
      failure := Guard(cfg.node, writers.rows);
    }

    /** The backend and its preflight. */
    method OpenBackend() returns (failure: Option<Failure>)
      requires At(AtGate(Building))
      modifies this`tick, this`clock, this`backend, this`m
      ensures failure.None? ==> At(AtGate(CheckingHealth))
      ensures failure.Some? ==> Raises(failure.value)
    {
      hide Step, Run, Fail, Recorded, Shown, Tell, End, Noted;
      var built := AskGate(Build);
      if built.failure.Some? { return built.failure; }
      backend := true;
      var preflight := AskGate(Preflight);
      failure := preflight.failure;
    }

    /** The health of the cluster, with the flow-control counter to start from. */
    method CheckHealth() returns (r: Result<int>)
      requires At(AtGate(CheckingHealth))
      modifies this`tick, this`clock, this`m
      ensures r.Ok? ==> At(AtGate(CheckingSpace)) && m.seen.health.paused == Number(r.value)
      ensures r.Err? ==> Raises(r.failure)
    {
      hide Step, Fail, Healthy, Run, Recorded, Shown, Tell, End, Noted;
      var query := AskGate(QueryHealth);
      if query.failure.Some? { return Err(query.failure.value); }
      if query.vars.size.None? { return Err(Uncoded); }
      if !Healthy(query.vars, cfg) { return Err(Coded(E_GALERA, 0)); }
      if query.vars.paused.Missing? { return Err(Coded(E_GALERA, 0)); }
      if query.vars.paused.NotANumber? { return Err(Uncoded); }
      r := Ok(query.vars.paused.n);
    }

    method CheckSpace() returns (failure: Option<Failure>)
      requires At(AtGate(CheckingSpace))
      modifies this`tick, this`clock, this`m
      ensures failure.None? ==> At(AtGate(MakingDir)) && m.seen == old(m).seen
      ensures failure.Some? ==> Raises(failure.value)
    {
      hide Step, Run, Fail, Recorded, Shown, Tell, End, Noted;
      var space := AskGate(DiskUsage);
      if space.failure.Some? { return space.failure; }
      failure := if space.number < MIN_FREE then Some(Coded(E_STORAGE, 0)) else None;
    }

    /** The private staging directory. */
    method MakeStaging() returns (failure: Option<Failure>)
      requires At(AtGate(MakingDir))
      modifies this`tick, this`clock, this`workDir, this`m
      ensures failure.None? ==> At(AtGate(ReadingLocal)) && m.seen == old(m).seen
      ensures failure.Some? ==> Raises(failure.value)
    {
      hide Step, Run, Fail, Recorded, Shown, Tell, End, Noted;
      var made := AskGate(MakeDir);
      if made.failure.Some? { return made.failure; }
      workDir := true;
      var restricted := AskGate(Restrict);
      failure := restricted.failure;
    }

    // ---- the dump -------------------------------------------------------------------------------------------------

    /** `set_wsrep_desync(True)`: only from state 4; tells whether this call switched the node. */
    method SwitchOn() returns (r: Result<bool>)
      requires At(AtGate(ReadingLocal))
      modifies this`tick, this`clock, this`m
      ensures r.Ok? ==> At(AtDump(Dumping)) && m.seen.switched == r.value && m.seen.health == old(m).seen.health
      ensures r.Err? ==> Raises(r.failure)
    {
      hide Step, Fail, Run, Recorded, Shown, Tell, End, Noted;
      var local := AskGate(QueryLocal);
      if local.failure.Some? { return Err(local.failure.value); }
      if local.vars.localState != "4" { return Ok(false); }
      var on := AskDump(DesyncOn);
      if on.failure.Some? { return Err(on.failure.value); }
      r := Ok(true);
    }

    /** `wait_until_synced`: a poll every five seconds for fifteen minutes. */
    method WaitUntilSynced(dump: Option<Failure>) returns (failure: Option<Failure>)
      requires m.phase.AtDump? && m.phase.dumping == Polling(dump, clock + SYNC_LIMIT) && At(m.phase)
      modifies this`tick, this`clock, this`m
      ensures failure.Some? ==> Raises(failure.value)
      ensures failure.None? ==> if dump.Some? then Raises(dump.value) else At(AtPublication(Packing))
      ensures m.seen == old(m).seen
    {
      hide Step, Fail, Run, Recorded, Shown, Tell, End, Noted;
      var deadline := clock + SYNC_LIMIT;
      while true
        invariant At(AtDump(Polling(dump, deadline))) && m.seen == old(m).seen
        decreases deadline - clock
      {
        var reply := AskDump(Poll);
        if reply.failure.Some? { return reply.failure; }
        if reply.vars.comment == "Synced" { return None; }
        if clock >= deadline { return Some(Coded(E_GALERA, 0)); }
        clock := clock + 5;
      }
    }

    /** The dump between the switches; what fails in the `finally` part replaces what failed before. */
    method DumpDesynced() returns (failure: Option<Failure>)
      requires At(AtGate(ReadingLocal))
      modifies this`tick, this`clock, this`m
      ensures failure.None? ==> At(AtPublication(Packing)) && m.seen.health == old(m).seen.health
      ensures failure.Some? ==> Raises(failure.value)
    {
      hide Step, Fail, Run, Recorded, Shown, Tell, End, Noted;
      var desynced := SwitchOn();
      if desynced.Err? { return Some(desynced.failure); }
      var dump := AskDump(Dump);
      if !desynced.value { return dump.failure; }
      var off := AskDump(DesyncOff);
      if off.failure.Some? { return off.failure; }
      var waited := WaitUntilSynced(dump.failure);
      failure := if waited.Some? then waited else dump.failure;
    }

    // ---- publication and success ----------------------------------------------------------------------------------

    /** Archive and encryption, then the flow-control gate. */
    method PackAndGate(initial: int) returns (r: Result<int>)
      requires At(AtPublication(Packing)) && m.seen.health.paused == Number(initial)
      modifies this`tick, this`clock, this`m
      ensures r.Ok? ==> At(AtPublication(Publishing)) && m.seen.size == r.value
      ensures r.Err? ==> Raises(r.failure)
    {
      hide Step, Fail, Run, Recorded, Shown, Tell, End, Noted;
      var packed := AskPublication(Pack);
      if packed.failure.Some? { return Err(packed.failure.value); }
      var flow := AskPublication(QueryFlow);
      if flow.failure.Some? { return Err(flow.failure.value); }
      if flow.vars.paused.Missing? { return Err(Coded(E_GALERA, 0)); }
      if flow.vars.paused.NotANumber? { return Err(Uncoded); }
      if flow.vars.paused.n - initial > cfg.threshold { return Err(Coded(E_FLOW_CONTROL, 0)); }
      r := Ok(packed.number);
    }

    /** `backend.publish` */
    method PublishBackup() returns (failure: Option<Failure>)
      requires At(AtPublication(Publishing))
      modifies this`tick, this`clock, this`m
      ensures failure.None? ==> At(AtPublication(ReadingState)) && m.seen == old(m).seen
      ensures failure.Some? ==> Raises(failure.value)
    {
      hide Step, Fail, Run, Recorded, Shown, Tell, End, Noted;
      var published := AskPublication(Publish);
      failure := published.failure;
    }

    /** `update_success` and its event. */
    method UpdateSuccess() returns (failure: Option<Failure>)
      requires At(AtPublication(ReadingState))
      modifies this`tick, this`clock, this`m, this`state, this`events
      ensures failure.None? ==> At(AtPublication(ReadingBack)) && m.seen == old(m).seen
      ensures failure.Some? ==> Raises(failure.value)
    {
      hide Step, Fail, Run, Shown, Recorded, Tell, End, Noted;
      var read := AskPublication(ReadState);
      if read.failure.Some? || state.Damaged? { return Some(Coded(E_STATE, 0)); }
      var written := AskPublication(WriteState);
      if written.failure.Some? { return written.failure; }
      state := Present(Updated(RecordOf(state), Success, clock));
      Emit(StateSuccess);
      failure := None;
    }

    /** The last failure, read back from the state file for the metric: a second time if there is one. */
    method ReadLastFailure() returns (r: Result<int>)
      requires At(AtPublication(ReadingBack))
      modifies this`tick, this`clock, this`m
      ensures r.Ok? ==> At(AtPublication(ShowingSuccess)) && m.seen == old(m).seen && r.value == RecordOf(state).lastFailure
      ensures r.Err? ==> Raises(r.failure)
    {
      hide Step, Fail, Run, Recorded, Shown, Tell, End, Noted;
      var read := AskPublication(ReadState);
      if read.failure.Some? || state.Damaged? { return Err(Coded(E_STATE, 0)); }
      var last := RecordOf(state).lastFailure;
      if last != 0 {
        read := AskPublication(ReadState);
        if read.failure.Some? || state.Damaged? { return Err(Coded(E_STATE, 0)); }
      }
      r := Ok(last);
    }

    /** The success in the metric. */
    method ShowSuccess(last: int, size: int) returns (failure: Option<Failure>)
      requires At(AtPublication(ShowingSuccess)) && m.seen.size == size && last == RecordOf(state).lastFailure
      modifies this`tick, this`clock, this`m, this`metric
      ensures failure.None? ==> At(RetentionEntry(cfg, true))
      ensures failure.Some? ==> Raises(failure.value)
    {
      hide Step, Fail, Run, Recorded, RetentionEntry, Shown, Tell, End, Noted;
      var shown := AskPublication(WriteMetric);
      if shown.Takes() { metric := Some(Metrics(clock, last, 1, size)); }
      failure := shown.failure;
      NotEnded(cfg);
    }

    lemma NotEnded(c: Settings)
      ensures !RetentionEntry(c, true).Ended?
    {
    }

    // ---- best-effort parts ----------------------------------------------------------------------------------------

    /** `run_retention`: never raises. */
    method RunRetention(success: bool)
      requires At(RetentionEntry(cfg, success))
      modifies this`tick, this`clock, this`m, this`events
      ensures At(AfterRetentionAt(success))
    {
      hide Step, Run, Fail, Recorded, Shown, Tell, End, Noted;
      if cfg.s3 {
        if !cfg.coordinator { return; }
        var built := AskRetention(BuildRetention);
        if built.failure.Some? { Emit(RetentionFailure); return; }
        var preflight := AskRetention(PreflightRetention);
        if preflight.failure.Some? { Emit(RetentionFailure); return; }
      } else if !success {
        return;
      }
      PruneExpired(success);
    }

    method PruneExpired(success: bool)
      requires At(AtRetention(Pruning, success))
      modifies this`tick, this`clock, this`m, this`events
      ensures At(AfterRetentionAt(success))
    {
      hide Step, Run, Fail, Recorded, Shown, Tell, End, Noted;
      var pruned := AskRetention(Prune);
      Emit(if pruned.failure.Some? then RetentionFailure else RetentionSuccess);
      if cfg.s3 { var closed := AskRetention(CloseRetention); }
    }

    /** The drill bridge: a confirmed marker is published, anything else leaves the file alone. */
    method PublishDrillFreshness()
      requires At(AtTail(ReadingMarker))
      modifies this`tick, this`clock, this`m, this`events, this`bridge
      ensures At(AtTail(FinalClose))
    {
      hide Step, Run, Fail, Recorded, Shown, Tell, End, Noted;
      var marker := AskTail(ReadMarker);
      if marker.failure.Some? {
        Emit(BridgeFailure);
      } else if marker.number > 0 {
        var written := AskTail(WriteBridge);
        if written.Takes() { bridge := Some(marker.number); }
        if written.failure.Some? { Emit(BridgeFailure); }
      } else {
        Emit(BridgeSkipped);
      }
    }

    method CloseLast()
      requires At(AtTail(FinalClose))
      modifies this`tick, this`clock, this`m, this`events, this`backend
      ensures At(AtTail(FinalRemove))
    {
      hide Step, Run, End, Fail, Recorded, Shown, Tell, Noted;
      var closed := AskTail(Close);
      backend := false;
      if closed.failure.Some? { Emit(CleanupFailure); }
    }

    method RemoveLast()
      requires At(AtTail(FinalRemove))
      modifies this`tick, this`clock, this`m, this`events, this`workDir
      ensures At(Ended(Ok(Finished)))
    {
      hide Step, Run, Fail, Recorded, Shown, Tell, End, Noted;
      var removed := AskTail(RemoveDir);
      workDir := false;
      if removed.failure.Some? { Emit(CleanupFailure); }
    }

    /** `_finalize_success_cleanup` */
    method FinalizeSuccess()
      requires At(AtTail(FinalClose))
      modifies this`tick, this`clock, this`m, this`events, this`backend, this`workDir
      ensures At(Ended(Ok(Finished)))
    {
      hide Step, Run, Fail, Recorded, Shown, Tell, End, Noted;
      CloseLast();
      RemoveLast();
    }

    method DiscardMetricFile()
      requires At(DiscardingMetric)
      modifies this`tick, this`clock, this`m, this`events, this`metric
      ensures At(DiscardingBridge)
    {
      hide Step, Run, Fail, Recorded, Shown, Tell, End, Noted;
      var reply := AskSkip(DiscardMetric);
      if reply.Takes() { metric := None; }
      if reply.failure.Some? { Emit(DiscardFailure); }
    }

    method DiscardBridgeFile()
      requires At(DiscardingBridge)
      modifies this`tick, this`clock, this`m, this`events, this`bridge
      ensures At(RetentionEntry(cfg, false))
    {
      hide Step, Run, Fail, Recorded, Shown, Tell, End, Noted, RetentionEntry;
      var reply := AskSkip(DiscardBridge);
      if reply.Takes() { bridge := None; }
      if reply.failure.Some? { Emit(DiscardFailure); }
    }

    // ---- the `try` block ------------------------------------------------------------------------------------------

    /** Everything up to the publication. */
    method Produce() returns (r: Result<int>)
      requires At(AtGate(Guarding))
      modifies this`tick, this`clock, this`m, this`backend, this`workDir
      ensures r.Ok? ==> At(AtPublication(Publishing)) && m.seen.size == r.value
      ensures r.Err? ==> Raises(r.failure)
    {
      hide Step, Run, Fail, Wants, Recorded, Shown, Tell, End, Noted;
      var failure := CheckWriter();
      if failure.Some? { return Err(failure.value); }
      failure := OpenBackend();
      if failure.Some? { return Err(failure.value); }
      var initial := CheckHealth();
      if initial.Err? { return initial; }
      failure := CheckSpace();
      if failure.Some? { return Err(failure.value); }
      failure := MakeStaging();
      if failure.Some? { return Err(failure.value); }
      failure := DumpDesynced();
      if failure.Some? { return Err(failure.value); }
      r := PackAndGate(initial.value);
    }

    /** The elected donor's part. */
    method BackUp() returns (failure: Option<Failure>)
      requires At(AtGate(Guarding))
      modifies this`tick, this`clock, this`m, this`backend, this`workDir, this`state, this`metric, this`bridge, this`events
      ensures failure.None? ==> At(Ended(Ok(Finished)))
      ensures failure.Some? ==> Raises(failure.value)
    {
      hide Step, Run, Fail, Wants, Recorded, Shown, Tell, End, Noted;
      var size := Produce();
      if size.Err? { return Some(size.failure); }
      failure := PublishBackup();
      if failure.Some? { return; }
      failure := UpdateSuccess();
      if failure.Some? { return; }
      var last := ReadLastFailure();
      if last.Err? { return Some(last.failure); }
      failure := ShowSuccess(last.value, size.value);
      if failure.Some? { return; }
      RunRetention(true);
      PublishDrillFreshness();
      FinalizeSuccess();
    }

    method Body() returns (r: Result<Done>)
      requires At(AtGate(Beginning))
      modifies this`tick, this`clock, this`m, this`backend, this`workDir, this`state, this`metric, this`bridge, this`events
      ensures r.Ok? ==> At(Ended(r))
      ensures r.Err? ==> Raises(r.failure)
    {
      hide Step, Run, Fail, Wants, Recorded, Shown, Tell, End, Noted;
      var elected := ElectSelf();
      if elected.Err? { return Err(elected.failure); }
      if !elected.value {
        DiscardMetricFile();
        DiscardBridgeFile();
        RunRetention(false);
        return Ok(NotElected);
      }
      var failure := BackUp();
      r := if failure.Some? then Err(failure.value) else Ok(Finished);
    }

    // ---- the failure path -----------------------------------------------------------------------------------------

    /** Close the backend, remove the work directory; what fails is noted on the error. An error that is no BackupError
        escapes from the removal. */
    method GiveBack(f: Failure) returns (g: Failure, escaped: bool)
      requires Raises(f)
      modifies this`tick, this`clock, this`m, this`backend, this`workDir
      ensures escaped ==> At(Ended(Err(g)))
      ensures !escaped ==> At(AtHandler(ReadingForFailure)) && m.raising.failure == g
    {
      hide Step, Run, Fail, Recorded, Shown, Tell, End, Noted;
      g, escaped := f, false;
      if backend {
        var closed := AskHandler(Close);
        backend := false;
        if closed.failure.Some? { g := Combine(g, closed.failure.value, E_STORAGE); }
      }
      if workDir {
        var removed := AskHandler(RemoveDir);
        if removed.failure == Some(Uncoded) { return Uncoded, true; }
        if removed.failure.Some? { g := Combine(g, removed.failure.value, E_STORAGE); } else { workDir := false; }
      }
    }

    method WriteFailure(g: Failure)
      requires At(AtHandler(WritingFailure)) && m.raising.failure == g
      modifies this`tick, this`clock, this`m, this`state, this`events
      ensures At(AtHandler(ReadingLast)) && m.raising.failure == g
    {
      hide Step, Run, Fail, Recorded, Shown, Tell, End, Noted;
      var written := AskHandler(WriteState);
      if written.Works() { state := Present(Updated(RecordOf(state), FailedWith(CodeOf(g, E_STORAGE)), clock)); }
      if written.failure.Some? { Emit(StateWriteFailure); }
    }

    /** Event and state file of a failed run; a failed write becomes an event. */
    method RecordFailure(g: Failure)
      requires At(AtHandler(ReadingForFailure)) && m.raising.failure == g
      modifies this`tick, this`clock, this`m, this`state, this`events
      ensures At(AtHandler(ReadingLast)) && m.raising.failure == g
    {
      hide Step, Run, Fail, Recorded, Shown, Tell, End, Noted;
      Emit(StateFailure(CodeOf(g, E_STORAGE)));
      var read := AskHandler(ReadState);
      if read.failure.Some? || state.Damaged? {
        Emit(StateWriteFailure);
      } else {
        WriteFailure(g);
      }
    }

    /** The metric of a failed run, which is obligatory; a failed write becomes an event. */
    method ShowFailure(g: Failure)
      requires At(AtHandler(ReadingLast)) && m.raising.failure == g
      modifies this`tick, this`clock, this`m, this`metric, this`events
      ensures At(Ended(Err(g)))
    {
      hide Step, Run, Noted, AfterClose, Recorded, Fail, Shown, Tell, End;
      var read := AskHandler(ReadState);
      var last := LastSuccess(state, read);
      var shown := AskHandler(WriteMetric);
      if shown.Takes() { metric := Some(Metrics(last, clock, 0, 0)); }
      if shown.failure.Some? { Emit(MetricsWriteFailure); }
    }

    /** The lock is taken: the state file says so, or an event that it could not be written. */
    method RecordLocked()
      requires At(AtRefusal(ReadingForLock))
      modifies this`tick, this`clock, this`m, this`state, this`events
      ensures At(AtRefusal(ReadingLastOfLock))
    {
      hide Step, Run, End, Shown, Fail, Recorded, Tell, Noted;
      var read := AskRefusal(ReadState);
      if read.failure.Some? || state.Damaged? {
        Emit(StateWriteFailure);
      } else {
        var written := AskRefusal(WriteState);
        if written.Works() { state := Present(Updated(RecordOf(state), LockedOut, clock)); }
        if written.failure.Some? { Emit(StateWriteFailure); }
      }
    }

    /** And the metric; its write has no guard here. */
    method ShowLocked() returns (g: Failure)
      requires At(AtRefusal(ReadingLastOfLock))
      modifies this`tick, this`clock, this`m, this`metric
      ensures At(Ended(Err(g)))
    {
      hide Step, Run, Recorded, Fail, Shown, Tell, End, Noted;
      var read := AskRefusal(ReadState);
      var last := LastSuccess(state, read);
      var shown := AskRefusal(WriteMetric);
      if shown.Takes() { metric := Some(Metrics(last, clock, 0, 0)); }
      g := if shown.failure.Some? then shown.failure.value else Coded(E_LOCKED, 0);
    }

    /** The `except` block. */
    method HandleFailure(f: Failure) returns (g: Failure)
      requires Raises(f)
      modifies this`tick, this`clock, this`m, this`backend, this`workDir, this`state, this`metric, this`events
      ensures At(Ended(Err(g)))
    {
      hide Step, Run, Fail, Recorded, Shown, Tell, End, Noted;
      var escaped;
      g, escaped := GiveBack(f);
      if !escaped {
        RecordFailure(g);
        ShowFailure(g);
      }
    }

    /** `run_backup` from the lock on: result, files and events are those of the machine run on the same answers, so all
        that is proved of its runs holds of this method; and the lock is released. */
    method RunBackup() returns (r: Result<Done>)
      requires Fresh()
      modifies this
      ensures origin == old(m) && At(Ended(r)) && !locked
      ensures Means(cfg, old(state), old(clock), m, r)
    {
      hide Step, Fail, Wants, Run, Recorded, Shown, Tell, End, Noted, Means, Start;
      ghost var clock0, files := clock, Files(state, metric, bridge);
      var taken := Acquired();
      if !taken {
        RecordLocked();
        var g := ShowLocked();
        r := Err(g);
      } else {
        locked := true;
        r := UnderLock();
        locked := false;
      }
      EndMeans(cfg, clock0, files, script, tick);
    }

    /** The `try` block and its `except` block. */
    method UnderLock() returns (r: Result<Done>)
      requires At(AtGate(Beginning)) && locked
      modifies this`tick, this`clock, this`m, this`backend, this`workDir, this`state, this`metric, this`bridge, this`events
      ensures At(Ended(r))
    {
      hide Step, Fail, Wants, Run, Recorded, Shown, Tell, End, Noted;
      r := Body();
      if r.Err? {
        var g := HandleFailure(r.failure);
        r := Err(g);
      }
    }

    method Acquired() returns (taken: bool)
      requires Fresh()
      modifies this`tick, this`clock, this`m, this`events
      ensures taken ==> At(AtGate(Beginning))
      ensures !taken ==> At(AtRefusal(ReadingForLock))
    {
      hide GateStep, DumpStep, TailStep, RetentionStep, SkipStep, HandlerStep, PublicationStep, RefusalStep;
      var reply := Ask(Acquire);
      taken := reply.failure.None?;
      if !taken { Emit(Locked); }
    }
  }
}
