/** What the answers of a backup run lead to, read off the answers: which of them are raised over, and with which error. */
module RunVerdicts {
  import opened Errors
  import opened Strings
  import opened Election
  import opened RunMachine
  import opened RunOrder
  import opened RunTry
  import opened RunOutcome

  /** A call that only the `try` part makes and whose error it raises as it is. */
  predicate RaisesAsIs(op: Op) {
    op.AskDonor? || op.AskWriter? || op.Build? || op.Preflight? || op.QueryHealth? || op.DiskUsage? || op.MakeDir?
    || op.Restrict? || op.QueryLocal? || op.DesyncOn? || op.DesyncOff? || op.Poll? || op.Pack? || op.QueryFlow? || op.Publish?
  }

  /** How many seconds these polls have taken, with the five seconds after each of them. */
  function Waited(polls: seq<Entry>): nat {
    if polls == [] then 0 else Waited(polls[..|polls| - 1]) + polls[|polls| - 1].reply.elapsed + 5
  }

  /** Call number `k` returned, and what it returned is raised over. */
  ghost predicate RaisedOver(c: Settings, s0: StateFile, j: seq<Entry>, k: nat, f: Failure)
    requires k < |j|
  {
    var r, v, node := j[k].reply, j[k].reply.vars, c.node;
    match j[k].op
    case ReadState =>
      k == 1 && j[0].reply.failure.None?
      && ((s0.Damaged? && f == Coded(E_STATE, 0))
          || (!s0.Damaged? && !node.electionSet && f == Coded(E_CONFIG, 0))
          || (!s0.Damaged? && node.electionSet && !node.credentials && f == Coded(E_SECRETS, 0)))
    case AskDonor =>
      var me := Strip(node.address);
      if r.rows.None? || !(exists x :: Online(node, r.rows.value, x)) then f == Coded(E_PROXYSQL, 0)
      else f == Coded(E_CONFIG, 0) && (me == [] || (IsDonor(node, r.rows.value, me) && !node.guardSet))
    case AskWriter =>
      if r.rows.Some? && OneWriter(node, r.rows.value, true) then f == Coded(E_WRITER, 0)
      else (r.rows.None? || !OneWriter(node, r.rows.value, false)) && f == Coded(E_PROXYSQL, 0)
    case QueryHealth =>
      if v.size.None? then f == Uncoded
      else if v.comment != "Synced" || v.status != "Primary" || v.ready != "ON" || v.connected != "ON"
              || v.size != Some(c.expected)
      then f == Coded(E_GALERA, 0)
      else (v.paused.Missing? && f == Coded(E_GALERA, 0)) || (v.paused.NotANumber? && f == Uncoded)
    case DiskUsage => r.number < 524288000 && f == Coded(E_STORAGE, 0)
    case Poll => k >= 14 && v.comment != "Synced" && Waited(j[14..k]) + r.elapsed >= 900 && f == Coded(E_GALERA, 0)
    case QueryFlow =>
      if v.paused.Missing? then f == Coded(E_GALERA, 0)
      else if v.paused.NotANumber? then f == Uncoded
      else |j| > 6 && j[6].reply.vars.paused.Number? && v.paused.n - j[6].reply.vars.paused.n > c.threshold
           && f == Coded(E_FLOW_CONTROL, 0)
    case _ => false
  }

  /** Call number `k` ends the `try` part: it raised `f`, or returned what is raised over with `f`. */
  ghost predicate Stops(c: Settings, s0: StateFile, j: seq<Entry>, k: nat, f: Failure) {
    k < |j|
    && if j[k].reply.failure.Some? then RaisesAsIs(j[k].op) && f == j[k].reply.failure.value else RaisedOver(c, s0, j, k, f)
  }

  /** `g` is `f` with notes, or a removal of the work directory later on has raised what the handler does not catch. */
  ghost predicate RaisedAs(j: seq<Entry>, k: nat, f: Failure, g: Failure) {
    (if g.Coded? then g.code == (if f.Coded? then f.code else E_STORAGE) else f == Uncoded)
    || (g == Uncoded && exists i | k < i < |j| :: j[i].op.RemoveDir? && j[i].reply.failure == Some(Uncoded))
  }

  // ---- the step of such a call ------------------------------------------------------------------------------------

  /** What is raised over at a gate is what the gate objects to. */
  lemma GateRaisedOver(c: Settings, s0: StateFile, j: seq<Entry>, g: Gate, f: Failure)
    requires var k := Rank(g); k < |j| && j[k].op == OpOfGate(g) && Stops(c, s0, j, k, f)
    requires g.Beginning? || (c.node.electionSet && c.node.credentials && (g.Guarding? ==> c.node.guardSet))
    ensures Objection(c, g, s0, j[Rank(g)].reply) == Some(f)
  {
    var rows := j[Rank(g)].reply.rows;
    if g.Electing? { DonorRefused(c, rows); }
    GuardPassesIff(c.node, rows);
    hide Elect, Guard, Strip, IsDonor, Online, OneWriter;
  }

  lemma DonorRefused(c: Settings, rows: Option<seq<string>>)
    requires c.node.electionSet && c.node.credentials
    ensures Elect(c.node, rows).Err? <==> rows.None? || !(exists x :: Online(c.node, rows.value, x))
    ensures Elect(c.node, rows).Err? ==> Elect(c.node, rows) == Err(Coded(E_PROXYSQL, 0))
    ensures var me := Strip(c.node.address);
      Elect(c.node, rows) == Ok(me) <==> rows.Some? && IsDonor(c.node, rows.value, me)
  {
    ElectIff(c.node, rows, Strip(c.node.address));
    hide Strip;
    if rows.Some? {
      assert forall x :: Online(c.node, rows.value, x) <==> x in Candidates(c.node, rows.value);
      hide Online, Candidates, IsDonor, Le, Least;
    }
  }

  /** The settings that the gates before this one have looked at. */
  lemma SettingsSeen(c: Settings, s0: StateFile, j: seq<Entry>, g: Gate)
    requires Passed(c, s0, j, Rank(g))
    ensures !g.Beginning? ==> c.node.electionSet && c.node.credentials
    ensures !g.Beginning? && !g.Electing? ==> c.node.guardSet
  {
    if !g.Beginning? { EarlyGateIff(c, s0, j[1], 1); assert PassedGate(c, s0, j[1], 1); }
    if !g.Beginning? && !g.Electing? { EarlyGateIff(c, s0, j[2], 2); assert PassedGate(c, s0, j[2], 2); }
    hide PassedGate, IsDonor, OneWriter, Strip;
  }

  /** Into the failure path with `f`, right after call number `k`. */
  predicate Raises(n: Machine, k: nat, f: Failure) {
    n.phase.AtHandler? && n.raising.primary == Some(f) && n.raising.left == k + 1
  }

  lemma GateStops(c: Settings, s0: StateFile, m: Machine, r: Reply, j: seq<Entry>, f: Failure)
    requires History(c, s0, m) && m.phase.AtGate? && |j| > |m.journal|
    requires j[|m.journal|] == Entry(Wants(m.phase), r) && Stops(c, s0, j, |m.journal|, f)
    ensures Raises(Step(c, m, r), |m.journal|, f)
  {
    var g := m.phase.gate;
    SettingsSeen(c, s0, m.journal, g);
    GateRaisedOver(c, s0, j, g, f);
    IsGateStep(c, m, r);
    hide Step, Stops, Objection, Passed;
  }

  /** While a node is polled, the clock shows how long. */
  predicate PollTime(m: Machine) {
    m.phase.AtDump? && m.phase.dumping.Polling? ==>
      |m.journal| >= 14 && m.clock == m.phase.dumping.deadline - 900 + Waited(m.journal[14..])
  }

  lemma PollTimeStep(c: Settings, s0: StateFile, m: Machine, r: Reply)
    requires History(c, s0, m) && PollTime(m)
    ensures PollTime(Step(c, m, r))
  {
    hide Step, History, DumpStep, Logged, Waited;
    if m.phase.AtDump? {
      PollClock(c, m, r);
      DumpHistory(c, s0, m);
      if m.phase.dumping.Polling? {
        WaitedMore(m.journal, Entry(Poll, r));
      } else if m.phase.dumping.SwitchingOff? {
        NothingWaited(m.journal + [Entry(DesyncOff, r)]);
      }
    } else {
      NoPollYet(c, m, r);
    }
  }

  lemma PollClock(c: Settings, m: Machine, r: Reply)
    requires m.phase.AtDump?
    ensures var n, d := Step(c, m, r), m.phase.dumping;
      n.journal == m.journal + [Entry(OpOfDump(d), r)]
      && (n.phase.AtDump? && n.phase.dumping.Polling? ==>
            (d.SwitchingOff? && n.clock == m.clock + r.elapsed && n.phase.dumping.deadline == n.clock + 900)
            || (d.Polling? && n.clock == m.clock + r.elapsed + 5 && n.phase.dumping.deadline == d.deadline))
  {
    assert Step(c, m, r) == DumpStep(Logged(m, r), r);
    hide Step;
  }

  lemma NothingWaited(j: seq<Entry>)
    requires |j| == 14
    ensures Waited(j[14..]) == 0
  {
  }

  lemma DumpHistory(c: Settings, s0: StateFile, m: Machine)
    requires History(c, s0, m) && m.phase.AtDump?
    ensures DumpStands(m.phase.dumping, m.seen.switched, m.journal)
  {
    hide Passed, DumpStands;
  }

  lemma WaitedMore(j: seq<Entry>, e: Entry)
    requires |j| >= 14
    ensures Waited((j + [e])[14..]) == Waited(j[14..]) + e.reply.elapsed + 5
  {
    assert (j + [e])[14..] == j[14..] + [e] && (j[14..] + [e])[..|j[14..]|] == j[14..];
  }

  lemma NoPollYet(c: Settings, m: Machine, r: Reply)
    requires !m.phase.AtDump?
    ensures !(Step(c, m, r).phase.AtDump? && Step(c, m, r).phase.dumping.Polling?)
  {
    if m.phase.AtGate? { IsGateStep(c, m, r); GateLeads(c, Logged(m, r), r); hide Step, GateStep; }
    else { OthersLeave(c, m, r); hide Fail, Tell, RunMachine.Recorded, Shown; }
  }

  lemma {:induction false} RunPollTime(c: Settings, clock: int, files: Files, script: (nat, Op) -> Reply, n: nat)
    ensures PollTime(Run(c, Start(clock, files), script, n))
  {
    hide Step, PollTime, InOrder;
    StartPollTime(clock, files);
    if n > 0 {
      RunPollTime(c, clock, files, script, n - 1);
      RunInOrder(c, clock, files, script, n - 1);
      var p := Run(c, Start(clock, files), script, n - 1);
      RunMore(c, Start(clock, files), script, n);
      hide *;
      OrderGives(c, files.state, p);
      if !p.phase.Ended? { PollTimeStep(c, files.state, p, script(n - 1, Wants(p.phase))); }
    }
  }

  lemma StartPollTime(clock: int, files: Files)
    ensures PollTime(Start(clock, files))
  {
  }

  lemma DumpStops(c: Settings, s0: StateFile, m: Machine, r: Reply, j: seq<Entry>, f: Failure)
    requires m.phase.AtDump? && !m.phase.dumping.Dumping? && PollTime(m) && |j| > |m.journal|
    requires j[|m.journal|] == Entry(Wants(m.phase), r) && j[..|m.journal|] == m.journal && Stops(c, s0, j, |m.journal|, f)
    ensures Raises(Step(c, m, r), |m.journal|, f)
  {
    assert Step(c, m, r) == DumpStep(Logged(m, r), r);
    hide Step, Online, IsDonor, OneWriter, Strip;
    if r.failure.None? { assert m.journal[14..] == j[14..|m.journal|]; }
  }

  /** The polls go on for fifteen minutes: a node that is not yet Synced is asked again. */
  lemma PollsOn(c: Settings, clock: int, files: Files, script: (nat, Op) -> Reply, n: nat, k: nat)
    requires var j := Run(c, Start(clock, files), script, n).journal;
      14 <= k < |j| - 1 && j[k].op.Poll? && j[k].reply.failure.None? && j[k].reply.vars.comment != "Synced"
      && Waited(j[14..k]) + j[k].reply.elapsed < 900
    ensures Run(c, Start(clock, files), script, n).journal[k + 1].op.Poll?
  {
    hide *;
    RecordedStep(c, clock, files, script, n, k);
    RecordedStep(c, clock, files, script, n, k + 1);
    RunPollTime(c, clock, files, script, k);
    var j, p := Run(c, Start(clock, files), script, n).journal, Run(c, Start(clock, files), script, k);
    PolledAgain(c, p, j, k);
  }

  lemma PolledAgain(c: Settings, m: Machine, j: seq<Entry>, k: nat)
    requires 14 <= k < |j| - 1 && !m.phase.Ended? && m.journal == j[..k] && PollTime(m)
    requires j[k].op.Poll? && j[k].op == Wants(m.phase) && j[k].reply.failure.None? && j[k].reply.vars.comment != "Synced"
    requires Waited(j[14..k]) + j[k].reply.elapsed < 900
    requires var q := Step(c, m, j[k].reply); !q.phase.Ended? && j[k + 1].op == Wants(q.phase)
    ensures j[k + 1].op.Poll?
  {
    hide *;
    OnlyThereItPolls(m.phase);
    assert m.journal[14..] == j[14..k];
    PollAgain(c, m, j[k].reply);
  }

  lemma PollAgain(c: Settings, m: Machine, r: Reply)
    requires m.phase.AtDump? && m.phase.dumping.Polling? && PollTime(m) && r.failure.None? && r.vars.comment != "Synced"
    requires Waited(m.journal[14..]) + r.elapsed < 900
    ensures var p := Step(c, m, r).phase; !p.Ended? && Wants(p).Poll?
  {
    assert Step(c, m, r) == DumpStep(Logged(m, r), r);
    hide Step;
  }

  lemma OnlyThereItPolls(p: Phase)
    ensures !p.Ended? && Wants(p).Poll? ==> p.AtDump? && p.dumping.Polling?
  {
  }

  lemma PublicationStops(c: Settings, s0: StateFile, m: Machine, r: Reply, j: seq<Entry>, f: Failure)
    requires History(c, s0, m) && m.phase.AtPublication?
    requires m.phase.closing.Packing? || m.phase.closing.CheckingFlow? || m.phase.closing.Publishing?
    requires |j| > |m.journal| && j[|m.journal|] == Entry(Wants(m.phase), r) && j[..|m.journal|] == m.journal
    requires Stops(c, s0, j, |m.journal|, f)
    ensures Raises(Step(c, m, r), |m.journal|, f)
  {
    HealthSeen(c, s0, m);
    assert m.seen.health == j[6].reply.vars by { assert j[6] == m.journal[6]; }
    FlowRaised(c, s0, j, |m.journal|, f);
    hide History, Stops, FlowObjection;
    assert Step(c, m, r) == PublicationStep(c, Logged(m, r), r);
    hide Step;
    PublicationFails(c, Logged(m, r), r, f);
    hide PublicationStep;
  }

  lemma FlowRaised(c: Settings, s0: StateFile, j: seq<Entry>, k: nat, f: Failure)
    requires |j| > 6 && Stops(c, s0, j, k, f) && (j[k].op.Pack? || j[k].op.QueryFlow? || j[k].op.Publish?)
    ensures if j[k].op.QueryFlow? then FlowObjection(c, j[6].reply.vars, j[k].reply) == Some(f)
            else j[k].reply.failure == Some(f)
  {
    hide IsDonor, Online, OneWriter, Strip;
  }

  lemma PublicationFails(c: Settings, m: Machine, r: Reply, f: Failure)
    requires m.phase.AtPublication?
    requires m.phase.closing.Packing? || m.phase.closing.CheckingFlow? || m.phase.closing.Publishing?
    requires if m.phase.closing.CheckingFlow? then FlowObjection(c, m.seen.health, r) == Some(f) else r.failure == Some(f)
    ensures PublicationStep(c, m, r) == Fail(m, f)
  {
    hide Fail, FlowObjection;
  }

  lemma HealthSeen(c: Settings, s0: StateFile, m: Machine)
    requires History(c, s0, m) && m.phase.AtPublication?
    ensures |m.journal| > 10 && m.seen.health == m.journal[6].reply.vars
  {
    hide Dumped, Cleared, PassedGate;
  }

  /** Where such calls are made. */
  lemma WhereStopped(c: Settings, s0: StateFile, m: Machine, r: Reply, j: seq<Entry>, f: Failure)
    requires History(c, s0, m) && Explains(c, s0, m) && !m.phase.Ended? && |j| > |m.journal|
    requires j[|m.journal|] == Entry(Wants(m.phase), r) && j[..|m.journal|] == m.journal && Stops(c, s0, j, |m.journal|, f)
    ensures m.phase.AtGate? || (m.phase.AtDump? && !m.phase.dumping.Dumping?)
            || (m.phase.AtPublication?
                && (m.phase.closing.Packing? || m.phase.closing.CheckingFlow? || m.phase.closing.Publishing?))
  {
    OnlyThereItRaises(m.phase);
    StopOps(c, s0, j, |m.journal|, f);
    hide Stops, History, Explains, Wants, RaisesAsIs;
    if |m.journal| == 1 && j[1].op.ReadState? {
      assert j[0] == m.journal[0];
      SecondReads(c, s0, m);
    }
  }

  lemma OnlyThereItRaises(p: Phase)
    ensures !p.Ended? && RaisesAsIs(Wants(p)) ==>
      p.AtGate? || (p.AtDump? && !p.dumping.Dumping?)
      || (p.AtPublication? && (p.closing.Packing? || p.closing.CheckingFlow? || p.closing.Publishing?))
  {
  }

  lemma StopOps(c: Settings, s0: StateFile, j: seq<Entry>, k: nat, f: Failure)
    requires Stops(c, s0, j, k, f)
    ensures RaisesAsIs(j[k].op) || (k == 1 && j[1].op.ReadState? && j[0].reply.Works())
  {
    hide IsDonor, Online, OneWriter, Strip;
  }

  /** The second call of a run that holds the lock is that of the first gate. */
  lemma SecondReads(c: Settings, s0: StateFile, m: Machine)
    requires History(c, s0, m) && Explains(c, s0, m) && !m.phase.Ended? && Wants(m.phase).ReadState?
    requires |m.journal| == 1 && m.journal[0].reply.Works()
    ensures m.phase.AtGate?
  {
    if m.phase.AtHandler? { HandlesLong(c, s0, m); }
    hide Smooth, Handles, FailedProperly, RefusedProperly, PassedGate, Dumped, Cleared;
  }

  lemma HandlesLong(c: Settings, s0: StateFile, m: Machine)
    requires Handles(c, s0, m)
    ensures |m.journal| > 1
  {
    hide Handled, Raised, Quiet;
  }

  lemma StopStep(c: Settings, s0: StateFile, m: Machine, r: Reply, j: seq<Entry>, f: Failure)
    requires History(c, s0, m) && Explains(c, s0, m) && PollTime(m) && !m.phase.Ended? && |j| > |m.journal|
    requires j[|m.journal|] == Entry(Wants(m.phase), r) && j[..|m.journal|] == m.journal && Stops(c, s0, j, |m.journal|, f)
    ensures Raises(Step(c, m, r), |m.journal|, f)
  {
    WhereStopped(c, s0, m, r, j, f);
    hide Step, History, Explains, Stops, Raises, PollTime;
    if m.phase.AtGate? { GateStops(c, s0, m, r, j, f); }
    else if m.phase.AtDump? { DumpStops(c, s0, m, r, j, f); }
    else { PublicationStops(c, s0, m, r, j, f); }
  }

  // ---- to the end of the run --------------------------------------------------------------------------------------

  /** Every call on record was made by the run at its place. */
  lemma {:induction false} RecordedStep(c: Settings, clock: int, files: Files, script: (nat, Op) -> Reply, n: nat, k: nat)
    requires k < |Run(c, Start(clock, files), script, n).journal|
    ensures var j, p := Run(c, Start(clock, files), script, n).journal, Run(c, Start(clock, files), script, k);
      k < n && !p.phase.Ended? && p.journal == j[..k] && j[k] == Entry(Wants(p.phase), script(k, Wants(p.phase)))
      && Run(c, Start(clock, files), script, k + 1) == Step(c, p, script(k, Wants(p.phase)))
  {
    hide Step, Wants;
    if n > 0 {
      var p := Run(c, Start(clock, files), script, n - 1);
      RunMore(c, Start(clock, files), script, n);
      JournalIsTrue(c, clock, files, script, n - 1);
      if !p.phase.Ended? { StepLogs(c, p, script(n - 1, Wants(p.phase))); }
      if k < |p.journal| { RecordedStep(c, clock, files, script, n - 1, k); }
      hide Run, AnswersOf;
    }
  }

  /** From the failure path a run comes to the end with the error it was entered with. */
  lemma {:induction false} RaisedToTheEnd(c: Settings, clock: int, files: Files, script: (nat, Op) -> Reply, k: nat, n: nat,
                                          f: Failure)
    requires k < n && Raises(Run(c, Start(clock, files), script, k + 1), k, f)
    ensures var m := Run(c, Start(clock, files), script, n);
      Raises(m, k, f)
      || (m.phase.Ended? && m.phase.result.Err? && FailedAfter(c, files.state, m, k + 1, f, m.phase.result.failure))
    decreases n
  {
    hide Run, Step, FailedAfter, Start;
    if n > k + 1 {
      RaisedToTheEnd(c, clock, files, script, k, n - 1, f);
      var p := Run(c, Start(clock, files), script, n - 1);
      RunMore(c, Start(clock, files), script, n);
      RunExplains(c, clock, files, script, n - 1);
      hide *;
      if !p.phase.Ended? { RaisedOn(c, files.state, p, script(n - 1, Wants(p.phase)), k, f); }
    }
  }

  lemma RaisedOn(c: Settings, s0: StateFile, m: Machine, r: Reply, k: nat, f: Failure)
    requires Explains(c, s0, m) && Raises(m, k, f)
    ensures var n := Step(c, m, r);
      Raises(n, k, f)
      || (n.phase.Ended? && n.phase.result.Err? && FailedAfter(c, s0, n, k + 1, f, n.phase.result.failure))
  {
    IsHandlerStep(c, m, r);
    HandlerStays(m, r);
    assert Handles(c, s0, m) by { hide Handles, Smooth, FailedProperly, RefusedProperly; }
    hide Handles, HandlerStep, Explains, Wants, Logged, Step, FailedAfter;
    if HandlerStep(Logged(m, r), r).phase.Ended? { HandlesToTheEnd(c, s0, m, r); }
  }

  /** What the failure path makes of the error. */
  lemma EndingRaises(c: Settings, s0: StateFile, m: Machine, k: nat, f: Failure, g: Failure)
    requires FailedAfter(c, s0, m, k + 1, f, g)
    ensures RaisedAs(m.journal, k, f, g)
  {
    var tail, held := m.journal[k + 1..], HeldBy(m.journal[..k + 1]);
    assert Ending(m, f, tail, held, s0.Damaged?, g);
    hide FailedAfter, HeldBy, Left;
    if Escaped(tail, held) {
      var i := RemovalAt(held);
      assert tail[i] == m.journal[k + 1 + i] && tail[i].op.RemoveDir?;
    } else {
      NotesAdd(f, tail, held);
      hide HandlerCalls, StateSays, MetricSays, Ending, WithNotes;
    }
  }

  lemma NotesAdd(f: Failure, k: seq<Entry>, held: Held)
    ensures var g := WithNotes(f, k, held);
      if g.Coded? then g.code == (if f.Coded? then f.code else E_STORAGE) else f == Uncoded
  {
  }

  /** A call of the `try` part that raised, or returned what is not good enough, makes the run raise this very error, with the
      notes of the clean-up: none is passed over and none is taken for another. Only the removal of the work directory can
      replace it. */
  lemma StopIsRaised(c: Settings, clock: int, files: Files, script: (nat, Op) -> Reply, n: nat, k: nat, f: Failure)
    requires var m := Run(c, Start(clock, files), script, n); m.phase.Ended? && Stops(c, files.state, m.journal, k, f)
    ensures var m := Run(c, Start(clock, files), script, n);
      m.phase.result.Err? && FailedAfter(c, files.state, m, k + 1, f, m.phase.result.failure)
      && RaisedAs(m.journal, k, f, m.phase.result.failure)
  {
    var m, p := Run(c, Start(clock, files), script, n), Run(c, Start(clock, files), script, k);
    assert k < |m.journal|;
    RecordedStep(c, clock, files, script, n, k);
    RunExplains(c, clock, files, script, k);
    RunInOrder(c, clock, files, script, k);
    RunPollTime(c, clock, files, script, k);
    OrderGives(c, files.state, p);
    hide PollTime, Run, Step, Stops, FailedAfter, RaisedAs, Explains, History, InOrder, Raises, Start;
    StopStep(c, files.state, p, script(k, Wants(p.phase)), m.journal, f);
    RaisedToTheEnd(c, clock, files, script, k, n, f);
    assert Raises(m, k, f) ==> !m.phase.Ended? by { RaisesMeans(m, k, f); }
    EndingRaises(c, files.state, m, k, f, m.phase.result.failure);
  }

  lemma RaisesMeans(m: Machine, k: nat, f: Failure)
    ensures Raises(m, k, f) ==> m.phase.AtHandler?
  {
  }
}
