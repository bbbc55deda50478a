/** The `try` part of a backup run: after which call it is left, and with which error. */
module RunTry {
  import opened Errors
  import opened Strings
  import opened Election
  import opened RunMachine
  import opened RunOrder

  /** What call number `k` of the `try` part has against going on: it raised, or its answer is not good enough. */
  function Complaint(c: Settings, s0: StateFile, j: seq<Entry>, k: nat): Option<Failure>
    requires k < |j|
  {
    var e := j[k];
    if e.reply.failure.Some? then Some(if e.op.ReadState? then Coded(E_STATE, 0) else e.reply.failure.value)
    else if k <= 10 then Objection(c, GateAt(k), s0, e.reply)
    else if e.op.QueryFlow? then FlowObjection(c, j[6].reply.vars, e.reply)
    else if e.op.Poll? && !Synced(e) then Some(Coded(E_GALERA, 0))
    else None
  }

  /** The two complaints that are not raised at once: over a dump, before the OFF that follows it, and over a node that a
      poll has not seen Synced, before the next poll. */
  predicate Excused(j: seq<Entry>, k: nat)
    requires k < |j|
  {
    (j[k].op.Poll? && j[k].reply.Works()) || (j[k].op.Dump? && k + 1 < |j| && j[k + 1].op.DesyncOff?)
  }

  /** None of the first `n` calls was anything to raise over. */
  ghost predicate Quiet(c: Settings, s0: StateFile, j: seq<Entry>, n: nat) {
    n <= |j| && forall k | 1 <= k < n :: Complaint(c, s0, j, k).None? || Excused(j, k)
  }

  /** What the `try` part raises when these are its calls: what its last call complains of, or, when that was the poll that
      saw the node Synced again, what the dump had raised. */
  function Raised(c: Settings, s0: StateFile, j: seq<Entry>): Option<Failure> {
    if j == [] then None
    else if Complaint(c, s0, j, |j| - 1).Some? then Complaint(c, s0, j, |j| - 1)
    else if |j| > 14 && Called(j, 12, Dump) && Called(j, 13, DesyncOff) && Synced(j[|j| - 1]) then j[12].reply.failure
    else None
  }

  /** The `try` part is left after these calls with `f`: the last of them raises it, and none before it was to raise. */
  ghost predicate Left(c: Settings, s0: StateFile, j: seq<Entry>, f: Failure) {
    |j| > 1 && Worked(j, 0, Acquire) && Raised(c, s0, j) == Some(f) && Quiet(c, s0, j, |j| - 1)
  }

  /** What a run has got hold of by these calls. */
  function HeldBy(j: seq<Entry>): Held { Held(Worked(j, 4, Build), Worked(j, 8, MakeDir)) }

  predicate Trying(p: Phase) { p.Locking? || p.AtGate? || p.AtDump? || p.AtPublication? }

  predicate Settled(p: Phase) { !(p.AtDump? && p.dumping.SwitchingOff?) }

  /** What holds as long as the `try` part goes on. */
  ghost predicate Smooth(c: Settings, s0: StateFile, m: Machine) {
    m.raising.primary.None? && m.held == HeldBy(m.journal)
    && (m.files.state.Damaged? <==> s0.Damaged?)
    && (s0.Damaged? ==> m.phase.Locking? || m.phase == AtGate(Beginning))
    && (if Settled(m.phase) then Quiet(c, s0, m.journal, |m.journal|) else Quiet(c, s0, m.journal, 12))
  }

  /** The entrance to the failure path. */
  ghost predicate Entered(c: Settings, s0: StateFile, n: Machine) {
    n.phase.AtHandler? && n.raising.primary.Some?
    && n.raising == Raising(n.raising.primary, n.raising.primary.value, |n.journal|)
    && Left(c, s0, n.journal, n.raising.primary.value) && n.held == HeldBy(n.journal)
    && (n.files.state.Damaged? <==> s0.Damaged?)
    && n.phase.handling == if n.held.backend then HandlingClose
                           else if n.held.workDir then HandlingRemove else ReadingForFailure
  }

  /** Where a step of the `try` part leads. */
  ghost predicate Leads(c: Settings, s0: StateFile, n: Machine) {
    if Trying(n.phase) then Smooth(c, s0, n)
    else if n.phase.AtHandler? then Entered(c, s0, n)
    else if n.phase.AtRefusal?
    then n.phase.refusing.ReadingForLock? && n.raising.primary.None? && n.files.state == s0 && n.held == Held(false, false)
         && |n.journal| == 1 && n.journal[0].op.Acquire? && !n.journal[0].reply.Works()
    else n.raising.primary.None? && (n.phase.AtRetention? || n.phase.AtTail? || n.phase.DiscardingMetric?)
  }

  // ---- one call more ----------------------------------------------------------------------------------------------

  lemma QuietStill(c: Settings, s0: StateFile, j: seq<Entry>, n: nat, e: Entry)
    requires Quiet(c, s0, j, n)
    ensures Quiet(c, s0, j + [e], n)
  {
    hide Objection, FlowObjection, Synced;
    forall k | 1 <= k < n ensures Complaint(c, s0, j + [e], k).None? || Excused(j + [e], k) {
      assert Complaint(c, s0, j, k).None? || Excused(j, k);
      SameComplaint(c, s0, j, k, e);
    }
  }

  lemma SameComplaint(c: Settings, s0: StateFile, j: seq<Entry>, k: nat, e: Entry)
    requires k < |j|
    ensures Complaint(c, s0, j + [e], k) == Complaint(c, s0, j, k)
  {
    hide Objection, FlowObjection, Synced;
  }

  lemma QuietMore(c: Settings, s0: StateFile, j: seq<Entry>, e: Entry)
    requires Quiet(c, s0, j, |j|)
    requires Complaint(c, s0, j + [e], |j|).None? || (e.op.Poll? && e.reply.Works())
    ensures Quiet(c, s0, j + [e], |j| + 1)
  {
    QuietStill(c, s0, j, |j|, e);
    hide Complaint;
  }

  /** The OFF excuses the dump before it. */
  lemma QuietOff(c: Settings, s0: StateFile, j: seq<Entry>, e: Entry)
    requires Quiet(c, s0, j, 12) && |j| == 13 && Called(j, 12, Dump) && e.op.DesyncOff?
    ensures Quiet(c, s0, j + [e], 13)
  {
    QuietStill(c, s0, j, 12, e);
    hide Complaint;
  }

  lemma LeftNow(c: Settings, s0: StateFile, j: seq<Entry>, f: Failure)
    requires |j| > 1 && Worked(j, 0, Acquire) && Quiet(c, s0, j, |j| - 1) && Complaint(c, s0, j, |j| - 1) == Some(f)
    ensures Left(c, s0, j, f)
  {
    hide Complaint;
  }

  lemma LeftByDump(c: Settings, s0: StateFile, j: seq<Entry>, f: Failure)
    requires |j| > 14 && Worked(j, 0, Acquire) && Quiet(c, s0, j, |j| - 1)
    requires Called(j, 12, Dump) && j[12].reply.failure == Some(f) && Called(j, 13, DesyncOff) && Synced(j[|j| - 1])
    ensures Left(c, s0, j, f)
  {
    hide Objection, FlowObjection;
    assert Complaint(c, s0, j, |j| - 1).None?;
  }

  lemma FailEnters(c: Settings, s0: StateFile, m: Machine, f: Failure)
    requires Left(c, s0, m.journal, f) && m.held == HeldBy(m.journal) && (m.files.state.Damaged? <==> s0.Damaged?)
    ensures Leads(c, s0, Fail(m, f)) && Entered(c, s0, Fail(m, f))
  {
    hide Left, HeldBy, Fail;
  }

  /** The last call raises. */
  lemma FailsNow(c: Settings, s0: StateFile, m: Machine, f: Failure)
    requires |m.journal| > 1 && Worked(m.journal, 0, Acquire) && Quiet(c, s0, m.journal, |m.journal| - 1)
    requires Complaint(c, s0, m.journal, |m.journal| - 1) == Some(f)
    requires m.held == HeldBy(m.journal) && (m.files.state.Damaged? <==> s0.Damaged?)
    ensures Leads(c, s0, Fail(m, f))
  {
    LeftNow(c, s0, m.journal, f);
    hide Quiet, Complaint, HeldBy;
    FailEnters(c, s0, m, f);
  }

  /** The dump raises, once the node is back. */
  lemma FailsByDump(c: Settings, s0: StateFile, m: Machine, j: seq<Entry>, e: Entry, f: Failure)
    requires m.journal == j + [e] && |j| >= 14 && Worked(m.journal, 0, Acquire) && Quiet(c, s0, m.journal, |j|) && Synced(e)
    requires Called(j, 12, Dump) && j[12].reply.failure == Some(f) && Called(j, 13, DesyncOff)
    requires m.held == HeldBy(m.journal) && (m.files.state.Damaged? <==> s0.Damaged?)
    ensures Leads(c, s0, Fail(m, f))
  {
    var k := m.journal;
    assert k[12] == j[12] && k[13] == j[13] && k[|j|] == e;
    hide Quiet, HeldBy, Fail, Leads;
    LeftByDump(c, s0, k, f);
    FailEnters(c, s0, m, f);
  }

  lemma HeldMore(j: seq<Entry>, e: Entry)
    ensures |j| != 4 && |j| != 8 ==> HeldBy(j + [e]) == HeldBy(j)
    ensures |j| == 4 && e.op.Build? ==> HeldBy(j + [e]) == Held(e.reply.Works(), false)
    ensures |j| == 8 && e.op.MakeDir? ==> HeldBy(j + [e]) == Held(HeldBy(j).backend, e.reply.Works())
  {
  }

  // ---- the gates --------------------------------------------------------------------------------------------------

  /** A gate that lets the run pass, or objects. */
  lemma GateMoves(c: Settings, m: Machine, r: Reply)
    requires m.phase.AtGate?
    ensures var g, n, o := m.phase.gate, GateStep(c, m, r), Objection(c, m.phase.gate, m.files.state, r);
      (o.Some? ==> n == Fail(m, o.value))
      && (o.None? ==> n.journal == m.journal && n.raising == m.raising && n.files == m.files && r.Works()
                      && n.held == Held(m.held.backend || g.Building?, m.held.workDir || g.MakingDir?)
                      && ((g.Electing? && n.phase.DiscardingMetric?) || n.phase == AtGate(NextGate(g))
                          || (g.ReadingLocal? && n.phase.AtDump? && (n.phase.dumping.SwitchingOn? || n.phase.dumping.Dumping?)))
                      && (n.phase.AtGate? ==> !g.ReadingLocal?))
  {
    assert Objection(c, m.phase.gate, m.files.state, r).None? ==> r.Works();
    hide Fail, Tell, Objection, Elect, Strip;
  }

  /** What a gate objects to is what its entry complains of. */
  lemma GateComplains(c: Settings, s0: StateFile, j: seq<Entry>, g: Gate, r: Reply)
    requires |j| == Rank(g)
    ensures Complaint(c, s0, j + [Entry(OpOfGate(g), r)], |j|) == Objection(c, g, s0, r)
  {
    GateRanks(g);
    assert (j + [Entry(OpOfGate(g), r)])[|j|] == Entry(OpOfGate(g), r);
    assert r.failure.Some? ==>
           Objection(c, g, s0, r) == Some(if OpOfGate(g).ReadState? then Coded(E_STATE, 0) else r.failure.value);
    hide Objection, FlowObjection;
  }

  lemma HeldAtGate(c: Settings, s0: StateFile, m: Machine, r: Reply)
    requires History(c, s0, m) && m.phase.AtGate? && m.held == HeldBy(m.journal)
    ensures var g := m.phase.gate;
      HeldBy(m.journal + [Entry(OpOfGate(g), r)])
      == Held(m.held.backend || (g.Building? && r.Works()), m.held.workDir || (g.MakingDir? && r.Works()))
  {
    hide Passed;
    HeldMore(m.journal, Entry(OpOfGate(m.phase.gate), r));
  }

  lemma GateLeadsOn(c: Settings, s0: StateFile, m: Machine, r: Reply)
    requires History(c, s0, m) && Smooth(c, s0, m) && m.phase.AtGate?
    ensures Leads(c, s0, Step(c, m, r))
  {
    var g, m1, e := m.phase.gate, Logged(m, r), Entry(OpOfGate(m.phase.gate), r);
    var n := GateStep(c, m1, r);
    assert Step(c, m, r) == n && m1.journal == m.journal + [e] && m.files.state == s0;
    GateRanks(g);
    GateMoves(c, m1, r);
    GateComplains(c, s0, m.journal, g, r);
    HeldAtGate(c, s0, m, r);
    BeginningReads(c, s0, r);
    assert Worked(m1.journal, 0, Acquire) by { assert m1.journal[0] == m.journal[0]; }
    var o := Objection(c, g, s0, r);
    hide Step, GateStep, Objection, Passed, Complaint;
    if o.Some? {
      QuietStill(c, s0, m.journal, |m.journal|, e);
      LeftNow(c, s0, m1.journal, o.value);
      ObjectedHolds(c, s0, g, r);
      FailEnters(c, s0, m1, o.value);
    } else {
      QuietMore(c, s0, m.journal, e);
    }
    hide Quiet, HeldBy, Left, Fail;
  }

  /** Where a gate objects it has not got hold of anything. */
  lemma ObjectedHolds(c: Settings, s0: StateFile, g: Gate, r: Reply)
    ensures (g.Building? || g.MakingDir?) && Objection(c, g, s0, r).Some? ==> !r.Works()
  {
  }

  lemma BeginningReads(c: Settings, s0: StateFile, r: Reply)
    ensures Objection(c, Beginning, s0, r).None? ==> !s0.Damaged?
  {
  }

  // ---- the dump ---------------------------------------------------------------------------------------------------

  /** A dump step fails or only moves on. */
  lemma DumpMoves(m: Machine, r: Reply)
    requires m.phase.AtDump?
    ensures var n, d := DumpStep(m, r), m.phase.dumping;
      if r.failure.Some? && !(d.Dumping? && m.seen.switched) then n == Fail(m, r.failure.value)
      else if d.Polling? && r.vars.comment == "Synced" && d.dump.Some? then n == Fail(m, d.dump.value)
      else (d.Polling? && r.vars.comment != "Synced" && n == Fail(m, Coded(E_GALERA, 0)))
           || ((n.phase.AtDump? || n.phase.AtPublication?) && n.raising == m.raising && n.files == m.files && n.held == m.held
               && n.journal == m.journal && (!Settled(n.phase) <==> d.Dumping? && m.seen.switched))
  {
    hide Fail;
  }

  /** A call after the gates that raised complains of what it raised; one that worked complains only at two places. */
  lemma LaterComplains(c: Settings, s0: StateFile, j: seq<Entry>, e: Entry)
    requires |j| > 10
    ensures var k := Complaint(c, s0, j + [e], |j|);
      if e.reply.failure.Some? then k == Some(if e.op.ReadState? then Coded(E_STATE, 0) else e.reply.failure.value)
      else if e.op.QueryFlow? then k == FlowObjection(c, j[6].reply.vars, e.reply)
      else if e.op.Poll? && e.reply.vars.comment != "Synced" then k == Some(Coded(E_GALERA, 0)) else k == None
  {
    assert (j + [e])[|j|] == e && (j + [e])[6] == j[6];
    hide Objection, FlowObjection;
  }

  /** What is known of the calls before the one that a dump step makes. */
  lemma DumpQuiet(c: Settings, s0: StateFile, m: Machine, e: Entry)
    requires History(c, s0, m) && Smooth(c, s0, m) && m.phase.AtDump? && e.op == OpOfDump(m.phase.dumping)
    ensures |m.journal| > 10 && Quiet(c, s0, m.journal + [e], |m.journal|) && HeldBy(m.journal + [e]) == HeldBy(m.journal)
    ensures Worked(m.journal + [e], 0, Acquire)
  {
    HeldMore(m.journal, e);
    if Settled(m.phase) { QuietStill(c, s0, m.journal, |m.journal|, e); } else { QuietOff(c, s0, m.journal, e); }
    hide Quiet, HeldBy;
  }

  lemma DumpLeadsOn(c: Settings, s0: StateFile, m: Machine, r: Reply)
    requires History(c, s0, m) && Smooth(c, s0, m) && m.phase.AtDump?
    ensures Leads(c, s0, Step(c, m, r))
  {
    var m1 := Logged(m, r);
    var n := DumpStep(m1, r);
    assert Step(c, m, r) == n;
    DumpMoves(m1, r);
    DumpQuiet(c, s0, m, Entry(OpOfDump(m.phase.dumping), r));
    LaterComplains(c, s0, m.journal, Entry(OpOfDump(m.phase.dumping), r));
    assert m1.held == m.held && m1.files == m.files && m.held == HeldBy(m.journal)
           && (m.files.state.Damaged? <==> s0.Damaged?);
    hide Step, DumpStep, Complaint, HeldBy, Fail, Passed, Quiet, Leads;
    if n.phase.AtHandler? {
      if m.phase.dumping.Polling? { DumpWas(c, s0, m); }
      hide History, Smooth;
      DumpFails(c, s0, m, r);
    } else {
      DumpGoesOn(c, s0, m, Entry(OpOfDump(m.phase.dumping), r), n);
    }
  }

  /** While the node is waited for, what the dump did is on record. */
  lemma DumpWas(c: Settings, s0: StateFile, m: Machine)
    requires History(c, s0, m) && m.phase.AtDump? && m.phase.dumping.Polling?
    ensures |m.journal| >= 14 && Called(m.journal, 12, Dump) && m.journal[12].reply.failure == m.phase.dumping.dump
    ensures Called(m.journal, 13, DesyncOff)
  {
    hide Passed;
  }

  lemma DumpFails(c: Settings, s0: StateFile, m: Machine, r: Reply)
    requires m.phase.AtDump? && DumpStep(Logged(m, r), r).phase.AtHandler?
    requires var j := Logged(m, r).journal;
      |m.journal| > 10 && Worked(j, 0, Acquire) && Quiet(c, s0, j, |m.journal|) && m.held == HeldBy(j)
      && (m.files.state.Damaged? <==> s0.Damaged?)
    requires m.phase.dumping.Polling? ==>
             |m.journal| >= 14 && Called(m.journal, 12, Dump) && m.journal[12].reply.failure == m.phase.dumping.dump
             && Called(m.journal, 13, DesyncOff)
    ensures Leads(c, s0, DumpStep(Logged(m, r), r))
  {
    var m1, d, e := Logged(m, r), m.phase.dumping, Entry(OpOfDump(m.phase.dumping), r);
    var j := m1.journal;
    assert j == m.journal + [e] && m1.held == m.held && m1.files == m.files && m1.phase == m.phase;
    DumpRaises(m1, r);
    hide DumpStep, HeldBy, Fail, Quiet, Leads, Logged;
    if d.Polling? && r.failure.None? && r.vars.comment == "Synced" {
      hide Complaint;
      FailsByDump(c, s0, m1, m.journal, e, d.dump.value);
    } else {
      LaterComplains(c, s0, m.journal, e);
      hide Complaint;
      FailsNow(c, s0, m1, if r.failure.Some? then r.failure.value else Coded(E_GALERA, 0));
    }
  }

  /** The failures of a dump step. */
  lemma DumpRaises(m: Machine, r: Reply)
    requires m.phase.AtDump? && DumpStep(m, r).phase.AtHandler?
    ensures var n, d := DumpStep(m, r), m.phase.dumping;
      if d.Polling? && r.failure.None? && r.vars.comment == "Synced" then d.dump.Some? && n == Fail(m, d.dump.value)
      else n == Fail(m, if r.failure.Some? then r.failure.value else Coded(E_GALERA, 0))
           && (r.failure.None? ==> d.Polling? && r.vars.comment != "Synced")
           && !OpOfDump(d).ReadState? && !OpOfDump(d).QueryFlow?
  {
    hide Fail;
  }

  lemma DumpGoesOn(c: Settings, s0: StateFile, m: Machine, e: Entry, n: Machine)
    requires History(c, s0, m) && Smooth(c, s0, m) && m.phase.AtDump? && n.journal == m.journal + [e]
    requires Quiet(c, s0, n.journal, |m.journal|) && HeldBy(n.journal) == HeldBy(m.journal)
    requires n.raising == m.raising && n.files == m.files && n.held == m.held
    requires e.op == OpOfDump(m.phase.dumping) && (n.phase.AtDump? || n.phase.AtPublication?)
    requires !Settled(n.phase) <==> m.phase.dumping.Dumping? && m.seen.switched
    requires Settled(n.phase) ==> Complaint(c, s0, n.journal, |m.journal|).None? || (e.op.Poll? && e.reply.Works())
    ensures Leads(c, s0, n)
  {
    hide Complaint, HeldBy, Passed;
    assert n.journal[|m.journal|] == e;
    if Settled(n.phase) { assert Quiet(c, s0, n.journal, |n.journal|); }
  }

  // ---- the publication --------------------------------------------------------------------------------------------

  /** The metric of a success may have been written although its call raised. */
  function WhenRaised(m: Machine, r: Reply): (n: Machine)
    requires m.phase.AtPublication?
    ensures n.journal == m.journal && n.held == m.held && n.files.state == m.files.state
  {
    if m.phase.closing.ShowingSuccess?
    then Shown(m, Metrics(m.clock, RecordOf(m.files.state).lastFailure, 1, m.seen.size), r) else m
  }

  /** A publication step fails or only moves on. */
  lemma PublicationStepMoves(c: Settings, m: Machine, r: Reply)
    requires m.phase.AtPublication? && !m.files.state.Damaged?
    ensures var n, p := PublicationStep(c, m, r), m.phase.closing;
      var o := if p.CheckingFlow? then FlowObjection(c, m.seen.health, r)
               else if r.failure.Some? then Some(if OpOfClosing(p).ReadState? then Coded(E_STATE, 0) else r.failure.value)
               else None;
      if o.Some?
      then n == Fail(WhenRaised(m, r), o.value)
      else (n.phase.AtPublication? || n.phase.AtRetention? || n.phase.AtTail?) && n.journal == m.journal
           && n.raising == m.raising && n.held == m.held && !n.files.state.Damaged?
  {
    hide Fail, Tell, Recorded, Shown, FlowObjection;
  }

  lemma PublicationQuiet(c: Settings, s0: StateFile, m: Machine, e: Entry)
    requires History(c, s0, m) && Smooth(c, s0, m) && m.phase.AtPublication?
    ensures |m.journal| > 10 && m.seen.health == m.journal[6].reply.vars && Worked(m.journal + [e], 0, Acquire)
    ensures Quiet(c, s0, m.journal, |m.journal|) && Quiet(c, s0, m.journal + [e], |m.journal|)
    ensures m.held == HeldBy(m.journal + [e]) && !m.files.state.Damaged? && !s0.Damaged? && m.raising.primary.None?
  {
    HeldMore(m.journal, e);
    QuietStill(c, s0, m.journal, |m.journal|, e);
    hide Quiet, HeldBy, Dumped;
  }

  lemma PublicationLeadsOn(c: Settings, s0: StateFile, m: Machine, r: Reply)
    requires History(c, s0, m) && Smooth(c, s0, m) && m.phase.AtPublication?
    ensures Leads(c, s0, Step(c, m, r))
  {
    PublicationQuiet(c, s0, m, Entry(OpOfClosing(m.phase.closing), r));
    assert Step(c, m, r) == PublicationStep(c, Logged(m, r), r);
    hide Step, History, Smooth, Quiet, HeldBy, PublicationStep;
    PublicationGoesOn(c, s0, m, r);
  }

  lemma PublicationGoesOn(c: Settings, s0: StateFile, m: Machine, r: Reply)
    requires m.phase.AtPublication? && !m.files.state.Damaged? && !s0.Damaged? && m.raising.primary.None?
    requires |m.journal| > 10 && m.seen.health == m.journal[6].reply.vars && Quiet(c, s0, m.journal, |m.journal|)
    requires var j := m.journal + [Entry(OpOfClosing(m.phase.closing), r)];
      Worked(j, 0, Acquire) && Quiet(c, s0, j, |m.journal|) && m.held == HeldBy(j)
    ensures Leads(c, s0, PublicationStep(c, Logged(m, r), r))
  {
    var m1, p, e := Logged(m, r), m.phase.closing, Entry(OpOfClosing(m.phase.closing), r);
    var n, j := PublicationStep(c, m1, r), m1.journal;
    assert j == m.journal + [e];
    PublicationStepMoves(c, m1, r);
    LaterComplains(c, s0, m.journal, e);
    OnlyFlowIsQueried(p);
    FlowFirst(c, m.seen.health, r);
    hide PublicationStep, HeldBy, Fail, FlowObjection, Complaint, Quiet;
    var o := Complaint(c, s0, j, |m.journal|);
    if o.Some? {
      hide Leads, WhenRaised;
      FailsNow(c, s0, WhenRaised(m1, r), o.value);
    } else {
      QuietMore(c, s0, m.journal, e);
    }
  }

  lemma OnlyFlowIsQueried(p: Closing)
    ensures OpOfClosing(p).QueryFlow? <==> p.CheckingFlow?
    ensures !OpOfClosing(p).Poll?
  {
  }

  lemma FlowFirst(c: Settings, health: Vars, r: Reply)
    ensures r.failure.Some? ==> FlowObjection(c, health, r) == r.failure
  {
  }

  // ---- all of it --------------------------------------------------------------------------------------------------

  lemma LockLeadsOn(c: Settings, s0: StateFile, m: Machine, r: Reply)
    requires History(c, s0, m) && Smooth(c, s0, m) && m.phase.Locking?
    ensures Leads(c, s0, Step(c, m, r))
  {
    hide Complaint;
  }

  /** Every step of the `try` part goes on quietly, or leaves it with what its calls say. */
  lemma TryStep(c: Settings, s0: StateFile, m: Machine, r: Reply)
    requires History(c, s0, m) && Smooth(c, s0, m) && Trying(m.phase)
    ensures Leads(c, s0, Step(c, m, r))
  {
    hide Step, History, Smooth, Leads;
    if m.phase.Locking? { LockLeadsOn(c, s0, m, r); }
    else if m.phase.AtGate? { GateLeadsOn(c, s0, m, r); }
    else if m.phase.AtDump? { DumpLeadsOn(c, s0, m, r); }
    else { PublicationLeadsOn(c, s0, m, r); }
  }
}
