/** What the order of calls in a backup run guarantees: publication after every gate, desync undone. */
module RunOrder {
  import opened Errors
  import opened Strings
  import opened Election
  import opened RunMachine

  /** The gates in the order of their calls; the call for the lock comes before them. */
  function GateAt(i: nat): Gate {
    match i
    case 1 => Beginning case 2 => Electing case 3 => Guarding case 4 => Building case 5 => Preflighting
    case 6 => CheckingHealth case 7 => CheckingSpace case 8 => MakingDir case 9 => Restricting case _ => ReadingLocal
  }

  function Rank(g: Gate): nat {
    match g
    case Beginning => 1 case Electing => 2 case Guarding => 3 case Building => 4 case Preflighting => 5
    case CheckingHealth => 6 case CheckingSpace => 7 case MakingDir => 8 case Restricting => 9 case ReadingLocal => 10
  }

  predicate Called(j: seq<Entry>, i: nat, op: Op) { i < |j| && j[i].op == op }

  predicate Worked(j: seq<Entry>, i: nat, op: Op) { Called(j, i, op) && j[i].reply.Works() }

  /** The call of gate `i` was made and had nothing against going on; at election it was this node. */
  predicate PassedGate(c: Settings, s0: StateFile, e: Entry, i: nat) {
    e.op == OpOfGate(GateAt(i)) && Objection(c, GateAt(i), s0, e.reply).None?
    && (i == 2 ==> Proceeds(c.node, e.reply.rows))
  }

  ghost predicate Passed(c: Settings, s0: StateFile, j: seq<Entry>, k: nat) {
    1 <= k <= |j| && Worked(j, 0, Acquire) && forall i | 1 <= i < k :: PassedGate(c, s0, j[i], i)
  }

  predicate SeenInState4(j: seq<Entry>) { |j| > 10 && j[10].reply.vars.localState == "4" }

  predicate Synced(e: Entry) { e.op.Poll? && e.reply.Works() && e.reply.vars.comment == "Synced" }

  /** The dump worked; if the node was switched for it, it was switched back and has been seen Synced since. */
  ghost predicate Dumped(j: seq<Entry>) {
    if SeenInState4(j)
    then Worked(j, 11, DesyncOn) && Worked(j, 12, Dump) && Worked(j, 13, DesyncOff) && exists k | 14 <= k < |j| :: Synced(j[k])
    else Worked(j, 11, Dump)
  }

  /** Everything that has to be true before the backup may be published. */
  ghost predicate Cleared(c: Settings, s0: StateFile, j: seq<Entry>) {
    Passed(c, s0, j, 11) && Dumped(j)
    && Worked(j, |j| - 2, Pack)
    && var last := j[|j| - 1]; last.op.QueryFlow? && FlowObjection(c, j[6].reply.vars, last.reply).None?
  }

  // ---- the same, read off the calls and their answers -------------------------------------------------------------

  /** The lock, a readable state file, this node elected, one writer that is another node, a backend with its preflight. */
  ghost predicate Admitted(c: Settings, s0: StateFile, j: seq<Entry>)
    requires |j| > 10
  {
    var me := Strip(c.node.address);
    j[0].op.Acquire? && j[1].op.ReadState? && !s0.Damaged? && c.node.electionSet && c.node.credentials && c.node.guardSet
    && j[2].op.AskDonor? && j[2].reply.rows.Some? && me != [] && IsDonor(c.node, j[2].reply.rows.value, me)
    && j[3].op.AskWriter? && j[3].reply.rows.Some? && OneWriter(c.node, j[3].reply.rows.value, false)
    && j[4].op.Build? && j[5].op.Preflight?
  }

  /** A node in Synced, in a ready Primary component of the expected size, with a flow-control counter; 500 MiB of space; a
      private directory. */
  ghost predicate Prepared(c: Settings, j: seq<Entry>)
    requires |j| > 10
  {
    var v := j[6].reply.vars;
    j[6].op.QueryHealth? && v.comment == "Synced" && v.status == "Primary" && v.ready == "ON" && v.connected == "ON"
    && v.size == Some(c.expected) && v.paused.Number?
    && j[7].op.DiskUsage? && j[7].reply.number >= 524288000
    && j[8].op.MakeDir? && j[9].op.Restrict? && j[10].op.QueryLocal?
  }

  /** The dump worked; a node that was in state 4 was switched for it, switched back and has been seen Synced since. */
  ghost predicate DumpedSafely(j: seq<Entry>)
    requires |j| > 12
  {
    j[11].reply.failure.None?
    && if j[10].reply.vars.localState == "4"
       then j[11].op.DesyncOn? && j[12].op.Dump? && j[12].reply.failure.None?
            && |j| > 13 && j[13].op.DesyncOff? && j[13].reply.failure.None?
            && exists k | 14 <= k < |j| :: j[k].op.Poll? && j[k].reply.failure.None? && j[k].reply.vars.comment == "Synced"
       else j[11].op.Dump?
  }

  /** The archive is made, and the flow-control counter of the last call exceeds that of the health check by the threshold
      at most. */
  predicate FlowWithin(c: Settings, j: seq<Entry>)
    requires |j| > 12
  {
    var pack, flow := j[|j| - 2], j[|j| - 1];
    pack.op.Pack? && pack.reply.failure.None? && flow.op.QueryFlow? && flow.reply.failure.None?
    && j[6].reply.vars.paused.Number? && flow.reply.vars.paused.Number?
    && flow.reply.vars.paused.n - j[6].reply.vars.paused.n <= c.threshold
  }

  /** What has to be true of the calls before a publication. */
  ghost predicate Qualified(c: Settings, s0: StateFile, j: seq<Entry>) {
    |j| > 12 && (forall i | 0 <= i < 11 :: j[i].reply.failure.None?) && Admitted(c, s0, j) && Prepared(c, j)
    && DumpedSafely(j) && FlowWithin(c, j)
  }

  lemma EarlyGateIff(c: Settings, s0: StateFile, e: Entry, i: nat)
    requires 1 <= i <= 5
    ensures var me, rows := Strip(c.node.address), e.reply.rows;
      var answered :=
        match i
        case 1 => e.op.ReadState? && !s0.Damaged? && c.node.electionSet && c.node.credentials
        case 2 => e.op.AskDonor? && rows.Some? && me != [] && c.node.electionSet && c.node.credentials && c.node.guardSet
                  && IsDonor(c.node, rows.value, me)
        case 3 => e.op.AskWriter? && c.node.guardSet && c.node.credentials && rows.Some? && OneWriter(c.node, rows.value, false)
        case 4 => e.op.Build? case _ => e.op.Preflight?;
      PassedGate(c, s0, e, i) <==> e.reply.failure.None? && answered
  {
    ElectIff(c.node, e.reply.rows, Strip(c.node.address));
    GuardPassesIff(c.node, e.reply.rows);
    hide Elect, Guard, Strip, IsDonor, OneWriter, Healthy;
  }

  lemma LateGateIff(c: Settings, s0: StateFile, e: Entry, i: nat)
    requires 6 <= i <= 10
    ensures var v := e.reply.vars;
      var answered :=
        match i
        case 6 => e.op.QueryHealth? && v.comment == "Synced" && v.status == "Primary" && v.ready == "ON"
                  && v.connected == "ON" && v.size == Some(c.expected) && v.paused.Number?
        case 7 => e.op.DiskUsage? && e.reply.number >= 524288000
        case 8 => e.op.MakeDir? case 9 => e.op.Restrict? case _ => e.op.QueryLocal?;
      PassedGate(c, s0, e, i) <==> e.reply.failure.None? && answered
  {
    hide Proceeds, Elect, Guard;
  }

  lemma AdmittedIff(c: Settings, s0: StateFile, j: seq<Entry>)
    requires |j| > 10 && j[0].op.Acquire?
    ensures (forall i | 1 <= i < 6 :: PassedGate(c, s0, j[i], i))
            <==> (forall i | 1 <= i < 6 :: j[i].reply.failure.None?) && Admitted(c, s0, j)
  {
    hide PassedGate, Strip, IsDonor, OneWriter;
    EarlyGateIff(c, s0, j[1], 1);
    EarlyGateIff(c, s0, j[2], 2);
    EarlyGateIff(c, s0, j[3], 3);
    EarlyGateIff(c, s0, j[4], 4);
    EarlyGateIff(c, s0, j[5], 5);
  }

  lemma PreparedIff(c: Settings, s0: StateFile, j: seq<Entry>)
    requires |j| > 10
    ensures (forall i | 6 <= i < 11 :: PassedGate(c, s0, j[i], i))
            <==> (forall i | 6 <= i < 11 :: j[i].reply.failure.None?) && Prepared(c, j)
  {
    hide PassedGate;
    LateGateIff(c, s0, j[6], 6);
    LateGateIff(c, s0, j[7], 7);
    LateGateIff(c, s0, j[8], 8);
    LateGateIff(c, s0, j[9], 9);
    LateGateIff(c, s0, j[10], 10);
  }

  lemma PassedIff(c: Settings, s0: StateFile, j: seq<Entry>)
    requires |j| > 10 && j[0].op.Acquire?
    ensures Passed(c, s0, j, 11)
            <==> (forall i | 0 <= i < 11 :: j[i].reply.failure.None?) && Admitted(c, s0, j) && Prepared(c, j)
  {
    hide PassedGate, Admitted, Prepared;
    AdmittedIff(c, s0, j);
    PreparedIff(c, s0, j);
  }

  lemma FirstIsTheLock(c: Settings, s0: StateFile, j: seq<Entry>)
    ensures Passed(c, s0, j, 11) ==> |j| > 10 && j[0].op.Acquire?
    ensures |j| > 10 && Admitted(c, s0, j) ==> j[0].op.Acquire?
    ensures Dumped(j) ==> |j| > 11
  {
    hide PassedGate;
  }

  lemma DumpedIff(j: seq<Entry>)
    requires |j| > 12
    ensures Dumped(j) <==> DumpedSafely(j)
  {
  }

  lemma FlowIff(c: Settings, j: seq<Entry>)
    requires |j| > 12 && j[6].reply.vars.paused.Number?
    ensures Worked(j, |j| - 2, Pack) && j[|j| - 1].op.QueryFlow? && FlowObjection(c, j[6].reply.vars, j[|j| - 1].reply).None?
            <==> FlowWithin(c, j)
  {
  }

  lemma PreparedCounts(c: Settings, j: seq<Entry>)
    requires |j| > 10 && Prepared(c, j)
    ensures j[6].reply.vars.paused.Number?
  {
  }

  lemma ClearedIff(c: Settings, s0: StateFile, j: seq<Entry>)
    ensures Cleared(c, s0, j) <==> Qualified(c, s0, j)
  {
    FirstIsTheLock(c, s0, j);
    if |j| == 12 {
      assert !Cleared(c, s0, j);
    } else if |j| > 12 && j[0].op.Acquire? {
      hide Cleared, Qualified;
      ClearedLong(c, s0, j);
    }
    hide Admitted, Prepared, Passed, Dumped, DumpedSafely, FlowWithin;
  }

  lemma ClearedLong(c: Settings, s0: StateFile, j: seq<Entry>)
    requires |j| > 12 && j[0].op.Acquire?
    ensures Cleared(c, s0, j) <==> Qualified(c, s0, j)
  {
    PassedIff(c, s0, j);
    DumpedIff(j);
    hide Admitted, Passed, Dumped, DumpedSafely, FlowWithin, FlowObjection;
    if Prepared(c, j) {
      PreparedCounts(c, j);
      FlowIff(c, j);
    }
    hide Prepared;
  }

  // ---- where the journal stands at each point ---------------------------------------------------------------------

  ghost predicate BeforeDump(c: Settings, s0: StateFile, m: Machine) {
    Passed(c, s0, m.journal, 11) && m.seen.health == m.journal[6].reply.vars && m.seen.switched == SeenInState4(m.journal)
  }

  predicate DumpStands(d: Dumping, switched: bool, j: seq<Entry>) {
    match d
    case SwitchingOn => |j| == 11 && switched
    case Dumping => if switched then |j| == 12 && Worked(j, 11, DesyncOn) else |j| == 11
    case SwitchingOff(dump) =>
      switched && |j| == 13 && Worked(j, 11, DesyncOn) && Called(j, 12, Dump) && j[12].reply.failure == dump
    case Polling(dump, _) =>
      switched && |j| >= 14 && Worked(j, 11, DesyncOn) && Called(j, 12, Dump) && j[12].reply.failure == dump
      && Worked(j, 13, DesyncOff)
  }

  ghost predicate History(c: Settings, s0: StateFile, m: Machine) {
    var j := m.journal;
    match m.phase
    case Locking => j == [] && m.files.state == s0
    case AtGate(g) =>
      |j| == Rank(g) && Passed(c, s0, j, Rank(g)) && m.files.state == s0 && (Rank(g) > 6 ==> m.seen.health == j[6].reply.vars)
    case AtDump(d) => BeforeDump(c, s0, m) && m.files.state == s0 && DumpStands(d, m.seen.switched, j)
    case AtPublication(p) =>
      BeforeDump(c, s0, m) && Dumped(j)
      && (p.CheckingFlow? ==> Worked(j, |j| - 1, Pack)) && (p.Publishing? ==> Cleared(c, s0, j))
    case _ => true
  }

  lemma GateRanks(g: Gate)
    ensures 1 <= Rank(g) <= 10 && GateAt(Rank(g)) == g && (Rank(g) < 10 ==> GateAt(Rank(g) + 1) == NextGate(g))
  {
  }

  /** One more passed gate. */
  lemma PassedMore(c: Settings, s0: StateFile, j: seq<Entry>, k: nat, e: Entry)
    requires Passed(c, s0, j, k) && |j| == k && PassedGate(c, s0, e, k)
    ensures Passed(c, s0, j + [e], k + 1)
  {
    hide PassedGate;
    forall i | 1 <= i < k + 1 ensures PassedGate(c, s0, (j + [e])[i], i) {}
  }

  lemma PassedStill(c: Settings, s0: StateFile, j: seq<Entry>, k: nat, e: Entry)
    requires Passed(c, s0, j, k)
    ensures Passed(c, s0, j + [e], k)
  {
    hide PassedGate;
    forall i | 1 <= i < k ensures PassedGate(c, s0, (j + [e])[i], i) {}
  }

  /** Where a gate leads: into the failure path, out of the run, or to the next point with the gate passed. */
  lemma GateLeads(c: Settings, m: Machine, r: Reply)
    requires m.phase.AtGate?
    ensures var g, n := m.phase.gate, GateStep(c, m, r);
      n.journal == m.journal && (n.phase.AtGate? || n.phase.AtDump? ==>
        Objection(c, g, m.files.state, r).None? && n.files.state == m.files.state && (g.Electing? ==> Proceeds(c.node, r.rows))
        && n.seen.health == (if g.CheckingHealth? then r.vars else m.seen.health)
        && (if g.ReadingLocal? then n.seen.switched == (r.vars.localState == "4")
                                    && n.phase == AtDump(if n.seen.switched then SwitchingOn else Dumping)
            else n.phase == AtGate(NextGate(g))))
      && !n.phase.AtPublication? && !n.phase.Locking?
  {
    hide Elect, Guard, Healthy;
    assert m.phase.gate.Electing? && Elect(c.node, r.rows) == Ok(Strip(c.node.address))
           && Objection(c, Electing, m.files.state, r).None?
           ==> Proceeds(c.node, r.rows);
    hide Proceeds, Objection, Strip;
  }

  lemma IsGateStep(c: Settings, m: Machine, r: Reply)
    requires m.phase.AtGate?
    ensures Step(c, m, r) == GateStep(c, Logged(m, r), r)
    ensures var m1 := Logged(m, r); m1.journal == m.journal + [Entry(OpOfGate(m.phase.gate), r)]
                                    && m1.phase == m.phase && m1.held == m.held && m1.files == m.files && m1.seen == m.seen
  {
    hide GateStep;
  }

  lemma HistoryAtGate(c: Settings, s0: StateFile, m: Machine, r: Reply)
    requires History(c, s0, m) && m.phase.AtGate?
    ensures History(c, s0, Step(c, m, r))
  {
    var g, e, m1, n := m.phase.gate, Entry(OpOfGate(m.phase.gate), r), Logged(m, r), Step(c, m, r);
    hide Step, GateStep, Logged, Dumped, Cleared;
    IsGateStep(c, m, r);
    GateRanks(g);
    GateLeads(c, m1, r);
    hide Objection, Proceeds;
    if n.phase.AtGate? || n.phase.AtDump? {
      PassedMore(c, s0, m.journal, Rank(g), e);
      hide Passed, PassedGate;
      if n.phase.AtDump? { assert BeforeDump(c, s0, n); }
    }
  }

  /** Where a step of the dump leads. */
  lemma DumpLeads(m: Machine, r: Reply)
    requires m.phase.AtDump?
    ensures var n, d := DumpStep(m, r), m.phase.dumping;
      n.journal == m.journal && n.files == m.files && n.seen == m.seen
      && (n.phase.AtHandler?
          || (d.SwitchingOn? && r.Works() && n.phase == AtDump(Dumping))
          || (d.Dumping? && m.seen.switched && n.phase == AtDump(SwitchingOff(r.failure)))
          || (d.Dumping? && !m.seen.switched && r.Works() && n.phase == AtPublication(Packing))
          || (d.SwitchingOff? && r.Works() && n.phase.AtDump? && n.phase.dumping.Polling? && n.phase.dumping.dump == d.dump)
          || (d.Polling? && r.Works() && n.phase == m.phase)
          || (d.Polling? && r.Works() && r.vars.comment == "Synced" && d.dump.None? && n.phase == AtPublication(Packing)))
  {
    hide Fail;
  }

  lemma DumpEnds(c: Settings, s0: StateFile, m: Machine, e: Entry)
    requires History(c, s0, m) && m.phase.AtDump?
    requires (m.phase.dumping.Dumping? && !m.seen.switched && e.op.Dump? && e.reply.Works())
             || (m.phase.dumping.Polling? && m.phase.dumping.dump.None? && Synced(e))
    ensures Dumped(m.journal + [e])
  {
    var j := m.journal + [e];
    hide Passed;
    assert SeenInState4(j) == SeenInState4(m.journal);
    if Synced(e) { assert Synced(j[|m.journal|]); }
  }

  lemma BeforeDumpKept(c: Settings, s0: StateFile, m: Machine, r: Reply)
    requires BeforeDump(c, s0, m) && m.phase.AtDump?
    ensures BeforeDump(c, s0, DumpStep(Logged(m, r), r))
  {
    DumpLeads(Logged(m, r), r);
    hide Passed, DumpStep;
    PassedStill(c, s0, m.journal, 11, Entry(OpOfDump(m.phase.dumping), r));
  }

  lemma DumpStandsStill(s0: StateFile, m: Machine, r: Reply)
    requires m.phase.AtDump? && DumpStands(m.phase.dumping, m.seen.switched, m.journal)
    ensures var n := DumpStep(Logged(m, r), r);
      n.phase.AtDump? ==> DumpStands(n.phase.dumping, n.seen.switched, n.journal)
  {
    DumpLeads(Logged(m, r), r);
    var n, e := DumpStep(Logged(m, r), r), Entry(OpOfDump(m.phase.dumping), r);
    assert n.journal == m.journal + [e];
    assert forall i | 0 <= i < |m.journal| :: n.journal[i] == m.journal[i];
    hide DumpStep;
  }

  lemma HistoryAtDump(c: Settings, s0: StateFile, m: Machine, r: Reply)
    requires History(c, s0, m) && m.phase.AtDump?
    ensures History(c, s0, Step(c, m, r))
  {
    var n := DumpStep(Logged(m, r), r);
    assert Step(c, m, r) == n;
    DumpLeads(Logged(m, r), r);
    BeforeDumpKept(c, s0, m, r);
    DumpStandsStill(s0, m, r);
    if n.phase.AtPublication? { DumpEnds(c, s0, m, Entry(OpOfDump(m.phase.dumping), r)); }
    hide Step, DumpStep, DumpStands, BeforeDump, Passed, Dumped, Cleared;
  }

  lemma DumpedStill(j: seq<Entry>, e: Entry)
    requires Dumped(j) && |j| > 10
    ensures Dumped(j + [e]) && SeenInState4(j + [e]) == SeenInState4(j)
  {
    if SeenInState4(j) {
      var k :| 14 <= k < |j| && Synced(j[k]);
      assert Synced((j + [e])[k]);
    }
  }

  /** The steps after the dump stay in this part, enter the tail, or fail. */
  lemma PublicationLeads(c: Settings, m: Machine, r: Reply)
    requires m.phase.AtPublication?
    ensures var n := PublicationStep(c, m, r);
      n.journal == m.journal && n.seen.health == m.seen.health && n.seen.switched == m.seen.switched
      && (n.phase.AtPublication? || n.phase.AtHandler? || n.phase.AtRetention? || n.phase.AtTail?)
      && (n.phase == AtPublication(CheckingFlow) ==> m.phase.closing.Packing? && r.Works())
      && (n.phase == AtPublication(Publishing) ==> m.phase.closing.CheckingFlow? && FlowObjection(c, m.seen.health, r).None?)
  {
    hide Fail, Tell, Recorded, Shown, FlowObjection;
  }

  lemma HistoryAtPublication(c: Settings, s0: StateFile, m: Machine, r: Reply)
    requires History(c, s0, m) && m.phase.AtPublication?
    ensures History(c, s0, Step(c, m, r))
  {
    var e := Entry(OpOfClosing(m.phase.closing), r);
    hide History, Passed, Dumped, PublicationStep, FlowObjection, Step, Cleared;
    AtPublicationHas(c, s0, m);
    IsPublicationStep(c, m, r);
    DumpedStill(m.journal, e);
    PassedStill(c, s0, m.journal, 11, e);
    PublicationLeads(c, Logged(m, r), r);
    if m.phase.closing.CheckingFlow? { ClearedNow(c, s0, m.journal, e); }
    PublicationKeeps(c, s0, m, e, PublicationStep(c, Logged(m, r), r));
  }

  lemma AtPublicationHas(c: Settings, s0: StateFile, m: Machine)
    requires History(c, s0, m) && m.phase.AtPublication?
    ensures |m.journal| > 10 && Passed(c, s0, m.journal, 11) && Dumped(m.journal)
    ensures m.seen.health == m.journal[6].reply.vars
    ensures m.phase.closing.CheckingFlow? ==> Worked(m.journal, |m.journal| - 1, Pack)
  {
    hide Dumped, Cleared;
  }

  lemma PublicationKeeps(c: Settings, s0: StateFile, m: Machine, e: Entry, n: Machine)
    requires History(c, s0, m) && m.phase.AtPublication? && n.journal == m.journal + [e]
    requires n.seen.health == m.seen.health && n.seen.switched == m.seen.switched
    requires n.phase.AtPublication? || n.phase.AtHandler? || n.phase.AtRetention? || n.phase.AtTail?
    requires n.phase == AtPublication(CheckingFlow) ==> e.op.Pack? && e.reply.Works()
    requires n.phase == AtPublication(Publishing) ==> Cleared(c, s0, n.journal)
    ensures History(c, s0, n)
  {
    assert (m.journal + [e])[6] == m.journal[6] && (m.journal + [e])[|m.journal|] == e;
    hide Passed, Dumped, Cleared;
    DumpedStill(m.journal, e);
    PassedStill(c, s0, m.journal, 11, e);
  }

  lemma ClearedNow(c: Settings, s0: StateFile, j: seq<Entry>, e: Entry)
    requires |j| > 10 && Passed(c, s0, j + [e], 11) && Dumped(j + [e]) && Worked(j, |j| - 1, Pack) && e.op.QueryFlow?
    ensures FlowObjection(c, j[6].reply.vars, e.reply).None? ==> Cleared(c, s0, j + [e])
  {
    hide Passed, Dumped, FlowObjection;
  }

  lemma IsPublicationStep(c: Settings, m: Machine, r: Reply)
    requires m.phase.AtPublication?
    ensures Step(c, m, r) == PublicationStep(c, Logged(m, r), r)
  {
    hide PublicationStep;
  }

  /** From the other points no run comes back to the gates, the dump or the publication. */
  lemma OthersLeave(c: Settings, m: Machine, r: Reply)
    ensures !m.phase.Locking? && !m.phase.AtGate? && !m.phase.AtDump? && !m.phase.AtPublication? ==>
      var p := Step(c, m, r).phase; !p.Locking? && !p.AtGate? && !p.AtDump? && !p.AtPublication?
  {
    hide GateStep, DumpStep, PublicationStep, Fail, Tell, Recorded, Shown, End, AfterClose,
      Noted;
  }

  lemma HistoryStep(c: Settings, s0: StateFile, m: Machine, r: Reply)
    requires History(c, s0, m)
    ensures History(c, s0, Step(c, m, r))
  {
    if m.phase.AtGate? {
      HistoryAtGate(c, s0, m, r);
    } else if m.phase.AtDump? {
      HistoryAtDump(c, s0, m, r);
    } else if m.phase.AtPublication? {
      HistoryAtPublication(c, s0, m, r);
    } else if m.phase.Locking? {
    } else {
      OthersLeave(c, m, r);
      hide Step, Passed, Dumped;
    }
  }

  // ---- what follows for every journal -----------------------------------------------------------------------------

  /** A publication only after every gate; desync commands only at their two places, each for its reason. */
  ghost predicate Orderly(c: Settings, s0: StateFile, j: seq<Entry>) {
    (forall i | 0 <= i < |j| && j[i].op.Publish? :: Cleared(c, s0, j[..i]) && forall k | 0 <= k < i :: !j[k].op.Publish?)
    && (forall i | 0 <= i < |j| && j[i].op.DesyncOn? :: i == 11 && SeenInState4(j) && Worked(j, 10, QueryLocal))
    && (forall i | 0 <= i < |j| && j[i].op.DesyncOff? :: i == 13 && Worked(j, 11, DesyncOn) && Called(j, 12, Dump))
  }

  ghost predicate Unpublished(j: seq<Entry>) { forall i | 0 <= i < |j| :: !j[i].op.Publish? }

  predicate BeforePublication(p: Phase) {
    p.Locking? || p.AtGate? || p.AtDump?
    || (p.AtPublication? && (p.closing.Packing? || p.closing.CheckingFlow? || p.closing.Publishing?))
  }

  /** A worked ON has been followed by its OFF, except while the dump is under way. */
  ghost predicate SwitchedBack(m: Machine) {
    Worked(m.journal, 11, DesyncOn)
    ==> Called(m.journal, 13, DesyncOff) || m.phase == AtDump(Dumping) || (m.phase.AtDump? && m.phase.dumping.SwitchingOff?)
  }

  ghost predicate InOrder(c: Settings, s0: StateFile, m: Machine) {
    History(c, s0, m) && Orderly(c, s0, m.journal) && (BeforePublication(m.phase) ==> Unpublished(m.journal)) && SwitchedBack(m)
  }

  /** Every step logs its call, and only that. */
  lemma StepLogs(c: Settings, m: Machine, r: Reply)
    requires !m.phase.Ended?
    ensures Step(c, m, r).journal == m.journal + [Entry(Wants(m.phase), r)]
  {
    hide Fail, Tell, Recorded, Shown, End, AfterClose, Noted, Objection,
      FlowObjection, Elect, Strip, LastSuccess;
  }

  lemma OrderlyAdd(c: Settings, s0: StateFile, j: seq<Entry>, e: Entry)
    requires Orderly(c, s0, j)
    requires e.op.Publish? ==> Cleared(c, s0, j) && Unpublished(j)
    requires e.op.DesyncOn? ==> |j| == 11 && SeenInState4(j) && Worked(j, 10, QueryLocal)
    requires e.op.DesyncOff? ==> |j| == 13 && Worked(j, 11, DesyncOn) && Called(j, 12, Dump)
    ensures Orderly(c, s0, j + [e])
  {
    var k := j + [e];
    hide Cleared;
    forall i | 0 <= i < |k| && k[i].op.Publish? ensures Cleared(c, s0, k[..i]) && forall l | 0 <= l < i :: !k[l].op.Publish? {
      assert k[..i] == j[..i] && j[..|j|] == j;
    }
  }

  /** What the call of each point may rely on. */
  lemma OrderlyEntry(c: Settings, s0: StateFile, m: Machine)
    requires History(c, s0, m) && !m.phase.Ended?
    ensures var j, op := m.journal, Wants(m.phase);
      (op.Publish? ==> Cleared(c, s0, j) && m.phase == AtPublication(Publishing))
      && (op.DesyncOn? ==> |j| == 11 && SeenInState4(j) && Worked(j, 10, QueryLocal))
      && (op.DesyncOff? ==> |j| == 13 && Worked(j, 11, DesyncOn) && Called(j, 12, Dump))
  {
    OnlyThereItPublishes(m.phase);
    hide Cleared, Dumped, Objection, Wants, PassedGate;
    if m.phase == AtDump(SwitchingOn) { LocalWasAsked(c, s0, m.journal); }
    hide Passed;
  }

  lemma LocalWasAsked(c: Settings, s0: StateFile, j: seq<Entry>)
    requires Passed(c, s0, j, 11)
    ensures Worked(j, 10, QueryLocal)
  {
    assert PassedGate(c, s0, j[10], 10);
    PassedWorked(c, s0, j[10], 10);
    hide Objection;
  }

  lemma PassedWorked(c: Settings, s0: StateFile, e: Entry, i: nat)
    requires PassedGate(c, s0, e, i)
    ensures e.reply.Works()
  {
    hide Elect, Guard, Proceeds, Healthy;
  }

  lemma OrderlyStep(c: Settings, s0: StateFile, m: Machine, r: Reply)
    requires InOrder(c, s0, m) && !m.phase.Ended?
    ensures Orderly(c, s0, Step(c, m, r).journal)
  {
    StepLogs(c, m, r);
    OrderlyEntry(c, s0, m);
    hide Orderly, Cleared, Step, History, Wants, SeenInState4, Worked, Called, Unpublished, SwitchedBack;
    OrderlyAdd(c, s0, m.journal, Entry(Wants(m.phase), r));
  }

  /** A run that is still before publication was so before, and has not just published. */
  lemma StillBefore(c: Settings, m: Machine, r: Reply)
    requires !m.phase.Ended? && BeforePublication(Step(c, m, r).phase)
    ensures BeforePublication(m.phase) && m.phase != AtPublication(Publishing)
  {
    OthersLeave(c, m, r);
    if m.phase.AtPublication? {
      assert Step(c, m, r) == PublicationStep(c, Logged(m, r), r);
      hide Fail, Tell, Recorded, Shown, FlowObjection, Step;
    } else {
      hide Step;
    }
  }

  lemma UnpublishedStep(c: Settings, s0: StateFile, m: Machine, r: Reply)
    requires InOrder(c, s0, m) && !m.phase.Ended? && BeforePublication(Step(c, m, r).phase)
    ensures Unpublished(Step(c, m, r).journal)
  {
    StepLogs(c, m, r);
    StillBefore(c, m, r);
    OnlyThereItPublishes(m.phase);
    hide Step, History, Orderly, Wants, BeforePublication, SwitchedBack;
  }

  lemma OnlyThereItPublishes(p: Phase)
    ensures !p.Ended? ==> (Wants(p).Publish? <==> p == AtPublication(Publishing))
    ensures !p.Ended? ==> (Wants(p).DesyncOn? <==> p == AtDump(SwitchingOn))
    ensures !p.Ended? ==> (Wants(p).DesyncOff? <==> p.AtDump? && p.dumping.SwitchingOff?)
  {
  }

  lemma SwitchedBackStep(c: Settings, s0: StateFile, m: Machine, r: Reply)
    requires InOrder(c, s0, m) && !m.phase.Ended?
    ensures SwitchedBack(Step(c, m, r))
  {
    StepLogs(c, m, r);
    var j, e := m.journal, Entry(Wants(m.phase), r);
    assert forall i, op | Called(j, i, op) :: Called(j + [e], i, op);
    if m.phase.AtDump? {
      DumpLeads(Logged(m, r), r);
      assert Step(c, m, r) == DumpStep(Logged(m, r), r);
    }
    hide Step, DumpStep, Passed, Orderly, Unpublished, BeforePublication;
  }

  lemma InOrderStep(c: Settings, s0: StateFile, m: Machine, r: Reply)
    requires InOrder(c, s0, m)
    ensures InOrder(c, s0, Step(c, m, r))
  {
    if !m.phase.Ended? {
      HistoryStep(c, s0, m, r);
      OrderlyStep(c, s0, m, r);
      SwitchedBackStep(c, s0, m, r);
      if BeforePublication(Step(c, m, r).phase) { UnpublishedStep(c, s0, m, r); }
      hide Step, History, Orderly, SwitchedBack, Unpublished, BeforePublication;
    }
  }

  lemma StartInOrder(c: Settings, clock: int, files: Files)
    ensures InOrder(c, files.state, Start(clock, files))
  {
    hide Cleared, Passed, Dumped;
  }

  /** For every schedule and after any number of calls. */
  lemma {:induction false} RunInOrder(c: Settings, clock: int, files: Files, script: (nat, Op) -> Reply, n: nat)
    ensures InOrder(c, files.state, Run(c, Start(clock, files), script, n))
  {
    StartInOrder(c, clock, files);
    hide InOrder, Step, Start;
    if n > 0 {
      RunInOrder(c, clock, files, script, n - 1);
      var p := Run(c, Start(clock, files), script, n - 1);
      RunMore(c, Start(clock, files), script, n);
      hide *;
      if !p.phase.Ended? { InOrderStep(c, files.state, p, script(n - 1, Wants(p.phase))); }
    }
  }

  // ---- main results -----------------------------------------------------------------------------------------------

  /** A backup is published at most once, and only after every gate: this node elected, the writer guard, a working
      preflight, a healthy cluster, a worked dump, a node that is back in Synced if it was switched, and a flow-control
      counter within the threshold of the one seen at the start. */
  lemma PublishedAfterEveryGate(c: Settings, clock: int, files: Files, script: (nat, Op) -> Reply, n: nat, i: nat)
    requires i < |Run(c, Start(clock, files), script, n).journal|
    requires Run(c, Start(clock, files), script, n).journal[i].op.Publish?
    ensures var j := Run(c, Start(clock, files), script, n).journal;
      Qualified(c, files.state, j[..i]) && forall k | 0 <= k < |j| && j[k].op.Publish? :: k == i
  {
    RunInOrder(c, clock, files, script, n);
    ClearedIff(c, files.state, Run(c, Start(clock, files), script, n).journal[..i]);
    hide Run, Cleared, Qualified, History, SwitchedBack;
  }

  /** Whether the server is desynced by this run: the last command that took effect decides. */
  function LeftSwitched(j: seq<Entry>): bool {
    if j == [] then false
    else
      var e := j[|j| - 1];
      if e.op.DesyncOn? && e.reply.Takes() then true
      else if e.op.DesyncOff? && e.reply.Takes() then false else LeftSwitched(j[..|j| - 1])
  }

  predicate TookOn(j: seq<Entry>) { Called(j, 11, DesyncOn) && j[11].reply.Takes() }

  predicate TookOff(j: seq<Entry>) { Called(j, 13, DesyncOff) && j[13].reply.Takes() }

  lemma {:induction false} LeftSwitchedAt(c: Settings, s0: StateFile, j: seq<Entry>, n: nat)
    requires Orderly(c, s0, j) && n <= |j|
    ensures LeftSwitched(j[..n]) <==> n > 11 && TookOn(j) && !(n > 13 && TookOff(j))
  {
    if n > 0 {
      LeftSwitchedAt(c, s0, j, n - 1);
      assert j[..n][..n - 1] == j[..n - 1] && j[..n][n - 1] == j[n - 1];
    }
  }

  ghost predicate AtMostOnce(j: seq<Entry>, op: Op) {
    forall i, k | 0 <= i < |j| && 0 <= k < |j| && j[i].op == op && j[k].op == op :: i == k
  }

  /** A run sends at most one ON, only from state 4, and at most one OFF, only after a worked ON and the dump. At the end the
      server is left desynced by it in exactly two cases: the ON raised although the server obeyed,
      after which no OFF is sent; or the ON worked and the one OFF, right after the dump, raised without effect. */
  lemma DesyncIsUndoneUnless(c: Settings, clock: int, files: Files, script: (nat, Op) -> Reply, n: nat)
    requires Run(c, Start(clock, files), script, n).phase.Ended?
    ensures var j := Run(c, Start(clock, files), script, n).journal;
      LeftSwitched(j) <==> (TookOn(j) && !Worked(j, 11, DesyncOn)) || (Worked(j, 11, DesyncOn) && !TookOff(j))
    ensures var j := Run(c, Start(clock, files), script, n).journal;
      (exists i | 0 <= i < |j| :: j[i].op.DesyncOn? && j[i].reply.Works()) ==> Called(j, 12, Dump) && Called(j, 13, DesyncOff)
    ensures var j := Run(c, Start(clock, files), script, n).journal;
      (exists i | 0 <= i < |j| :: j[i].op.DesyncOn?) ==> SeenInState4(j)
    ensures var j := Run(c, Start(clock, files), script, n).journal;
      AtMostOnce(j, DesyncOn) && AtMostOnce(j, DesyncOff)
      && ((exists i | 0 <= i < |j| :: j[i].op.DesyncOff?) ==> Worked(j, 11, DesyncOn) && Called(j, 12, Dump))
  {
    RunInOrder(c, clock, files, script, n);
    var j := Run(c, Start(clock, files), script, n).journal;
    LeftSwitchedAt(c, files.state, j, |j|);
    assert j[..|j|] == j;
    hide Run, Cleared, History, LeftSwitched;
  }

  // ---- who acts ---------------------------------------------------------------------------------------------------

  /** Entry `k` holds the schedule's answer to call number `k`. */
  ghost predicate AnswersOf(script: (nat, Op) -> Reply, j: seq<Entry>) {
    forall k | 0 <= k < |j| :: j[k].reply == script(k, j[k].op)
  }

  /** The journal holds every call the run made, in order, each with its own answer. */
  lemma {:induction false} JournalIsTrue(c: Settings, clock: int, files: Files, script: (nat, Op) -> Reply, n: nat)
    ensures var m := Run(c, Start(clock, files), script, n);
      |m.journal| <= n && (!m.phase.Ended? ==> |m.journal| == n) && AnswersOf(script, m.journal)
  {
    hide Step, Wants;
    if n > 0 {
      JournalIsTrue(c, clock, files, script, n - 1);
      var p := Run(c, Start(clock, files), script, n - 1);
      RunMore(c, Start(clock, files), script, n);
      hide *;
      if !p.phase.Ended? {
        var r := script(n - 1, Wants(p.phase));
        StepLogs(c, p, r);
        AnswersMore(script, p.journal, Entry(Wants(p.phase), r));
      }
    }
  }

  lemma AnswersMore(script: (nat, Op) -> Reply, j: seq<Entry>, e: Entry)
    requires AnswersOf(script, j) && e.reply == script(|j|, e.op)
    ensures AnswersOf(script, j + [e])
  {
  }

  /** A call that only the elected node makes. */
  predicate Acts(op: Op) { op.AskWriter? || op.Build? || op.DesyncOn? || op.DesyncOff? || op.Dump? || op.Publish? }

  predicate Chosen(c: Settings, j: seq<Entry>) {
    |j| > 2 && j[2].op.AskDonor? && j[2].reply.Works() && Proceeds(c.node, j[2].reply.rows)
  }

  ghost predicate ActsIfChosen(c: Settings, j: seq<Entry>) {
    (exists k | 0 <= k < |j| :: Acts(j[k].op)) ==> Chosen(c, j)
  }

  lemma ChosenToAct(c: Settings, s0: StateFile, m: Machine)
    requires History(c, s0, m) && !m.phase.Ended? && Acts(Wants(m.phase))
    ensures Chosen(c, m.journal)
  {
    assert PassedGate(c, s0, m.journal[2], 2);
    PassedWorked(c, s0, m.journal[2], 2);
    hide Proceeds, Objection, Dumped, Cleared, FlowObjection;
  }

  /** What only the elected node does is done only by a run whose election said that it is this node. */
  lemma ChosenStep(c: Settings, s0: StateFile, m: Machine, r: Reply)
    requires History(c, s0, m) && !m.phase.Ended? && ActsIfChosen(c, m.journal)
    ensures ActsIfChosen(c, Step(c, m, r).journal)
  {
    StepLogs(c, m, r);
    var e := Entry(Wants(m.phase), r);
    assert Step(c, m, r).journal == m.journal + [e];
    if Acts(e.op) { ChosenToAct(c, s0, m); }
    hide Step, Wants, Acts, Proceeds, History;
  }

  lemma OrderGives(c: Settings, s0: StateFile, m: Machine)
    requires InOrder(c, s0, m)
    ensures History(c, s0, m)
  {
  }

  /** Only a run whose node was elected in what ProxySQL showed to it asks for the writers, opens the backend, switches the
      node, dumps or publishes. */
  lemma {:induction false} OnlyTheChosenActs(c: Settings, clock: int, files: Files, script: (nat, Op) -> Reply, n: nat)
    ensures ActsIfChosen(c, Run(c, Start(clock, files), script, n).journal)
  {
    hide Step, Wants, InOrder, Chosen;
    if n > 0 {
      OnlyTheChosenActs(c, clock, files, script, n - 1);
      RunInOrder(c, clock, files, script, n - 1);
      var p := Run(c, Start(clock, files), script, n - 1);
      RunMore(c, Start(clock, files), script, n);
      hide *;
      OrderGives(c, files.state, p);
      if !p.phase.Ended? { ChosenStep(c, files.state, p, script(n - 1, Wants(p.phase))); }
    }
  }
}
