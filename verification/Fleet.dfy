/** One round of the fleet: every node runs the same code against one view of ProxySQL. */
module Fleet {
  import opened Errors
  import opened Strings
  import opened Election
  import opened RunMachine
  import opened RunOrder
  import opened RunAftermath
  import opened BackupRun

  function Configs(nodes: seq<Runner>): (r: seq<Config>)
    ensures |r| == |nodes| && forall i | 0 <= i < |r| :: r[i] == nodes[i].cfg.node
  {
    if nodes == [] then [] else [nodes[0].cfg.node] + Configs(nodes[1..])
  }

  /** Distinct nodes of one fleet that have not started; their files may hold anything. */
  ghost predicate Ready(nodes: seq<Runner>)
    reads nodes
  {
    nodes != [] && (forall i, j | 0 <= i < j < |nodes| :: nodes[i] != nodes[j])
    && (forall i | 0 <= i < |nodes| :: nodes[i].Fresh()) && OneFleet(Configs(nodes))
  }

  /** All nodes ask ProxySQL and see the same. */
  ghost predicate OneView(nodes: seq<Runner>, view: Option<seq<string>>) {
    forall i, t: nat | 0 <= i < |nodes| :: nodes[i].script(t, AskDonor).rows == view
  }

  /** The file calls of all nodes work, and their queries. */
  ghost predicate FilesWork(nodes: seq<Runner>, view: Option<seq<string>>) {
    forall i | 0 <= i < |nodes| :: FileCallsWork(nodes[i].script, view)
  }

  /** The node's run is over, and it is a run of the machine. */
  ghost predicate HasRun(n: Runner, origin: Machine)
    reads n
  {
    origin == Start(origin.clock, origin.files)
    && n.origin == origin && n.Tracks() && n.InStep() && n.m.phase.Ended? && !n.locked
  }

  /** The run did something that only the elected node does. */
  ghost predicate Acted(n: Runner)
    reads n
  {
    exists k | 0 <= k < |n.m.journal| :: Acts(n.m.journal[k].op)
  }

  /** Exactly one node, the elected one, has a backup metric, and no other has a bridge file. */
  ghost predicate OneOwner(nodes: seq<Runner>, donor: string)
    reads nodes
  {
    exists i | 0 <= i < |nodes| :: Strip(nodes[i].cfg.node.address) == donor && nodes[i].metric.Some?
      && forall j | 0 <= j < |nodes| && j != i :: nodes[j].metric.None? && nodes[j].bridge.None?
  }

  /** All nodes but the elected one decline. */
  lemma OthersDecline(fleet: seq<Config>, view: Option<seq<string>>, donor: string) returns (i: nat)
    requires OneFleet(fleet) && fleet != [] && Elect(fleet[0], view) == Ok(donor) && InFleet(fleet, donor)
    ensures i < |fleet| && Strip(fleet[i].address) == donor && Proceeds(fleet[i], view) && !Declines(fleet[i], view)
    ensures forall j | 0 <= j < |fleet| && j != i :: Declines(fleet[j], view)
  {
    i :| 0 <= i < |fleet| && Strip(fleet[i].address) == donor;
    hide Strip, Elect;
    forall j | 0 <= j < |fleet| ensures Elect(fleet[j], view) == Ok(donor) { SameElection(fleet[j], fleet[0], view); }
  }

  /** A node that did what only an elected node does was elected in the view it saw. */
  lemma ActedIsChosen(n: Runner, origin: Machine, view: Option<seq<string>>)
    requires HasRun(n, origin) && Acted(n) && forall t: nat :: n.script(t, AskDonor).rows == view
    ensures Proceeds(n.cfg.node, view)
  {
    hide Run, Proceeds, Start, Acts;
    OnlyTheChosenActs(n.cfg, origin.clock, origin.files, n.script, n.tick);
    JournalIsTrue(n.cfg, origin.clock, origin.files, n.script, n.tick);
    assert ActsIfChosen(n.cfg, n.m.journal);
    assert Chosen(n.cfg, n.m.journal);
  }

  /** What a finished run has left of the metric files. */
  lemma LeftTidy(n: Runner, origin: Machine, view: Option<seq<string>>)
    requires HasRun(n, origin) && FileCallsWork(n.script, view) && !origin.files.state.Damaged?
    ensures (n.metric.Some? <==> !Declines(n.cfg.node, view)) && (Declines(n.cfg.node, view) ==> n.bridge.None?)
  {
    hide Run, Declines, Start, FileCallsWork;
    MetricIsTheDonors(n.cfg, origin.clock, origin.files, n.script, n.tick, view);
  }

  lemma AtMostOneActs(nodes: seq<Runner>, origins: seq<Machine>, view: Option<seq<string>>)
    requires AllRun(nodes, origins) && OneFleet(Configs(nodes)) && OneView(nodes, view)
    ensures forall i, j | 0 <= i < |nodes| && 0 <= j < |nodes| && Acted(nodes[i]) && Acted(nodes[j]) :: i == j
  {
    hide HasRun, Acted, Proceeds, InFleet, Elect;
    if nodes != [] {
      ExactlyOneProceeds(Configs(nodes), view);
      forall i | 0 <= i < |nodes| && Acted(nodes[i]) ensures Proceeds(Configs(nodes)[i], view) {
        ActedIsChosen(nodes[i], origins[i], view);
      }
      hide OneFleet;
    }
  }

  lemma OneOwnerIsLeft(nodes: seq<Runner>, origins: seq<Machine>, view: Option<seq<string>>, donor: string)
    requires AllRun(nodes, origins) && nodes != [] && OneFleet(Configs(nodes)) && FilesWork(nodes, view)
    requires forall i | 0 <= i < |nodes| :: !origins[i].files.state.Damaged?
    requires Elect(nodes[0].cfg.node, view) == Ok(donor) && InFleet(Configs(nodes), donor)
    ensures OneOwner(nodes, donor)
  {
    hide HasRun, Declines, InFleet, Elect, Strip, FileCallsWork, Proceeds, OneFleet;
    var i := OthersDecline(Configs(nodes), view, donor);
    forall j | 0 <= j < |nodes|
      ensures (nodes[j].metric.Some? <==> !Declines(Configs(nodes)[j], view))
              && (Declines(Configs(nodes)[j], view) ==> nodes[j].bridge.None?)
    {
      LeftTidy(nodes[j], origins[j], view);
    }
  }

  ghost predicate AllRun(nodes: seq<Runner>, origins: seq<Machine>)
    reads nodes
  {
    |origins| == |nodes| && forall i | 0 <= i < |nodes| :: HasRun(nodes[i], origins[i])
  }

  lemma StatesFound(nodes: seq<Runner>)
    requires forall i | 0 <= i < |nodes| :: nodes[i].Fresh()
    ensures forall i | 0 <= i < |nodes| :: nodes[i].m.files.state == nodes[i].state
  {
  }

  method RunOne(n: Runner) returns (ghost origin: Machine)
    requires n.Fresh()
    modifies n
    ensures HasRun(n, origin) && origin == old(n.m)
  {
    hide Run;
    origin := n.m;
    var r := n.RunBackup();
  }

  /** Every node runs, in turn; each run is a run of the machine from the files that were there. */
  method RunAll(nodes: seq<Runner>) returns (ghost origins: seq<Machine>)
    requires Ready(nodes)
    modifies nodes
    ensures AllRun(nodes, origins)
    ensures forall i | 0 <= i < |nodes| ::
      origins[i] == old(nodes[i].m) && origins[i].files.state == old(nodes[i].state)
  {
    hide Run, OneFleet, Runner.Fresh, HasRun;
    StatesFound(nodes);
    origins := seq(|nodes|, i requires 0 <= i < |nodes| reads nodes => nodes[i].m);
    for k := 0 to |nodes|
      invariant forall i | 0 <= i < k :: HasRun(nodes[i], origins[i])
      invariant forall i | k <= i < |nodes| :: nodes[i].Fresh() && nodes[i].m == origins[i]
    {
      label Before:
      ghost var origin := RunOne(nodes[k]);
      forall i | 0 <= i < k ensures HasRun(nodes[i], origins[i]) {
        assert nodes[i] != nodes[k];
        assert old@Before(HasRun(nodes[i], origins[i]));
      }
      forall i | k < i < |nodes| ensures nodes[i].Fresh() {
        assert nodes[i] != nodes[k];
        assert old@Before(nodes[i].Fresh());
      }
    }
  }

  /** One round, from any contents of the files. If all nodes see one view, at most one node does what only an elected node
      does, whatever fails; and if the calls on lock, state and metric files work and the elected address is in the
      fleet, the metric files end with exactly one owner, the elected node, whatever else fails. */
  method Round(nodes: seq<Runner>, ghost view: Option<seq<string>>)
    requires Ready(nodes)
    modifies nodes
    ensures OneView(nodes, view) ==>
              forall i, j | 0 <= i < |nodes| && 0 <= j < |nodes| && Acted(nodes[i]) && Acted(nodes[j]) :: i == j
    ensures FilesWork(nodes, view) && (forall i | 0 <= i < |nodes| :: !old(nodes[i].state).Damaged?)
            && Elect(nodes[0].cfg.node, view).Ok? && InFleet(Configs(nodes), Elect(nodes[0].cfg.node, view).value)
            ==> OneOwner(nodes, Elect(nodes[0].cfg.node, view).value)
  {
    ghost var origins := RunAll(nodes);
    hide Elect, Strip, HasRun, Acted, OneOwner, OneFleet, InFleet, FileCallsWork;
    if OneView(nodes, view) { AtMostOneActs(nodes, origins, view); }
    if FilesWork(nodes, view) && (forall i | 0 <= i < |nodes| :: !old(nodes[i].state).Damaged?)
       && Elect(nodes[0].cfg.node, view).Ok? && InFleet(Configs(nodes), Elect(nodes[0].cfg.node, view).value)
    {
      OneOwnerIsLeft(nodes, origins, view, Elect(nodes[0].cfg.node, view).value);
    }
  }
}
