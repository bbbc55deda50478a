/** Donor election and writer guard: which node of the fleet makes the backup, and why it is never the writer. */
module Election {
  import opened Errors
  import opened Strings

  /** What one node knows before it asks ProxySQL. The flags say whether the settings and credentials are usable. */
  datatype Config = Config(nodes: set<string>, preferred: string, address: string, hostname: string,
                           electionSet: bool, guardSet: bool, credentials: bool)

  /** The non-blank lines of a query result, stripped. */
  function Lines(rows: seq<string>): (r: seq<string>)
    ensures forall x :: x in r <==> x != [] && exists row | row in rows :: Strip(row) == x
  {
    if rows == [] then []
    else
      assert forall row :: row in rows <==> row == rows[0] || row in rows[1..];
      var first := Strip(rows[0]);
      var rest := Lines(rows[1..]);
      assert rows[0] in rows;
      assert forall x :: x in [first] + rest <==> x == first || x in rest;
      if first == [] then rest else [first] + rest
  }

  /** The nodes of this cluster that ProxySQL shows ONLINE in the backup hostgroup. */
  function Candidates(cfg: Config, rows: seq<string>): set<string> {
    (set x | x in Lines(rows)) * cfg.nodes
  }

  /** `elect_backup_donor`; `rows` is None when the query failed. */
  function Elect(cfg: Config, rows: Option<seq<string>>): Result<string> {
    if !cfg.electionSet then Err(Coded(E_CONFIG, 0))
    else if !cfg.credentials then Err(Coded(E_SECRETS, 0))
    else if rows.None? then Err(Coded(E_PROXYSQL, 0))
    else if Candidates(cfg, rows.value) == {} then Err(Coded(E_PROXYSQL, 0))
    else if Strip(cfg.preferred) in Candidates(cfg, rows.value) then Ok(Strip(cfg.preferred))
    else Ok(Least(Candidates(cfg, rows.value)))
  }

  /** Under which address the guard knows this node. */
  function Identity(cfg: Config): string {
    if Strip(cfg.address) != [] then Strip(cfg.address) else Strip(cfg.preferred)
  }

  /** `assert_scheduler_is_not_writer`: None when the node may go on. */
  function Guard(cfg: Config, rows: Option<seq<string>>): Option<Failure> {
    if !cfg.guardSet then Some(Coded(E_CONFIG, 0))
    else if !cfg.credentials then Some(Coded(E_SECRETS, 0))
    else if rows.None? then Some(Coded(E_PROXYSQL, 0))
    else
      var writers := Lines(rows.value);
      if |writers| != 1 then Some(Coded(E_PROXYSQL, 0))
      else if cfg.nodes != {} && writers[0] !in cfg.nodes then Some(Coded(E_PROXYSQL, 0))
      else if writers[0] == Identity(cfg) || writers[0] == Strip(cfg.hostname) then Some(Coded(E_WRITER, 0))
      else None
  }

  /** The node makes the backup in this round: the `donor != me` test of the run. */
  predicate Proceeds(cfg: Config, rows: Option<seq<string>>) {
    Strip(cfg.address) != [] && Elect(cfg, rows) == Ok(Strip(cfg.address))
  }

  /** Another node was elected: this one leaves without a backup. */
  predicate Declines(cfg: Config, rows: Option<seq<string>>) {
    Strip(cfg.address) != [] && Elect(cfg, rows).Ok? && Elect(cfg, rows).value != Strip(cfg.address)
  }

  /** A node of the cluster that some row shows. */
  ghost predicate Online(cfg: Config, rows: seq<string>, x: string) {
    x in cfg.nodes && x != [] && exists row | row in rows :: Strip(row) == x
  }

  /** The donor, said on the rows: the preferred node if it is shown, else the first in alphabetical order. */
  ghost predicate IsDonor(cfg: Config, rows: seq<string>, d: string) {
    Online(cfg, rows, d)
    && if Online(cfg, rows, Strip(cfg.preferred)) then d == Strip(cfg.preferred)
       else forall x | Online(cfg, rows, x) :: Le(d, x)
  }

  /** Election, both ways, with the code of each failure. */
  lemma ElectIff(cfg: Config, rows: Option<seq<string>>, d: string)
    ensures Elect(cfg, rows) == Ok(d) <==> cfg.electionSet && cfg.credentials && rows.Some? && IsDonor(cfg, rows.value, d)
    ensures var code := if !cfg.electionSet then E_CONFIG else if !cfg.credentials then E_SECRETS else E_PROXYSQL;
      Elect(cfg, rows).Err? ==> Elect(cfg, rows) == Err(Coded(code, 0))
  {
    if cfg.electionSet && cfg.credentials && rows.Some? {
      assert forall x :: Online(cfg, rows.value, x) <==> x in Candidates(cfg, rows.value);
      hide Strip, Candidates, Online, Le, Lines;
      if IsDonor(cfg, rows.value, d) && !Online(cfg, rows.value, Strip(cfg.preferred)) {
        LeAntisymmetric(d, Least(Candidates(cfg, rows.value)));
      }
    }
  }

  /** The donor is a member of the cluster that ProxySQL shows; it is the preferred node whenever that is one. */
  lemma DonorIsCandidate(cfg: Config, rows: seq<string>)
    requires Elect(cfg, Some(rows)).Ok?
    ensures var d := Elect(cfg, Some(rows)).value;
      d in cfg.nodes && (exists row | row in rows :: Strip(row) == d)
      && (Strip(cfg.preferred) in Candidates(cfg, rows) ==> d == Strip(cfg.preferred))
      && (Strip(cfg.preferred) !in Candidates(cfg, rows) ==> forall x | x in Candidates(cfg, rows) :: Le(d, x))
  {
  }

  /** With the settings in place election fails only if the query failed or showed no node of the cluster. */
  lemma ElectionFailsOnlyOnEmptyView(cfg: Config, rows: Option<seq<string>>)
    requires cfg.electionSet && cfg.credentials
    ensures Elect(cfg, rows).Err?
            <==> rows.None? || forall x | x in cfg.nodes && x != [] :: !exists row | row in rows.value :: Strip(row) == x
  {
    if rows.Some? {
      if Elect(cfg, rows).Ok? { DonorIsCandidate(cfg, rows.value); }
      forall x | x in cfg.nodes && x in Lines(rows.value) ensures Elect(cfg, rows).Ok? {
        assert x in Candidates(cfg, rows.value);
      }
    }
  }

  /** Same nodes of the cluster, whatever the order, the repetitions, the blanks and the other tenants' rows. */
  ghost predicate SameView(cfg: Config, rows: seq<string>, rows': seq<string>) {
    forall x | x in cfg.nodes && x != [] ::
      (exists row | row in rows :: Strip(row) == x) <==> (exists row | row in rows' :: Strip(row) == x)
  }

  lemma ElectionIgnoresPresentation(cfg: Config, rows: seq<string>, rows': seq<string>)
    requires SameView(cfg, rows, rows')
    ensures Elect(cfg, Some(rows)) == Elect(cfg, Some(rows'))
  {
    assert Candidates(cfg, rows) == Candidates(cfg, rows');
  }

  // ---- the fleet --------------------------------------------------------------------------------------------------

  /** Nodes configured alike but for their addresses, which are distinct. */
  ghost predicate OneFleet(fleet: seq<Config>) {
    (forall i | 0 <= i < |fleet| :: Strip(fleet[i].address) != [])
    && (forall i, j | 0 <= i < j < |fleet| :: Strip(fleet[i].address) != Strip(fleet[j].address))
    && (forall i, j | 0 <= i < |fleet| && 0 <= j < |fleet| ::
          fleet[i].nodes == fleet[j].nodes && fleet[i].preferred == fleet[j].preferred
          && fleet[i].electionSet == fleet[j].electionSet && fleet[i].credentials == fleet[j].credentials)
  }

  ghost predicate InFleet(fleet: seq<Config>, address: string) {
    exists i | 0 <= i < |fleet| :: Strip(fleet[i].address) == address
  }

  lemma SameElection(a: Config, b: Config, rows: Option<seq<string>>)
    requires a.nodes == b.nodes && a.preferred == b.preferred
    requires a.electionSet == b.electionSet && a.credentials == b.credentials
    ensures Elect(a, rows) == Elect(b, rows)
  {
    if rows.Some? { assert Candidates(a, rows.value) == Candidates(b, rows.value); }
  }

  /** From one shared view at most one node proceeds, and one does exactly when a node of the fleet was elected. */
  lemma ExactlyOneProceeds(fleet: seq<Config>, rows: Option<seq<string>>)
    requires OneFleet(fleet) && fleet != []
    ensures forall i, j | 0 <= i < |fleet| && 0 <= j < |fleet| && Proceeds(fleet[i], rows)
            && Proceeds(fleet[j], rows) :: i == j
    ensures (exists i | 0 <= i < |fleet| :: Proceeds(fleet[i], rows))
            <==> Elect(fleet[0], rows).Ok? && InFleet(fleet, Elect(fleet[0], rows).value)
  {
    forall i | 0 <= i < |fleet| ensures Elect(fleet[i], rows) == Elect(fleet[0], rows) {
      SameElection(fleet[i], fleet[0], rows);
    }
    hide Elect, Strip;
    if Elect(fleet[0], rows).Ok? && InFleet(fleet, Elect(fleet[0], rows).value) {
      var i :| 0 <= i < |fleet| && Strip(fleet[i].address) == Elect(fleet[0], rows).value;
      assert Proceeds(fleet[i], rows);
    }
  }

  /** The preferred node is the one that proceeds whenever it is healthy. */
  lemma PreferredProceeds(cfg: Config, rows: seq<string>)
    requires cfg.electionSet && cfg.credentials && Strip(cfg.address) == Strip(cfg.preferred) != []
    requires Strip(cfg.preferred) in Candidates(cfg, rows)
    ensures Proceeds(cfg, Some(rows))
  {
  }

  /** Row `i` is the only one that is not blank. */
  ghost predicate OnlyRow(rows: seq<string>, i: int) {
    0 <= i < |rows| && Strip(rows[i]) != [] && forall j | 0 <= j < |rows| && j != i :: Strip(rows[j]) == []
  }

  lemma {:induction false} NoLines(rows: seq<string>)
    ensures Lines(rows) == [] <==> forall j | 0 <= j < |rows| :: Strip(rows[j]) == []
  {
    hide Strip;
    if rows != [] {
      NoLines(rows[1..]);
      assert forall j | 1 <= j < |rows| :: rows[j] == rows[1..][j - 1];
    }
  }

  lemma {:induction false} OneLine(rows: seq<string>, w: string)
    ensures Lines(rows) == [w] <==> exists i :: OnlyRow(rows, i) && Strip(rows[i]) == w
  {
    hide Strip;
    if rows != [] {
      var rest := rows[1..];
      OneLine(rest, w);
      NoLines(rest);
      assert forall j | 1 <= j < |rows| :: rows[j] == rest[j - 1];
      if Strip(rows[0]) == [] {
        if i :| OnlyRow(rest, i) && Strip(rest[i]) == w { assert OnlyRow(rows, i + 1); }
        if i :| OnlyRow(rows, i) && Strip(rows[i]) == w { assert OnlyRow(rest, i - 1); }
      } else {
        assert Lines(rows)[0] == Strip(rows[0]);
        if Lines(rest) == [] { assert OnlyRow(rows, 0); }
        if i :| OnlyRow(rows, i) { assert i == 0; }
      }
    }
  }

  /** Row `i` shows this node, under its address, or the preferred one if it has none, or under its host name. */
  predicate ShowsSelf(cfg: Config, row: string) {
    Strip(row) == (if Strip(cfg.address) != [] then Strip(cfg.address) else Strip(cfg.preferred))
    || Strip(row) == Strip(cfg.hostname)
  }

  /** Exactly one writer, of this cluster; `own` says whether it is this node. */
  ghost predicate OneWriter(cfg: Config, rows: seq<string>, own: bool) {
    exists i :: OnlyRow(rows, i) && (cfg.nodes == {} || Strip(rows[i]) in cfg.nodes) && ShowsSelf(cfg, rows[i]) == own
  }

  /** The guard, both ways, on the rows as they come: the query worked and showed exactly one writer, of this cluster, that
      is not this node under either of its names. E_WRITER is for the writer itself; each other failure has its code. */
  lemma GuardPassesIff(cfg: Config, rows: Option<seq<string>>)
    ensures Guard(cfg, rows).None?
            <==> cfg.guardSet && cfg.credentials && rows.Some? && OneWriter(cfg, rows.value, false)
    ensures var code := if !cfg.guardSet then E_CONFIG else if !cfg.credentials then E_SECRETS
                        else if rows.Some? && OneWriter(cfg, rows.value, true) then E_WRITER else E_PROXYSQL;
      Guard(cfg, rows).Some? ==> Guard(cfg, rows) == Some(Coded(code, 0))
  {
    if rows.Some? {
      var lines := Lines(rows.value);
      forall w ensures lines == [w] <==> exists i :: OnlyRow(rows.value, i) && Strip(rows.value[i]) == w {
        OneLine(rows.value, w);
      }
      hide Strip, Lines, OnlyRow;
      if |lines| == 1 {
        assert lines == [lines[0]];
        var i :| OnlyRow(rows.value, i) && Strip(rows.value[i]) == lines[0];
      }
      forall i | OnlyRow(rows.value, i) ensures lines == [Strip(rows.value[i])] {}
    }
  }

  /** How many rows show `w`. */
  function Times(rows: seq<string>, w: string): nat {
    if rows == [] then 0 else (if Strip(rows[0]) == w then 1 else 0) + Times(rows[1..], w)
  }

  lemma {:induction false} LinesAreTimes(rows: seq<string>, w: string)
    requires w != []
    ensures multiset(Lines(rows))[w] == Times(rows, w)
  {
    hide Strip;
    if rows != [] {
      LinesAreTimes(rows[1..], w);
      assert multiset([Strip(rows[0])] + Lines(rows[1..])) == multiset{Strip(rows[0])} + multiset(Lines(rows[1..]));
    }
  }

  /** Two results that show every address equally often, whatever order, padding and blank rows, get the same verdict. */
  lemma GuardIgnoresPresentation(cfg: Config, rows: seq<string>, rows': seq<string>)
    requires forall w | w != [] :: Times(rows, w) == Times(rows', w)
    ensures Guard(cfg, Some(rows)) == Guard(cfg, Some(rows'))
  {
    SameLines(rows, rows');
    hide Strip, Lines, Times, Identity;
    SameLine(Lines(rows), Lines(rows'));
  }

  lemma SameLines(rows: seq<string>, rows': seq<string>)
    requires forall w | w != [] :: Times(rows, w) == Times(rows', w)
    ensures multiset(Lines(rows)) == multiset(Lines(rows'))
  {
    var a, b := Lines(rows), Lines(rows');
    forall w ensures multiset(a)[w] == multiset(b)[w] {
      if w == [] {
        assert w !in a && w !in b;
      } else {
        LinesAreTimes(rows, w);
        LinesAreTimes(rows', w);
      }
    }
  }

  lemma SameLine(a: seq<string>, b: seq<string>)
    requires multiset(a) == multiset(b)
    ensures |a| == |b| && (|a| == 1 ==> a == b)
  {
    assert |a| == |multiset(a)| && |b| == |multiset(b)|;
    if |a| == 1 { assert a[0] in multiset(b); }
  }

  /** A donor elected from a backup hostgroup that does not show the writer is not the writer, and the guard lets it
      through unless its host name is the writer's address. */
  lemma DonorIsNotWriter(cfg: Config, backup: seq<string>, writer: seq<string>)
    requires Proceeds(cfg, Some(backup)) && cfg.guardSet
    requires forall x | x in Lines(backup) :: x !in Lines(writer)
    requires |Lines(writer)| == 1 && Lines(writer)[0] in cfg.nodes && Lines(writer)[0] != Strip(cfg.hostname)
    ensures Strip(cfg.address) !in Lines(writer) && Guard(cfg, Some(writer)).None?
  {
    DonorIsCandidate(cfg, backup);
    assert Lines(writer)[0] in Lines(writer);
  }

  /** Whatever was elected, the active writer itself never gets past the guard. */
  lemma WriterIsStopped(cfg: Config, writer: seq<string>)
    requires Strip(cfg.address) != [] && Strip(cfg.address) in Lines(writer)
    ensures Guard(cfg, Some(writer)).Some?
  {
    if |Lines(writer)| == 1 { assert Lines(writer)[0] == Strip(cfg.address); }
  }
}
