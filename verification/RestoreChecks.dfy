/** The guards of a restore: archive members, the data directory that may be cleared, the restored database. */
module RestoreChecks {
  import opened Errors
  import opened Strings

  // ---- archive members --------------------------------------------------------------------------------------------

  datatype Kind = Regular | Directory | SymLink | HardLink | Fifo | Device | OtherKind

  datatype Member = Member(name: string, kind: Kind)

  /** The parts of a path: split at slashes, without empty parts and without ".". */
  function Parts(path: string): seq<string> { Split(path, "") }

  function Split(path: string, part: string): seq<string> {
    if path == "" then Part(part)
    else if path[0] == '/' then Part(part) + Split(path[1..], "")
    else Split(path[1..], part + [path[0]])
  }

  function Part(part: string): seq<string> { if part == "" || part == "." then [] else [part] }

  /** `is_safe_tar_member` */
  predicate SafeMember(m: Member) {
    m.name != "" && m.name[0] != '/' && ".." !in Parts(m.name) && (m.kind.Regular? || m.kind.Directory?)
  }

  /** No part is empty or a single dot, or has a slash in it. */
  lemma {:induction false} PartsArePlain(path: string, part: string)
    requires '/' !in part
    ensures forall p | p in Split(path, part) :: p != "" && p != "." && '/' !in p
    decreases |path|
  {
    if path == "" {
    } else if path[0] == '/' {
      PartsArePlain(path[1..], "");
    } else {
      PartsArePlain(path[1..], part + [path[0]]);
    }
  }

  /** ".." stands at `i` between slashes, or a slash and an end. */
  predicate DotsAt(name: string, i: int) {
    0 <= i && i + 2 <= |name| && name[i] == '.' && name[i + 1] == '.' && (i == 0 || name[i - 1] == '/')
    && (i + 2 == |name| || name[i + 2] == '/')
  }

  /** ".." is one of the parts exactly if it stands somewhere; `part` is what has been read of the current part. */
  lemma {:induction false} DotsBetweenSlashes(path: string, part: string)
    requires '/' !in part
    ensures ".." in Split(path, part) <==> exists i :: DotsAt(part + path, i)
    decreases |path|
  {
    var whole := part + path;
    if path == "" {
      assert whole == part;
      DotsAlone(part);
    } else if path[0] != '/' {
      assert whole == (part + [path[0]]) + path[1..];
      DotsBetweenSlashes(path[1..], part + [path[0]]);
    } else {
      DotsBetweenSlashes(path[1..], "");
      assert "" + path[1..] == path[1..] && whole == part + "/" + path[1..];
      DotsBeside(part, path[1..]);
      DotsAlone(part);
    }
  }

  lemma DotsAlone(part: string)
    requires '/' !in part
    ensures part == ".." <==> exists i :: DotsAt(part, i)
    ensures ".." in Part(part) <==> part == ".."
  {
    if part == ".." { assert DotsAt(part, 0); }
    if i :| DotsAt(part, i) { assert i == 0 && |part| == 2; }
  }

  /** Before the first slash or behind it. */
  lemma DotsBeside(part: string, rest: string)
    requires '/' !in part
    ensures (exists i :: DotsAt(part + "/" + rest, i)) <==> (exists i :: DotsAt(part, i)) || exists i :: DotsAt(rest, i)
  {
    var whole, n := part + "/" + rest, |part| + 1;
    assert whole[|part|] == '/' && forall k | 0 <= k < |part| :: whole[k] == part[k] && part[k] != '/';
    if i :| DotsAt(whole, i) {
      if i < n {
        assert whole[i] == '.' && whole[i + 1] == '.';
        assert i + 1 < |part|;
        assert DotsAt(part, i);
      } else {
        assert i > n ==> rest[i - n - 1] == whole[i - 1];
        assert DotsAt(rest, i - n);
      }
    }
    if i :| DotsAt(part, i) { assert DotsAt(whole, i); }
    if i :| DotsAt(rest, i) {
      assert i > 0 ==> whole[n + i - 1] == rest[i - 1];
      assert DotsAt(whole, n + i);
    }
  }

  /** By its characters: the name is relative and not empty, ".." stands nowhere between two slashes or a slash and an end,
      and the member is a regular file or a directory. */
  ghost predicate Harmless(m: Member) {
    m.name != "" && m.name[0] != '/' && (m.kind == Regular || m.kind == Directory)
    && !exists i, j | 0 <= i <= j <= |m.name| ::
         (i == 0 || m.name[i - 1] == '/') && (j == |m.name| || m.name[j] == '/') && m.name[i..j] == ".."
  }

  /** Exactly the harmless members are accepted. */
  lemma SafeMemberIff(m: Member)
    ensures SafeMember(m) <==> Harmless(m)
  {
    DotsBetweenSlashes(m.name, "");
    assert "" + m.name == m.name;
    DotsAreSlice(m.name);
    hide DotsAt, Split;
  }

  lemma DotsAreSlice(name: string)
    ensures (exists i :: DotsAt(name, i))
            <==> exists i, j | 0 <= i <= j <= |name| ::
                   (i == 0 || name[i - 1] == '/') && (j == |name| || name[j] == '/') && name[i..j] == ".."
  {
    if i, j :| 0 <= i <= j <= |name| && (i == 0 || name[i - 1] == '/') && (j == |name| || name[j] == '/')
               && name[i..j] == ".." {
      assert name[i..j][0] == name[i] && name[i..j][1] == name[i + 1];
      assert DotsAt(name, i);
    }
    if i :| DotsAt(name, i) { assert name[i..i + 2] == ".."; }
  }

  /** Following the parts from a directory `depth` levels below some root; None once the walk has left the root. */
  function Walk(parts: seq<string>, depth: nat): Option<nat> {
    if parts == [] then Some(depth)
    else if parts[0] == ".." then if depth == 0 then None else Walk(parts[1..], depth - 1)
    else Walk(parts[1..], depth + 1)
  }

  /** A safe member ends inside the directory it is extracted to, below it by the number of its parts, and creates no link
      that could lead elsewhere. */
  lemma {:induction false} SafeMemberStaysInside(m: Member, n: nat)
    requires SafeMember(m) && n <= |Parts(m.name)|
    ensures Walk(Parts(m.name)[n..], n) == Some(|Parts(m.name)|)
    ensures !m.kind.SymLink? && !m.kind.HardLink? && !m.kind.Device? && !m.kind.Fifo?
    decreases |Parts(m.name)| - n
  {
    var parts := Parts(m.name);
    if n < |parts| {
      assert parts[n..][0] == parts[n] && parts[n..][1..] == parts[n + 1..];
      SafeMemberStaysInside(m, n + 1);
    }
  }

  // ---- the data directory -----------------------------------------------------------------------------------------

  /** An absolute path by its parts; [] is the root. */
  type Path = seq<string>

  const PROTECTED: set<Path> := {
    [], ["bin"], ["boot"], ["dev"], ["etc"], ["home"], ["lib"], ["lib64"], ["media"], ["mnt"], ["opt"], ["proc"],
    ["root"], ["run"], ["sbin"], ["srv"], ["sys"], ["tmp"], ["usr"], ["var"]
  }

  const MARKERS: set<string> := {"ibdata1", "ib_logfile0", "aria_log_control", "mysql_upgrade_info", "multi-master.info"}

  /** The path is a protected root, or one of its ancestors. */
  predicate Protected(path: Path) {
    exists root | root in PROTECTED :: path == root || (path <= root && path != root)
  }

  /** What is at the path: None if nothing, else the names of its entries. */
  type Contents = Option<set<string>>

  predicate MayClear(path: Path, there: Contents) {
    !Protected(path) && (there.None? || there.value == {} || there.value * MARKERS != {})
  }

  /** `clear_datadir`: refused without a trace, or everything in the directory is gone, or an entry could not be removed.
      `stuck` are the entries whose removal raises; `order` is how the directory is read. */
  method ClearDatadir(path: Path, there: Contents, order: seq<string>, stuck: set<string>)
    returns (failure: Option<Failure>, left: Contents)
    requires there.Some? ==> forall k :: k in order <==> k in there.value
    requires forall i, j | 0 <= i < j < |order| :: order[i] != order[j]
    ensures failure == if MayClear(path, there) && (there.None? || there.value * stuck == {}) then None
                       else Some(Coded(E_INTEGRITY, 0))
    ensures !MayClear(path, there) ==> left == there
    ensures failure.None? ==> left == Some({})
    ensures MayClear(path, there) && failure.Some? ==> left.Some? && left.value <= there.value && left.value * stuck != {}
  {
    left := there;
    if Protected(path) { return Some(Coded(E_INTEGRITY, 0)), left; }
    if there.None? { return None, Some({}); }
    if there.value != {} && there.value * MARKERS == {} { return Some(Coded(E_INTEGRITY, 0)), left; }
    var rest := there.value;
    for i := 0 to |order|
      invariant rest == there.value - (set k | k in order[..i])
      invariant forall k | k in order[..i] :: k !in stuck
    {
      if order[i] in stuck {
        assert order[i] in order && order[i] in rest * stuck && order[i] in there.value * stuck;
        return Some(Coded(E_INTEGRITY, 0)), Some(rest);
      }
      rest := rest - {order[i]};
      assert order[..i + 1] == order[..i] + [order[i]];
    }
    assert order[..|order|] == order && rest == {};
    assert there.value * stuck == {};
    return None, Some(rest);
  }

  /** The ancestor clause adds nothing: every protected root but "/" is directly below "/", so its only ancestor is
      protected already. What keeps a system directory one level further down is the marker guard alone. */
  lemma ProtectedIsExactlyTheList(path: Path)
    ensures Protected(path) <==> path in PROTECTED
  {
    if Protected(path) {
      var root :| root in PROTECTED && (path == root || (path <= root && path != root));
      assert |root| <= 1;
      if path != root { assert path == []; }
    }
  }

  /** What may be cleared, spelled out. */
  lemma MayClearIff(path: Path, there: Contents)
    ensures MayClear(path, there)
            <==> path !in {[], ["bin"], ["boot"], ["dev"], ["etc"], ["home"], ["lib"], ["lib64"], ["media"], ["mnt"], ["opt"],
                           ["proc"], ["root"], ["run"], ["sbin"], ["srv"], ["sys"], ["tmp"], ["usr"], ["var"]}
                 && (there.None? || there.value == {} || "ibdata1" in there.value || "ib_logfile0" in there.value
                     || "aria_log_control" in there.value || "mysql_upgrade_info" in there.value
                     || "multi-master.info" in there.value)
  {
    ProtectedIsExactlyTheList(path);
    if there.Some? && there.value * MARKERS != {} {
      var x :| x in there.value * MARKERS;
    }
    assert there.Some? ==> forall x | x in MARKERS :: x in there.value ==> x in there.value * MARKERS;
  }

  /** No path of two or more parts is protected by its path, `/var/lib` included: if it is empty, or has an entry named like
      a marker, it may be cleared; and a path of fewer parts may be cleared only if it is none of the list. */
  lemma DeepPathsByContentsOnly(path: Path, there: Contents)
    ensures |path| >= 2 ==> (MayClear(path, there) <==> there.None? || there.value == {} || there.value * MARKERS != {})
    ensures |path| < 2 && MayClear(path, there) ==> path !in PROTECTED
  {
    ProtectedIsExactlyTheList(path);
    assert forall root | root in PROTECTED :: |root| <= 1;
  }

  // ---- the restored database --------------------------------------------------------------------------------------

  const SYSTEM: set<string> := {"mysql", "information_schema", "performance_schema", "sys"}

  /** What the verification server answers. */
  datatype Server = Server(checkWorks: bool, databases: Option<seq<string>>, tables: string -> Option<seq<string>>,
                           count: (string, string) -> Option<nat>)

  function Names(lines: seq<string>): seq<string> {
    if lines == [] then [] else (if Strip(lines[0]) == "" then [] else [Strip(lines[0])]) + Names(lines[1..])
  }

  function UserOnly(names: seq<string>): seq<string> {
    if names == [] then [] else (if names[0] in SYSTEM then [] else [names[0]]) + UserOnly(names[1..])
  }

  function Rows(s: Server, db: string, tables: seq<string>): Option<nat> {
    if tables == [] then Some(0)
    else
      var before, last := Rows(s, db, tables[..|tables| - 1]), s.count(db, tables[|tables| - 1]);
      if before.None? || last.None? then None else Some(before.value + last.value)
  }

  datatype Totals = Totals(tables: nat, rows: nat)

  /** Tables and rows of the first databases; None if some query failed. */
  function Total(s: Server, dbs: seq<string>): Option<Totals> {
    if dbs == [] then Some(Totals(0, 0))
    else
      var before, db := Total(s, dbs[..|dbs| - 1]), dbs[|dbs| - 1];
      var listed := s.tables(db);
      if before.None? || listed.None? || Rows(s, db, Names(listed.value)).None? then None
      else Some(Totals(before.value.tables + |Names(listed.value)|, before.value.rows + Rows(s, db, Names(listed.value)).value))
  }

  lemma {:induction false} RowsPrefix(s: Server, db: string, tables: seq<string>, n: nat)
    requires n <= |tables| && Rows(s, db, tables[..n]).None?
    ensures Rows(s, db, tables).None?
    decreases |tables| - n
  {
    if n < |tables| {
      assert tables[..n + 1][..n] == tables[..n];
      RowsPrefix(s, db, tables, n + 1);
    } else {
      assert tables[..n] == tables;
    }
  }

  lemma {:induction false} TotalPrefix(s: Server, dbs: seq<string>, n: nat)
    requires n <= |dbs| && Total(s, dbs[..n]).None?
    ensures Total(s, dbs).None?
    decreases |dbs| - n
  {
    if n < |dbs| {
      assert dbs[..n + 1][..n] == dbs[..n];
      TotalPrefix(s, dbs, n + 1);
    } else {
      assert dbs[..n] == dbs;
    }
  }

  /** The names are what the lines hold but for blanks, the user's are those that are not one of the four system databases, and
      the counts of several tables and databases are the sums of theirs. */
  lemma {:induction false} NamesAre(lines: seq<string>)
    ensures forall x :: x in Names(lines) <==> x != "" && exists line | line in lines :: Strip(line) == x
  {
    if lines != [] {
      NamesAre(lines[1..]);
      assert forall line :: line in lines <==> line == lines[0] || line in lines[1..];
      hide Strip;
      assert forall x :: x in Names(lines) <==> (x == Strip(lines[0]) && x != "") || x in Names(lines[1..]);
    }
  }

  lemma {:induction false} UserOnlyAre(names: seq<string>)
    ensures forall x ::
              x in UserOnly(names)
              <==> x in names && x != "mysql" && x != "information_schema" && x != "performance_schema" && x != "sys"
  {
    if names != [] {
      UserOnlyAre(names[1..]);
      assert names == [names[0]] + names[1..];
    }
  }

  /** Each as often as it was listed. */
  lemma {:induction false} UserOnlyAsOften(names: seq<string>, x: string)
    requires x !in SYSTEM
    ensures multiset(UserOnly(names))[x] == multiset(names)[x]
  {
    if names != [] {
      UserOnlyAsOften(names[1..], x);
      assert names == [names[0]] + names[1..];
    }
  }

  lemma {:induction false} RowsAdd(s: Server, db: string, a: seq<string>, b: seq<string>)
    ensures Rows(s, db, []) == Some(0) && forall t :: Rows(s, db, [t]) == s.count(db, t)
    ensures Rows(s, db, a + b) == if Rows(s, db, a).None? || Rows(s, db, b).None? then None
                                  else Some(Rows(s, db, a).value + Rows(s, db, b).value)
    decreases |b|
  {
    forall t ensures Rows(s, db, [t]) == s.count(db, t) { assert [t][..0] == [] && Rows(s, db, []) == Some(0); }
    if b == [] {
      assert a + b == a;
    } else {
      var c := b[..|b| - 1];
      RowsAdd(s, db, a, c);
      assert (a + b)[..|a + b| - 1] == a + c;
    }
  }

  lemma {:induction false} TotalAdd(s: Server, a: seq<string>, b: seq<string>)
    ensures Total(s, []) == Some(Totals(0, 0))
    ensures forall d :: Total(s, [d])
              == if s.tables(d).None? || Rows(s, d, Names(s.tables(d).value)).None? then None
                 else Some(Totals(|Names(s.tables(d).value)|, Rows(s, d, Names(s.tables(d).value)).value))
    ensures Total(s, a + b) == if Total(s, a).None? || Total(s, b).None? then None
                               else Some(Totals(Total(s, a).value.tables + Total(s, b).value.tables,
                                                Total(s, a).value.rows + Total(s, b).value.rows))
    decreases |b|
  {
    hide Names, Rows;
    forall d ensures Total(s, [d]) == if s.tables(d).None? || Rows(s, d, Names(s.tables(d).value)).None? then None
                 else Some(Totals(|Names(s.tables(d).value)|, Rows(s, d, Names(s.tables(d).value)).value))
    {
      assert [d][..0] == [] && Total(s, []) == Some(Totals(0, 0));
    }
    if b == [] {
      assert a + b == a;
    } else {
      var c := b[..|b| - 1];
      TotalAdd(s, a, c);
      assert (a + b)[..|a + b| - 1] == a + c;
    }
  }

  /** The verification succeeds exactly if check and listing work, there is a user database with a table, and every listing
      and every count of one works. */
  lemma VerifiedIff(s: Server)
    ensures s.databases.Some? ==>
              forall d :: d in UserOnly(Names(s.databases.value))
                <==> d != "" && d != "mysql" && d != "information_schema" && d != "performance_schema" && d != "sys"
                     && exists line | line in s.databases.value :: Strip(line) == d
    ensures s.databases.Some? ==>
              var dbs := UserOnly(Names(s.databases.value));
              (Total(s, dbs).Some?
               <==> forall d | d in dbs ::
                      s.tables(d).Some? && forall t | t in Names(s.tables(d).value) :: s.count(d, t).Some?)
              && (Total(s, dbs).Some? ==>
                    (Total(s, dbs).value.tables > 0 <==> exists d | d in dbs :: Names(s.tables(d).value) != []))
  {
    if s.databases.Some? {
      NamesAre(s.databases.value);
      UserOnlyAre(Names(s.databases.value));
      TotalIff(s, UserOnly(Names(s.databases.value)));
    }
  }

  lemma {:induction false} RowsIff(s: Server, db: string, tables: seq<string>)
    ensures Rows(s, db, tables).Some? <==> forall t | t in tables :: s.count(db, t).Some?
  {
    if tables != [] {
      RowsIff(s, db, tables[..|tables| - 1]);
      assert tables == tables[..|tables| - 1] + [tables[|tables| - 1]];
    }
  }

  lemma {:induction false} TotalIff(s: Server, dbs: seq<string>)
    ensures Total(s, dbs).Some?
            <==> forall d | d in dbs :: s.tables(d).Some? && forall t | t in Names(s.tables(d).value) :: s.count(d, t).Some?
    ensures Total(s, dbs).Some? ==>
              (Total(s, dbs).value.tables > 0 <==> exists d | d in dbs :: Names(s.tables(d).value) != [])
  {
    hide Names, Rows;
    if dbs != [] {
      var last := dbs[|dbs| - 1];
      TotalIff(s, dbs[..|dbs| - 1]);
      assert dbs == dbs[..|dbs| - 1] + [last];
      if s.tables(last).Some? { RowsIff(s, last, Names(s.tables(last).value)); }
    }
  }

  method CountRows(s: Server, db: string, names: seq<string>) returns (r: Option<nat>)
    ensures r == Rows(s, db, names)
  {
    var rows: nat := 0;
    for j := 0 to |names|
      invariant Rows(s, db, names[..j]) == Some(rows)
    {
      assert names[..j + 1][..j] == names[..j];
      var n := s.count(db, names[j]);
      if n.None? {
        RowsPrefix(s, db, names, j + 1);
        return None;
      }
      rows := rows + n.value;
    }
    assert names[..|names|] == names;
    r := Some(rows);
  }

  /** `verify_restored_database`: succeeds exactly when the check passes, every listing and every count works, and there is
      a user database with a table; the numbers are those of all user databases. */
  method VerifyRestoredDatabase(s: Server) returns (r: Option<(nat, Totals)>)
    ensures r.Some? <==> s.checkWorks && s.databases.Some? && UserOnly(Names(s.databases.value)) != []
                         && Total(s, UserOnly(Names(s.databases.value))).Some?
                         && Total(s, UserOnly(Names(s.databases.value))).value.tables > 0
    ensures r.Some? ==> var dbs := UserOnly(Names(s.databases.value)); r.value == (|dbs|, Total(s, dbs).value)
  {
    hide Names, UserOnly, Rows;
    if !s.checkWorks || s.databases.None? { return None; }
    var dbs := UserOnly(Names(s.databases.value));
    if dbs == [] { return None; }
    var tables: nat, rows: nat := 0, 0;
    for i := 0 to |dbs|
      invariant Total(s, dbs[..i]) == Some(Totals(tables, rows))
    {
      assert dbs[..i + 1][..i] == dbs[..i] && dbs[..i + 1][i] == dbs[i];
      var listed := s.tables(dbs[i]);
      if listed.None? {
        TotalPrefix(s, dbs, i + 1);
        return None;
      }
      var names := Names(listed.value);
      var inDb := CountRows(s, dbs[i], names);
      if inDb.None? {
        TotalPrefix(s, dbs, i + 1);
        return None;
      }
      tables, rows := tables + |names|, rows + inDb.value;
    }
    assert dbs[..|dbs|] == dbs;
    if tables == 0 { return None; }
    r := Some((|dbs|, Totals(tables, rows)));
  }
}
