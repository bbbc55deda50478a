/** The step machines of retention and fetch, run on a bucket that nobody else changes, do what the backend's methods do:
    so the interleaved runs are about the same operations. */
module S3Sequential {
  import opened Errors
  import opened Strings
  import opened Keys
  import opened Objects
  import opened Retention
  import Publisher
  import Pruner
  import Fetcher
  import S3Backend
  import S3World

  // ---- retention --------------------------------------------------------------------------------------------------

  /** The groups of the listing that the run made at its start. */
  ghost predicate Listed(gs: seq<Pruner.Group>, q: Pruner.Prune, b0: Bucket) {
    NoSlash(q.cluster) && gs == Pruner.Groups(Pruner.ListItems(b0, q.cluster))
  }

  /** Group `i` is losing its objects; `j` of them are gone. */
  ghost predicate MidGroup(q: Pruner.Prune, b: Bucket, b0: Bucket, gs: seq<Pruner.Group>, i: nat, j: nat) {
    i < |gs| && q.pc.Removing? && q.pc.rest == gs[i + 1..] && GroupExpired(gs[i], b0, q.cutoff)
    && j < |Pruner.KeysOf(gs[i].items)| && q.pc.keys == Pruner.KeysOf(gs[i].items)[j..]
    && b == Without(b0, PlanOf(gs[..i], b0, q.cutoff) + Pruner.KeysOf(gs[i].items)[..j])
    && q.deleted == CountExpired(gs[..i], b0, q.cutoff)
  }

  /** Where the machine stands, as a place in the plan made from the bucket it started on. */
  ghost predicate PruneAt(q: Pruner.Prune, b: Bucket, b0: Bucket, gs: seq<Pruner.Group>, i: nat, j: nat) {
    match q.pc
    case ListAll => b == b0 && q.deleted == 0
    case Scan(rest) => i <= |gs| && rest == gs[i..] && Swept(b0, b, gs, i, q.cutoff, q.deleted)
    case Removing(_, _) => MidGroup(q, b, b0, gs, i, j)
    case Done(r) =>
      S3Backend.PruneDoes(b0, b, q.cluster, q.cutoff, i, r)
      && (r.Err? ==> r.failure == Uncoded || r.failure == Coded(E_STORAGE, 0))
  }

  /** What a stopped run has done. */
  lemma StoppedDoes(q: Pruner.Prune, b: Bucket, b0: Bucket, gs: seq<Pruner.Group>, n: nat)
    requires Listed(gs, q, b0) && Stopped(b0, b, gs, q.cutoff, n)
    ensures forall f :: S3Backend.PruneDoes(b0, b, q.cluster, q.cutoff, n, Err(f))
  {
    hide Stopped, S3Backend.PruneDoes, Pruner.Groups, Pruner.ListItems;
    forall f ensures S3Backend.PruneDoes(b0, b, q.cluster, q.cutoff, n, Err(f)) {
      S3Backend.PruneEnds(b0, b, q.cluster, q.cutoff, n, Err(f));
    }
  }

  lemma ScanEnds(q: Pruner.Prune, b: Bucket, b0: Bucket, gs: seq<Pruner.Group>, i: nat) returns (n: nat)
    requires Listed(gs, q, b0) && q.pc == Pruner.Scan([]) && PruneAt(q, b, b0, gs, i, 0)
    ensures S3Backend.PruneDoes(b0, b, q.cluster, q.cutoff, n, Ok(q.deleted))
  {
    hide Pruner.Groups, Pruner.ListItems, S3Backend.PruneDoes, Swept, Stopped;
    assert i == |gs|;
    n := SweptStops(b0, b, gs, q.cutoff, q.deleted);
    S3Backend.PruneEnds(b0, b, q.cluster, q.cutoff, n, Ok(q.deleted));
  }

  /** The machine's verdict is the declarative one. */
  lemma Verdict(q: Pruner.Prune, b: Bucket, c: Publisher.Call)
    requires q.pc.Scan? && q.pc.groups != [] && q.pc.groups[0].items != []
    ensures var (p, d) := Pruner.Step(q, b, c); var g := q.pc.groups[0];
      d == b && p.cluster == q.cluster && p.cutoff == q.cutoff && p.deleted == q.deleted
      && ((p.pc == Pruner.Done(Err(Coded(E_STORAGE, 0))))
          || (p.pc == Pruner.Scan(q.pc.groups[1..]) && !GroupExpired(g, b, q.cutoff))
          || (p.pc == Pruner.Removing(Pruner.KeysOf(g.items), q.pc.groups[1..]) && GroupExpired(g, b, q.cutoff)))
  {
    hide Pruner.HasMetadata, Pruner.OrphanExpired, Pruner.MetadataVerdict, Pruner.KeysOf;
  }

  /** The first object of a group is next. */
  lemma Begins(p: Pruner.Prune, b: Bucket, b0: Bucket, gs: seq<Pruner.Group>, i: nat)
    requires i < |gs| && Swept(b0, b, gs, i, p.cutoff, p.deleted) && GroupExpired(gs[i], b0, p.cutoff) && gs[i].items != []
    requires p.pc == Pruner.Removing(Pruner.KeysOf(gs[i].items), gs[i + 1..])
    ensures MidGroup(p, b, b0, gs, i, 0)
  {
    var gone, keys := PlanOf(gs[..i], b0, p.cutoff), Pruner.KeysOf(gs[i].items);
    assert gone + keys[..0] == gone && keys[0..] == keys && |keys| > 0;
  }

  /** A group's turn. */
  lemma ScanStep(q: Pruner.Prune, b: Bucket, b0: Bucket, c: Publisher.Call, gs: seq<Pruner.Group>, i: nat) returns (k: nat)
    requires Listed(gs, q, b0) && q.pc.Scan? && q.pc.groups != [] && PruneAt(q, b, b0, gs, i, 0)
    ensures PruneAt(Pruner.Step(q, b, c).0, Pruner.Step(q, b, c).1, b0, gs, k, 0)
  {
    ListedGroups(b0, q.cluster);
    assert gs[i] == q.pc.groups[0] && q.pc.groups[1..] == gs[i + 1..] && gs[i] in gs;
    assert gs[i].items != [] by { assert GroupOf(gs[i], b0); }
    hide Pruner.Groups, Pruner.ListItems, Pruner.KeysOf, Without, PlanOf, CountExpired, Swept, Stopped, GroupOf,
      GroupsOf, GroupExpired, S3Backend.PruneDoes, Pruner.Step;
    var n := SweptKept(b0, b, gs, i, q.cutoff, q.deleted);
    SweptVerdict(b0, b, gs, i, q.cutoff, q.deleted);
    Verdict(q, b, c);
    var p := Pruner.Step(q, b, c).0;
    k := if p.pc.Done? then n else if p.pc.Removing? then i else i + 1;
    if p.pc.Done? {
      StoppedDoes(q, b, b0, gs, n);
    } else if p.pc.Removing? {
      Begins(p, b, b0, gs, i);
    }
    hide MidGroup, Listed;
  }

  /** The bucket after one removal of a group that goes, and what it has come to. */
  lemma RemovedOne(q: Pruner.Prune, b: Bucket, b0: Bucket, gs: seq<Pruner.Group>, i: nat, j: nat, m: nat) returns (n: nat)
    requires MidGroup(q, b, b0, gs, i, j) && m in {j, j + 1}
    ensures var keys := Pruner.KeysOf(gs[i].items);
      var u := if m == j then b else b - {keys[j]};
      u == Without(b0, PlanOf(gs[..i], b0, q.cutoff) + keys[..m])
      && Stopped(b0, u, gs, q.cutoff, n)
      && (m == |keys| ==> Swept(b0, u, gs, i + 1, q.cutoff, q.deleted + 1))
  {
    var gone, keys := PlanOf(gs[..i], b0, q.cutoff), Pruner.KeysOf(gs[i].items);
    assert Swept(b0, Without(b0, gone), gs, i, q.cutoff, q.deleted);
    hide Pruner.KeysOf, PlanOf, CountExpired, GroupExpired, Swept, Stopped;
    TakeOne(b0, b, gone, keys, j);
    hide Without;
    n := SweptMore(b0, Without(b0, gone), if m == j then b else b - {keys[j]}, gs, i, q.cutoff, q.deleted, m);
  }

  /** One removal of a group that goes. */
  lemma RemoveStep(q: Pruner.Prune, b: Bucket, b0: Bucket, c: Publisher.Call, gs: seq<Pruner.Group>, i: nat, j: nat)
    returns (k: nat, l: nat)
    requires Listed(gs, q, b0) && Pruner.WellFormed(q) && MidGroup(q, b, b0, gs, i, j)
    ensures PruneAt(Pruner.Step(q, b, c).0, Pruner.Step(q, b, c).1, b0, gs, k, l)
  {
    var m := if c.Takes() then j + 1 else j;
    var n := RemovedOne(q, b, b0, gs, i, j, m);
    RemovingKeys(q, b, b0, gs, i, j);
    RemoveCall(q, b, c);
    var (p, u) := Pruner.Step(q, b, c);
    hide *;
    k, l := if !c.Returns() then n else if |q.pc.keys| == 1 then i + 1 else i, m;
    if !c.Returns() { StopsAt(p, u, b0, gs, n, l); }
    else if |q.pc.keys| == 1 { ScansOn(p, u, b0, gs, i + 1, l); }
    else { RemovesOn(q, p, u, b, b0, gs, i, j, m); }
  }

  lemma RemovingKeys(q: Pruner.Prune, b: Bucket, b0: Bucket, gs: seq<Pruner.Group>, i: nat, j: nat)
    requires MidGroup(q, b, b0, gs, i, j)
    ensures i < |gs| && q.pc.Removing? && q.pc.rest == gs[i + 1..]
    ensures var keys := Pruner.KeysOf(gs[i].items);
      j < |keys| && q.pc.keys[0] == keys[j] && q.pc.keys[1..] == keys[j + 1..] && |q.pc.keys| == |keys| - j
  {
    hide Without, PlanOf, CountExpired, GroupExpired;
  }

  lemma StopsAt(p: Pruner.Prune, u: Bucket, b0: Bucket, gs: seq<Pruner.Group>, n: nat, l: nat)
    requires Listed(gs, p, b0) && Stopped(b0, u, gs, p.cutoff, n) && p.pc == Pruner.Done(Err(Uncoded))
    ensures PruneAt(p, u, b0, gs, n, l)
  {
    StoppedDoes(p, u, b0, gs, n);
    hide Stopped, Listed, S3Backend.PruneDoes;
  }

  lemma ScansOn(p: Pruner.Prune, u: Bucket, b0: Bucket, gs: seq<Pruner.Group>, k: nat, l: nat)
    requires k <= |gs| && p.pc == Pruner.Scan(gs[k..]) && Swept(b0, u, gs, k, p.cutoff, p.deleted)
    ensures PruneAt(p, u, b0, gs, k, l)
  {
    hide Swept;
  }

  lemma RemovesOn(q: Pruner.Prune, p: Pruner.Prune, u: Bucket, b: Bucket, b0: Bucket, gs: seq<Pruner.Group>, i: nat, j: nat,
                  m: nat)
    requires MidGroup(q, b, b0, gs, i, j) && m == j + 1 < |Pruner.KeysOf(gs[i].items)|
    requires p == q.(pc := Pruner.Removing(q.pc.keys[1..], q.pc.rest))
    requires u == Without(b0, PlanOf(gs[..i], b0, q.cutoff) + Pruner.KeysOf(gs[i].items)[..m])
    ensures PruneAt(p, u, b0, gs, i, m)
  {
    RemovingKeys(q, b, b0, gs, i, j);
    hide Without, PlanOf, CountExpired, GroupExpired;
  }

  lemma RemoveCall(q: Pruner.Prune, b: Bucket, c: Publisher.Call)
    requires Pruner.WellFormed(q) && q.pc.Removing?
    ensures var (p, d) := Pruner.Step(q, b, c); var keys := q.pc.keys;
      d == (if c.Takes() then b - {keys[0]} else b)
      && p == if !c.Returns() then q.(pc := Pruner.Done(Err(Uncoded)))
              else if |keys| == 1 then q.(pc := Pruner.Scan(q.pc.rest), deleted := q.deleted + 1)
              else q.(pc := Pruner.Removing(keys[1..], q.pc.rest))
  {
  }

  /** Every step of an undisturbed run keeps its place in the plan. */
  lemma PruneStepKeeps(q: Pruner.Prune, b: Bucket, b0: Bucket, c: Publisher.Call, gs: seq<Pruner.Group>, i: nat, j: nat)
    returns (k: nat, l: nat)
    requires Listed(gs, q, b0) && Pruner.WellFormed(q) && PruneAt(q, b, b0, gs, i, j)
    ensures PruneAt(Pruner.Step(q, b, c).0, Pruner.Step(q, b, c).1, b0, gs, k, l)
  {
    k, l := i, j;
    match q.pc
    case ListAll =>
      k, l := 0, 0;
      SweptNothing(b0, gs, q.cutoff);
      S3Backend.PruneNothing(b0, q.cluster, q.cutoff);
      hide Swept, S3Backend.PruneDoes, Pruner.Groups, Pruner.ListItems;
      assert gs[0..] == gs;
    case Scan(rest) =>
      if rest == [] { k := ScanEnds(q, b, b0, gs, i); } else { k := ScanStep(q, b, b0, c, gs, i); l := 0; }
    case Removing(_, _) => k, l := RemoveStep(q, b, b0, c, gs, i, j);
    case Done(_) =>
  }

  /** The machine after these calls; it keeps well-formed. */
  function PruneRun(q: Pruner.Prune, b: Bucket, calls: seq<Publisher.Call>): (Pruner.Prune, Bucket) {
    if calls == [] then (q, b)
    else
      var (p, d) := PruneRun(q, b, calls[..|calls| - 1]);
      if Pruner.WellFormed(p) then Pruner.Step(p, d, calls[|calls| - 1]) else (p, d)
  }

  /** At any point of an undisturbed run, whatever fails, the bucket is the old one less a prefix of the plan; when the run
      returns normally it is what retention leaves, and the count is that of the directories removed. */
  lemma {:induction false} PruneRunDoes(cluster: string, cutoff: int, b0: Bucket, calls: seq<Publisher.Call>)
    returns (i: nat, j: nat)
    requires NoSlash(cluster)
    ensures var (q, b) := PruneRun(Pruner.Start(cluster, cutoff), b0, calls);
      q.cluster == cluster && q.cutoff == cutoff && Pruner.WellFormed(q)
      && PruneAt(q, b, b0, Pruner.Groups(Pruner.ListItems(b0, cluster)), i, j)
  {
    i, j := 0, 0;
    if calls != [] {
      var (p, d) := PruneRun(Pruner.Start(cluster, cutoff), b0, calls[..|calls| - 1]);
      i, j := PruneRunDoes(cluster, cutoff, b0, calls[..|calls| - 1]);
      hide PruneAt, Pruner.Step, Pruner.Groups, Pruner.ListItems;
      S3World.PrunerShrinks(p, d, calls[|calls| - 1]);
      i, j := PruneStepKeeps(p, d, b0, calls[|calls| - 1], Pruner.Groups(Pruner.ListItems(b0, cluster)), i, j);
    }
  }

  // ---- fetch ------------------------------------------------------------------------------------------------------

  ghost predicate Ordered(dirs: seq<string>, b: Bucket, cluster: string) {
    var keys := Listing(b, ClusterPrefix(cluster));
    NoSlash(cluster) && dirs == Fetcher.CompleteDirs(keys, |keys|)
  }

  /** The chosen directory, with the bytes copied so far. */
  ghost predicate Chosen(x: Fetcher.Candidate, b: Bucket, cluster: string, all: seq<string>) {
    S3Backend.Best(b, cluster, all, |all|, Some(x))
  }

  ghost predicate FetchAt(f: Fetcher.Fetch, b: Bucket, all: seq<string>, i: nat) {
    match f.pc
    case ListAll => true
    case Read(dirs, best) => i <= |all| && dirs == all[i..] && S3Backend.Best(b, f.cluster, all, i, best)
    case GetPayload(x) => Chosen(x, b, f.cluster, all)
    case GetChecksum(x, payload) =>
      Chosen(x, b, f.cluster, all) && PayloadKey(x.dir) in b && payload == b[PayloadKey(x.dir)].body
    case GetMetadata(x, payload, checksum) =>
      Chosen(x, b, f.cluster, all) && PayloadKey(x.dir) in b && payload == b[PayloadKey(x.dir)].body
      && ChecksumKey(x.dir) in b && checksum == b[ChecksumKey(x.dir)].body
    case Done(r) =>
      if r.Ok? then S3Backend.IsLatest(b, f.cluster, r.value) else r.failure == Uncoded || r.failure == Coded(E_STORAGE, 0)
  }

  lemma ReadStep(f: Fetcher.Fetch, b: Bucket, c: Publisher.Call, all: seq<string>, i: nat)
    requires f.pc.Read? && FetchAt(f, b, all, i)
    ensures FetchAt(Fetcher.Step(f, b, c), b, all, i + 1)
  {
    hide Fetcher.ReadMetadata;
    if f.pc.dirs == [] {
      assert i == |all|;
    } else {
      assert f.pc.dirs[0] == all[i] && f.pc.dirs[1..] == all[i + 1..];
    }
  }

  lemma CopyStep(f: Fetcher.Fetch, b: Bucket, c: Publisher.Call, all: seq<string>, i: nat)
    requires FetchAt(f, b, all, i) && (f.pc.GetPayload? || f.pc.GetChecksum?)
    ensures FetchAt(Fetcher.Step(f, b, c), b, all, i)
  {
    hide PayloadKey, ChecksumKey, MetadataKey, Chosen, S3Backend.IsLatest;
  }

  lemma ChosenIsNewest(x: Fetcher.Candidate, b: Bucket, cluster: string, all: seq<string>)
    requires Ordered(all, b, cluster) && Chosen(x, b, cluster, all)
    ensures Complete(b, x.dir) ==> S3Backend.NewestEntry(b, cluster, x.dir)
  {
    S3Backend.BestIsLatest(b, cluster, all, Some(x));
  }

  lemma LastCopy(f: Fetcher.Fetch, b: Bucket, c: Publisher.Call, all: seq<string>, i: nat)
    requires Ordered(all, b, f.cluster) && FetchAt(f, b, all, i) && f.pc.GetMetadata?
    ensures FetchAt(Fetcher.Step(f, b, c), b, all, i)
  {
    var x, g := f.pc.chosen, Fetcher.Step(f, b, c);
    LastStep(f, b, c);
    hide Fetcher.Step, Ordered, Chosen, S3Backend.Best, S3Backend.IsLatest, PayloadKey, ChecksumKey, MetadataKey;
    if g.pc.r.Ok? { CopiedIsLatest(x, f.pc.payload, f.pc.checksum, b, f.cluster, all); }
    DoneIsAt(g, b, all, i);
    hide FetchAt;
  }

  lemma DoneIsAt(g: Fetcher.Fetch, b: Bucket, all: seq<string>, i: nat)
    requires g.pc.Done? && (g.pc.r.Ok? ==> S3Backend.IsLatest(b, g.cluster, g.pc.r.value))
             && (g.pc.r.Err? ==> g.pc.r.failure == Uncoded)
    ensures FetchAt(g, b, all, i)
  {
    hide S3Backend.IsLatest;
  }

  lemma CopiedIsLatest(x: Fetcher.Candidate, payload: Body, checksum: Body, b: Bucket, cluster: string, all: seq<string>)
    requires Ordered(all, b, cluster) && Chosen(x, b, cluster, all)
    requires PayloadKey(x.dir) in b && payload == b[PayloadKey(x.dir)].body
    requires ChecksumKey(x.dir) in b && checksum == b[ChecksumKey(x.dir)].body && MetadataKey(x.dir) in b
    ensures S3Backend.IsLatest(b, cluster, Fetcher.Fetched(x.dir, payload, checksum, b[MetadataKey(x.dir)].body))
  {
    ChosenIsNewest(x, b, cluster, all);
    hide PayloadKey, ChecksumKey, MetadataKey, Ordered, Chosen, S3Backend.NewestEntry;
  }

  lemma LastStep(f: Fetcher.Fetch, b: Bucket, c: Publisher.Call)
    requires f.pc.GetMetadata?
    ensures var g, x := Fetcher.Step(f, b, c), f.pc.chosen;
      g.cluster == f.cluster && g.pc.Done?
      && (g.pc.r.Err? ==> g.pc.r.failure == Uncoded)
      && (g.pc.r.Ok? ==> MetadataKey(x.dir) in b && g.pc.r.value
                         == Fetcher.Fetched(x.dir, f.pc.payload, f.pc.checksum, b[MetadataKey(x.dir)].body))
  {
    hide MetadataKey;
  }

  function FetchRun(f: Fetcher.Fetch, b: Bucket, calls: seq<Publisher.Call>): Fetcher.Fetch {
    if calls == [] then f else Fetcher.Step(FetchRun(f, b, calls[..|calls| - 1]), b, calls[|calls| - 1])
  }

  lemma FetchStepKeeps(f: Fetcher.Fetch, b: Bucket, c: Publisher.Call, all: seq<string>, i: nat) returns (k: nat)
    requires Ordered(all, b, f.cluster) && FetchAt(f, b, all, i)
    ensures FetchAt(Fetcher.Step(f, b, c), b, all, k)
  {
    k := i;
    if f.pc.Read? {
      ReadStep(f, b, c, all, i);
      k := i + 1;
    } else if f.pc.ListAll? {
      assert all[0..] == all && S3Backend.Best(b, f.cluster, all, 0, None);
      k := 0;
    } else if f.pc.GetMetadata? {
      LastCopy(f, b, c, all, i);
    } else if !f.pc.Done? {
      CopyStep(f, b, c, all, i);
    }
  }

  /** When an undisturbed fetch returns normally it has a newest entry of the catalogue and its bytes. */
  lemma {:induction false} FetchRunDoes(cluster: string, b: Bucket, calls: seq<Publisher.Call>) returns (i: nat)
    requires NoSlash(cluster)
    ensures var f, keys := FetchRun(Fetcher.Start(cluster), b, calls), Listing(b, ClusterPrefix(cluster));
      f.cluster == cluster && FetchAt(f, b, Fetcher.CompleteDirs(keys, |keys|), i)
  {
    i := 0;
    if calls != [] {
      var keys := Listing(b, ClusterPrefix(cluster));
      var f, c := FetchRun(Fetcher.Start(cluster), b, calls[..|calls| - 1]), calls[|calls| - 1];
      i := FetchRunDoes(cluster, b, calls[..|calls| - 1]);
      hide Fetcher.CompleteDirs, Listing, ClusterPrefix, FetchAt;
      i := FetchStepKeeps(f, b, c, Fetcher.CompleteDirs(keys, |keys|), i);
    }
  }
}
