/** What retention removes, said without its loops, and what an interrupted run leaves for the next one. */
module Retention {
  import opened Errors
  import opened Strings
  import opened Keys
  import opened Objects
  import opened Pruner

  /** A directory without commit marker expires when some object of it is dated and every dated one is too old. */
  ghost predicate OrphanTooOld(b: Bucket, d: string, cutoff: int) {
    (exists k | k in b :: Inside(k, d) && b[k].modified.Some?)
    && forall k | k in b && Inside(k, d) && b[k].modified.Some? :: b[k].modified.value < cutoff
  }

  ghost predicate Expired(b: Bucket, d: string, cutoff: int) {
    if MetadataKey(d) in b then MetadataVerdict(b, d, cutoff) == Drop else OrphanTooOld(b, d, cutoff)
  }

  /** Metadata that does not say when the backup was made. */
  ghost predicate BrokenDir(b: Bucket, d: string) {
    MetadataKey(d) in b && (!b[MetadataKey(d)].body.Json? || Unixtime(b[MetadataKey(d)].body.meta).None?)
  }

  ghost predicate SomeBroken(b: Bucket, cluster: string) {
    exists d :: NoSlash(d) && ClusterPrefix(cluster) <= d && BrokenDir(b, d)
  }

  ghost predicate Doomed(b: Bucket, cluster: string, cutoff: int, k: string) {
    !NoSlash(k) && ClusterPrefix(cluster) <= Dir(k) && Expired(b, Dir(k), cutoff)
  }

  /** The bucket after a complete run of retention. */
  ghost function Pruned(b: Bucket, cluster: string, cutoff: int): Bucket {
    map k | k in b && !Doomed(b, cluster, cutoff, k) :: b[k]
  }

  // ---- the order of the removals ----------------------------------------------------------------------------------

  predicate GroupExpired(g: Group, b: Bucket, cutoff: int) {
    if HasMetadata(g) then MetadataVerdict(b, g.dir, cutoff) == Drop else OrphanExpired(g, cutoff)
  }

  function PlanOf(groups: seq<Group>, b: Bucket, cutoff: int): seq<string> {
    if groups == [] then []
    else (if GroupExpired(groups[0], b, cutoff) then KeysOf(groups[0].items) else []) + PlanOf(groups[1..], b, cutoff)
  }

  /** The removals of a run, in the order in which it makes them. */
  function RemovalPlan(b: Bucket, cluster: string, cutoff: int): seq<string> {
    PlanOf(Groups(ListItems(b, cluster)), b, cutoff)
  }

  /** The bucket after the first `n` removals of a run. */
  function Interrupted(b: Bucket, cluster: string, cutoff: int, n: nat): Bucket
    requires n <= |RemovalPlan(b, cluster, cutoff)|
  {
    Without(b, RemovalPlan(b, cluster, cutoff)[..n])
  }

  lemma ListInKeyOrder(b: Bucket, cluster: string)
    ensures InKeyOrder(ListItems(b, cluster))
  {
    hide ClusterPrefix, Le;
  }

  /** Groups that are exactly the directories of one bucket, as a listing gives them. */
  ghost predicate GroupsOf(gs: seq<Group>, b: Bucket) {
    DistinctDirs(gs) && forall g | g in gs :: GroupOf(g, b)
  }

  ghost predicate InKeyOrder(items: seq<Item>) {
    forall i, j | 0 <= i < j < |items| :: Le(items[i].key, items[j].key) && items[i].key != items[j].key
  }

  lemma {:induction false} SelectInKeyOrder(items: seq<Item>, d: string)
    requires InKeyOrder(items)
    ensures InKeyOrder(Select(items, d))
  {
    hide Dir, Le;
    if items != [] {
      var before := Select(items[..|items| - 1], d);
      SelectInKeyOrder(items[..|items| - 1], d);
      SelectMembers(items[..|items| - 1], d);
      forall i | 0 <= i < |before| ensures before[i] in items[..|items| - 1] { assert before[i] in before; }
    }
  }

  ghost predicate GroupOf(g: Group, b: Bucket) {
    Grouped(g) && InKeyOrder(g.items)
    && forall x :: x in g.items <==> x.key in b && Inside(x.key, g.dir) && x.modified == b[x.key].modified
  }

  lemma ListedGroups(b: Bucket, cluster: string)
    requires NoSlash(cluster)
    ensures GroupsOf(Groups(ListItems(b, cluster)), b)
    ensures forall g | g in Groups(ListItems(b, cluster)) :: ClusterPrefix(cluster) <= g.dir
  {
    var gs := Groups(ListItems(b, cluster));
    GroupsSelect(ListItems(b, cluster));
    ListInKeyOrder(b, cluster);
    hide Groups, ListItems, Select, Find, Grouped, Inside, ClusterPrefix, InKeyOrder;
    forall g | g in gs ensures GroupOf(g, b) && ClusterPrefix(cluster) <= g.dir {
      FreshGroup(b, cluster, g);
      FindGroup(gs, g);
      SelectInKeyOrder(ListItems(b, cluster), g.dir);
    }
  }

  /** Every backup object of the cluster lies in some group. */
  lemma EveryDirListed(b: Bucket, cluster: string, k: string) returns (g: Group)
    requires NoSlash(cluster) && k in b && !NoSlash(k) && ClusterPrefix(cluster) <= Dir(k)
    ensures g in Groups(ListItems(b, cluster)) && g.dir == Dir(k)
  {
    var items := ListItems(b, cluster);
    InsideIsDir(k, Dir(k));
    PrefixOfDir(cluster, Dir(k), k);
    ItemListed(b, cluster, Item(k, b[k].modified));
    SelectMembers(items, Dir(k));
    GroupsSelect(items);
    hide Inside, Select, ListItems, Groups, ClusterPrefix;
    assert Find(Groups(items), Dir(k)) != [] by { assert Item(k, b[k].modified) in Find(Groups(items), Dir(k)); }
    g := Found(Groups(items), Dir(k));
  }

  lemma {:induction false} Found(gs: seq<Group>, d: string) returns (g: Group)
    requires Find(gs, d) != []
    ensures g in gs && g.dir == d
  {
    if gs[0].dir == d { g := gs[0]; } else { g := Found(gs[1..], d); }
  }

  lemma ExpiredGroup(g: Group, b: Bucket, cutoff: int)
    requires GroupOf(g, b)
    ensures GroupExpired(g, b, cutoff) <==> Expired(b, g.dir, cutoff)
  {
    ThreeKeys(g.dir);
    hide Inside, MetadataKey;
    var m := MetadataKey(g.dir);
    if m in b {
      assert Item(m, b[m].modified) in g.items;
    }
    assert HasMetadata(g) ==> exists x | x in g.items :: x.key == m;
    if HasMetadata(g) {
    } else {
      assert m !in b;
      forall k | k in b && Inside(k, g.dir) ensures Item(k, b[k].modified) in g.items {}
      assert OrphanExpired(g, cutoff) <==> OrphanTooOld(b, g.dir, cutoff);
    }
  }

  lemma KeysOfMembers(g: Group, b: Bucket)
    requires GroupOf(g, b)
    ensures forall k :: k in KeysOf(g.items) <==> k in b && Inside(k, g.dir)
  {
    hide Inside;
    forall k ensures k in KeysOf(g.items) <==> k in b && Inside(k, g.dir) {
      if k in KeysOf(g.items) {
        var i :| 0 <= i < |g.items| && KeysOf(g.items)[i] == k;
        assert g.items[i] in g.items;
      }
      if k in b && Inside(k, g.dir) {
        var x := Item(k, b[k].modified);
        var i :| 0 <= i < |g.items| && g.items[i] == x;
        assert KeysOf(g.items)[i] == k;
      }
    }
  }

  lemma {:induction false} PlanMembers(gs: seq<Group>, b: Bucket, cutoff: int)
    ensures forall k :: k in PlanOf(gs, b, cutoff)
              <==> exists g | g in gs :: GroupExpired(g, b, cutoff) && k in KeysOf(g.items)
  {
    hide GroupExpired, KeysOf;
    if gs != [] {
      PlanMembers(gs[1..], b, cutoff);
      assert forall g :: g in gs <==> g == gs[0] || g in gs[1..];
    }
  }

  /** The plan names exactly the objects that are to go. */
  lemma PlanIsDoom(b: Bucket, cluster: string, cutoff: int)
    requires NoSlash(cluster)
    ensures forall k :: k in RemovalPlan(b, cluster, cutoff) <==> k in b && Doomed(b, cluster, cutoff, k)
  {
    var gs := Groups(ListItems(b, cluster));
    ListedGroups(b, cluster);
    PlanMembers(gs, b, cutoff);
    hide Groups, ListItems, KeysOf, GroupExpired, Expired, Inside, ClusterPrefix, Dir, GroupOf, DistinctDirs;
    forall k ensures k in RemovalPlan(b, cluster, cutoff) <==> k in b && Doomed(b, cluster, cutoff, k) {
      if k in PlanOf(gs, b, cutoff) {
        var g :| g in gs && GroupExpired(g, b, cutoff) && k in KeysOf(g.items);
        PlanKeyDoomed(g, b, cutoff, k);
      }
      if k in b && Doomed(b, cluster, cutoff, k) {
        var g := EveryDirListed(b, cluster, k);
        ExpiredGroup(g, b, cutoff);
        KeysOfMembers(g, b);
        InsideIsDir(k, Dir(k));
      }
    }
  }

  lemma PlanKeyDoomed(g: Group, b: Bucket, cutoff: int, k: string)
    requires GroupOf(g, b) && GroupExpired(g, b, cutoff) && k in KeysOf(g.items)
    ensures k in b && !NoSlash(k) && Dir(k) == g.dir && Expired(b, g.dir, cutoff)
  {
    ExpiredGroup(g, b, cutoff);
    KeysOfMembers(g, b);
    InsideIsDir(k, g.dir);
  }

  // ---- what that means for the catalogue --------------------------------------------------------------------------

  lemma PrunedDir(b: Bucket, cluster: string, cutoff: int, d: string)
    requires NoSlash(d) && ClusterPrefix(cluster) <= d
    ensures var b' := Pruned(b, cluster, cutoff);
      if Expired(b, d, cutoff) then EmptyDir(b', d) else SameInside(b, b', d)
  {
    hide Expired, ClusterPrefix;
    forall k | Inside(k, d) ensures !NoSlash(k) && Dir(k) == d { InsideIsDir(k, d); }
    hide Inside, Dir;
  }

  /** Directory `d` is an entry afterwards, the same one, if it was one that is not older than the cutoff. */
  ghost predicate AgedAt(b: Bucket, b': Bucket, cluster: string, cutoff: int, d: string) {
    (IsEntry(b', cluster, d) <==> IsEntry(b, cluster, d) && Unixtime(EntryOf(b, d).meta).value >= cutoff)
    && (IsEntry(b', cluster, d) ==> EntryOf(b', d) == EntryOf(b, d))
  }

  lemma AgedEntry(b: Bucket, cluster: string, other: string, cutoff: int, d: string)
    requires NoSlash(d) && ClusterPrefix(cluster) <= d && ClusterPrefix(other) <= d
    ensures AgedAt(b, Pruned(b, cluster, cutoff), other, cutoff, d)
  {
    PrunedDir(b, cluster, cutoff, d);
    ThreeKeys(d);
    hide Inside, PayloadKey, ChecksumKey, MetadataKey, Pruned, ClusterPrefix;
  }

  lemma AgedCatalogue(b: Bucket, b': Bucket, cluster: string, cutoff: int)
    requires forall d :: AgedAt(b, b', cluster, cutoff, d)
    ensures CatalogueOf(b', cluster) == Recent(CatalogueOf(b, cluster), cutoff)
  {
    CatalogueDomain(b, cluster);
    CatalogueDomain(b', cluster);
    assert forall d | IsEntry(b, cluster, d) :: Unixtime(EntryOf(b, d).meta).Some?;
    hide CatalogueOf, IsEntry, EntryOf;
    forall d ensures d in CatalogueOf(b', cluster) <==> d in Recent(CatalogueOf(b, cluster), cutoff) {
      assert AgedAt(b, b', cluster, cutoff, d);
    }
    forall d | d in CatalogueOf(b', cluster) ensures CatalogueOf(b', cluster)[d] == Recent(CatalogueOf(b, cluster), cutoff)[d] {
      assert AgedAt(b, b', cluster, cutoff, d);
    }
  }

  /** The names of cluster "a-b" start like those of cluster "a": retention of "a" with its own window does to the backups
      of "a-b" what a retention of "a-b" with that window would do. */
  lemma NamesakesAreAged(b: Bucket, cluster: string, other: string, cutoff: int)
    requires cluster == other || cluster + "-" <= other
    ensures CatalogueOf(Pruned(b, cluster, cutoff), other) == Recent(CatalogueOf(b, other), cutoff)
  {
    forall d ensures AgedAt(b, Pruned(b, cluster, cutoff), other, cutoff, d) {
      if NoSlash(d) && ClusterPrefix(other) <= d {
        assert ClusterPrefix(cluster) <= ClusterPrefix(other);
        AgedEntry(b, cluster, other, cutoff, d);
      }
    }
    AgedCatalogue(b, Pruned(b, cluster, cutoff), other, cutoff);
  }

  /** Retention takes exactly the entries older than the cutoff out of the catalogue. */
  lemma PrunedCatalogue(b: Bucket, cluster: string, cutoff: int)
    ensures CatalogueOf(Pruned(b, cluster, cutoff), cluster) == Recent(CatalogueOf(b, cluster), cutoff)
  {
    NamesakesAreAged(b, cluster, cluster, cutoff);
  }

  /** It never touches the drill marker of any cluster, nor the owner marker, even where the listing shows it. */
  lemma MarkersKept(b: Bucket, cluster: string, cutoff: int, other: string)
    ensures SameAt(b, Pruned(b, cluster, cutoff), OWNER_KEY) && SameAt(b, Pruned(b, cluster, cutoff), DrillKey(other))
  {
    MarkersAreNotBackups(cluster);
    hide Expired;
  }

  // ---- for the loops that carry it out ----------------------------------------------------------------------------

  lemma {:induction false} PlanSplit(gs: seq<Group>, i: nat, b: Bucket, cutoff: int)
    requires i <= |gs|
    ensures PlanOf(gs, b, cutoff) == PlanOf(gs[..i], b, cutoff) + PlanOf(gs[i..], b, cutoff)
  {
    hide GroupExpired;
    if i > 0 {
      PlanSplit(gs[1..], i - 1, b, cutoff);
      assert gs[..i][1..] == gs[1..][..i - 1] && gs[i..] == gs[1..][i - 1..];
    } else {
      assert gs[0..] == gs;
    }
  }

  lemma PlanSnoc(gs: seq<Group>, i: nat, b: Bucket, cutoff: int)
    requires i < |gs|
    ensures PlanOf(gs[..i + 1], b, cutoff)
            == PlanOf(gs[..i], b, cutoff) + if GroupExpired(gs[i], b, cutoff) then KeysOf(gs[i].items) else []
    ensures PlanOf(gs[..i + 1], b, cutoff) <= PlanOf(gs, b, cutoff)
  {
    PlanSplit(gs[..i + 1], i, b, cutoff);
    assert gs[..i + 1][..i] == gs[..i] && gs[..i + 1][i..] == [gs[i]];
    assert PlanOf([gs[i]][1..], b, cutoff) == [];
    PlanSplit(gs, i + 1, b, cutoff);
  }

  /** What the plan has for one group. */
  function GroupPlan(g: Group, b: Bucket, cutoff: int): seq<string> {
    if GroupExpired(g, b, cutoff) then KeysOf(g.items) else []
  }

  /** The part of the plan that is done when group `i` has lost `m` objects. */
  lemma PlanReached(gs: seq<Group>, i: nat, b: Bucket, cutoff: int, m: nat)
    requires i < |gs| && m <= |GroupPlan(gs[i], b, cutoff)|
    ensures var plan, gone, part := PlanOf(gs, b, cutoff), PlanOf(gs[..i], b, cutoff), GroupPlan(gs[i], b, cutoff);
      |gone| + m <= |plan| && gone + part[..m] == plan[..|gone| + m]
      && (m == |part| ==> gone + part[..m] == PlanOf(gs[..i + 1], b, cutoff))
  {
    PlanSnoc(gs, i, b, cutoff);
    hide PlanOf, KeysOf, GroupExpired;
    var plan, gone, part := PlanOf(gs, b, cutoff), PlanOf(gs[..i], b, cutoff), GroupPlan(gs[i], b, cutoff);
    assert gone + part <= plan;
    assert (gone + part)[..|gone| + m] == gone + part[..m];
  }

  function CountExpired(gs: seq<Group>, b: Bucket, cutoff: int): nat {
    if gs == [] then 0
    else CountExpired(gs[..|gs| - 1], b, cutoff) + if GroupExpired(gs[|gs| - 1], b, cutoff) then 1 else 0
  }

  /** The first `i` groups have been dealt with. */
  ghost predicate Swept(b: Bucket, b': Bucket, gs: seq<Group>, i: nat, cutoff: int, deleted: nat)
    requires i <= |gs|
  {
    b' == Without(b, PlanOf(gs[..i], b, cutoff)) && deleted == CountExpired(gs[..i], b, cutoff)
  }

  /** The first `n` removals of the plan have been made. */
  ghost predicate Stopped(b: Bucket, b': Bucket, gs: seq<Group>, cutoff: int, n: nat) {
    n <= |PlanOf(gs, b, cutoff)| && b' == Without(b, PlanOf(gs, b, cutoff)[..n])
  }

  lemma SweptNothing(b: Bucket, gs: seq<Group>, cutoff: int)
    ensures Swept(b, b, gs, 0, cutoff, 0) && Stopped(b, b, gs, cutoff, 0)
  {
    assert gs[..0] == [] && PlanOf(gs, b, cutoff)[..0] == [];
  }

  /** A group that stays. */
  lemma SweptKept(b: Bucket, b': Bucket, gs: seq<Group>, i: nat, cutoff: int, deleted: nat) returns (n: nat)
    requires i < |gs| && Swept(b, b', gs, i, cutoff, deleted)
    ensures Stopped(b, b', gs, cutoff, n)
    ensures !GroupExpired(gs[i], b, cutoff) ==> Swept(b, b', gs, i + 1, cutoff, deleted)
  {
    PlanReached(gs, i, b, cutoff, 0);
    CountSnoc(gs, i, b, cutoff);
    hide PlanOf, CountExpired, GroupExpired, Without;
    var gone := PlanOf(gs[..i], b, cutoff);
    assert gone + GroupPlan(gs[i], b, cutoff)[..0] == gone;
    n := |gone|;
  }

  /** A group that goes, up to its object number `m`. */
  lemma SweptMore(b: Bucket, b': Bucket, b'': Bucket, gs: seq<Group>, i: nat, cutoff: int, deleted: nat, m: nat)
    returns (n: nat)
    requires i < |gs| && Swept(b, b', gs, i, cutoff, deleted)
    requires GroupExpired(gs[i], b, cutoff) && m <= |KeysOf(gs[i].items)|
    requires b'' == Without(b, PlanOf(gs[..i], b, cutoff) + KeysOf(gs[i].items)[..m])
    ensures Stopped(b, b'', gs, cutoff, n)
    ensures m == |KeysOf(gs[i].items)| ==> Swept(b, b'', gs, i + 1, cutoff, deleted + 1)
  {
    PlanReached(gs, i, b, cutoff, m);
    CountSnoc(gs, i, b, cutoff);
    assert GroupPlan(gs[i], b, cutoff) == KeysOf(gs[i].items);
    hide PlanOf, CountExpired, GroupExpired, Without, GroupPlan, KeysOf;
    var keys, gone := KeysOf(gs[i].items), PlanOf(gs[..i], b, cutoff);
    n := |gone| + m;
    assert gone + keys[..m] == PlanOf(gs, b, cutoff)[..n];
  }

  lemma CountSnoc(gs: seq<Group>, i: nat, b: Bucket, cutoff: int)
    requires i < |gs|
    ensures CountExpired(gs[..i + 1], b, cutoff)
            == CountExpired(gs[..i], b, cutoff) + if GroupExpired(gs[i], b, cutoff) then 1 else 0
  {
    assert gs[..i + 1][..i] == gs[..i];
  }

  lemma {:induction false} WithoutSnoc(b: Bucket, keys: seq<string>, k: string)
    ensures Without(b, keys + [k]) == Without(b, keys) - {k}
  {
    if keys == [] {
      assert keys + [k] == [k];
    } else {
      WithoutSnoc(b - {keys[0]}, keys[1..], k);
      assert (keys + [k])[1..] == keys[1..] + [k];
    }
  }

  lemma OtherMetadata(b: Bucket, gs: seq<Group>, i: nat, j: nat)
    requires GroupsOf(gs, b) && j < i < |gs|
    ensures MetadataKey(gs[i].dir) !in KeysOf(gs[j].items)
  {
    ThreeKeys(gs[i].dir);
    assert gs[i] in gs && gs[j] in gs && gs[j].dir != gs[i].dir;
    hide Inside, KeysOf, MetadataKey, DistinctDirs;
    KeysOfMembers(gs[j], b);
    if MetadataKey(gs[i].dir) in KeysOf(gs[j].items) {
      DisjointDirs(MetadataKey(gs[i].dir), gs[i].dir, gs[j].dir);
    }
  }

  /** Clearing other directories does not change what a directory's metadata says. */
  lemma VerdictKept(b: Bucket, gs: seq<Group>, i: nat, cutoff: int)
    requires GroupsOf(gs, b) && i < |gs|
    ensures MetadataVerdict(Without(b, PlanOf(gs[..i], b, cutoff)), gs[i].dir, cutoff)
            == MetadataVerdict(b, gs[i].dir, cutoff)
  {
    var plan := PlanOf(gs[..i], b, cutoff);
    WithoutKeys(b, plan);
    PlanMembers(gs[..i], b, cutoff);
    hide KeysOf, GroupExpired, MetadataKey, GroupsOf, PlanOf, Without;
    forall h | h in gs[..i] ensures MetadataKey(gs[i].dir) !in KeysOf(h.items) {
      var j :| 0 <= j < |gs[..i]| && gs[..i][j] == h;
      OtherMetadata(b, gs, i, j);
    }
  }

  /** Carrying the plan out removes exactly what had expired. */
  lemma PlanRemoves(b: Bucket, cluster: string, cutoff: int)
    requires NoSlash(cluster)
    ensures Without(b, RemovalPlan(b, cluster, cutoff)) == Pruned(b, cluster, cutoff)
  {
    PlanIsDoom(b, cluster, cutoff);
    WithoutKeys(b, RemovalPlan(b, cluster, cutoff));
    hide RemovalPlan, Without, Doomed;
  }

  /** The directories that go. */
  ghost function ExpiredDirs(b: Bucket, cluster: string, cutoff: int): set<string> {
    set k | k in b && Doomed(b, cluster, cutoff, k) :: Dir(k)
  }

  ghost function GroupDirs(gs: seq<Group>, b: Bucket, cutoff: int): set<string> {
    set g | g in gs && GroupExpired(g, b, cutoff) :: g.dir
  }

  lemma {:induction false} CountGroupDirs(gs: seq<Group>, b: Bucket, cutoff: int)
    requires DistinctDirs(gs)
    ensures CountExpired(gs, b, cutoff) == |GroupDirs(gs, b, cutoff)|
  {
    hide GroupExpired;
    if gs != [] {
      var rest, last := gs[..|gs| - 1], gs[|gs| - 1];
      CountGroupDirs(rest, b, cutoff);
      assert forall g :: g in gs <==> g in rest || g == last;
      assert last.dir !in GroupDirs(rest, b, cutoff);
      assert GroupDirs(gs, b, cutoff)
             == GroupDirs(rest, b, cutoff) + if GroupExpired(last, b, cutoff) then {last.dir} else {};
    }
  }

  lemma ExpiredGroupDir(b: Bucket, cluster: string, cutoff: int, g: Group)
    requires GroupOf(g, b) && ClusterPrefix(cluster) <= g.dir && GroupExpired(g, b, cutoff)
    ensures g.dir in ExpiredDirs(b, cluster, cutoff)
  {
    ExpiredGroup(g, b, cutoff);
    hide GroupExpired, Expired, ClusterPrefix, Inside, Dir;
    var x := g.items[0];
    assert x in g.items;
    InsideIsDir(x.key, g.dir);
    assert Doomed(b, cluster, cutoff, x.key);
  }

  lemma ExpiredDirGroup(b: Bucket, cluster: string, cutoff: int, k: string)
    requires NoSlash(cluster) && k in b && Doomed(b, cluster, cutoff, k)
    ensures Dir(k) in GroupDirs(Groups(ListItems(b, cluster)), b, cutoff)
  {
    hide Groups, ListItems, GroupExpired, Expired, ClusterPrefix, Dir;
    var g := EveryDirListed(b, cluster, k);
    ListedGroups(b, cluster);
    hide GroupOf;
    ExpiredGroup(g, b, cutoff);
  }

  /** The count that retention returns is the number of directories removed. */
  lemma CountIsDirs(b: Bucket, cluster: string, cutoff: int)
    requires NoSlash(cluster)
    ensures CountExpired(Groups(ListItems(b, cluster)), b, cutoff) == |ExpiredDirs(b, cluster, cutoff)|
  {
    var gs := Groups(ListItems(b, cluster));
    ListedGroups(b, cluster);
    CountGroupDirs(gs, b, cutoff);
    hide Groups, ListItems, GroupExpired, GroupOf, Doomed, ClusterPrefix, Dir, CountExpired, DistinctDirs;
    forall d | d in GroupDirs(gs, b, cutoff) ensures d in ExpiredDirs(b, cluster, cutoff) {
      var g :| g in gs && GroupExpired(g, b, cutoff) && g.dir == d;
      ExpiredGroupDir(b, cluster, cutoff, g);
    }
    forall d | d in ExpiredDirs(b, cluster, cutoff) ensures d in GroupDirs(gs, b, cutoff) {
      var k :| k in b && Doomed(b, cluster, cutoff, k) && Dir(k) == d;
      ExpiredDirGroup(b, cluster, cutoff, k);
    }
    assert GroupDirs(gs, b, cutoff) == ExpiredDirs(b, cluster, cutoff);
  }

  /** Clearing the groups before it has not changed whether a group has expired. */
  lemma SweptVerdict(b: Bucket, b': Bucket, gs: seq<Group>, i: nat, cutoff: int, deleted: nat)
    requires i < |gs| && GroupsOf(gs, b) && Swept(b, b', gs, i, cutoff, deleted)
    ensures GroupExpired(gs[i], b', cutoff) == GroupExpired(gs[i], b, cutoff)
    ensures HasMetadata(gs[i]) && MetadataVerdict(b', gs[i].dir, cutoff) == Broken <==> BrokenDir(b, gs[i].dir)
  {
    VerdictKept(b, gs, i, cutoff);
    assert gs[i] in gs;
    BrokenGroup(gs[i], b, cutoff);
    hide HasMetadata, MetadataVerdict, OrphanExpired, GroupOf, BrokenDir;
  }

  lemma BrokenGroup(g: Group, b: Bucket, cutoff: int)
    requires GroupOf(g, b)
    ensures HasMetadata(g) && MetadataVerdict(b, g.dir, cutoff) == Broken <==> BrokenDir(b, g.dir)
  {
    ThreeKeys(g.dir);
    hide Inside, MetadataKey;
    var m := MetadataKey(g.dir);
    if m in b { assert Item(m, b[m].modified) in g.items; }
    assert HasMetadata(g) ==> exists x | x in g.items :: x.key == m;
  }

  lemma SweptStops(b: Bucket, b': Bucket, gs: seq<Group>, cutoff: int, deleted: nat) returns (n: nat)
    requires Swept(b, b', gs, |gs|, cutoff, deleted)
    ensures Stopped(b, b', gs, cutoff, n)
  {
    n := |PlanOf(gs, b, cutoff)|;
    hide PlanOf, CountExpired, Without;
    assert gs[..|gs|] == gs && PlanOf(gs, b, cutoff)[..n] == PlanOf(gs, b, cutoff);
  }

  lemma TakeOne(b: Bucket, b': Bucket, gone: seq<string>, keys: seq<string>, j: nat)
    requires j < |keys| && b' == Without(b, gone + keys[..j])
    ensures b' - {keys[j]} == Without(b, gone + keys[..j + 1])
  {
    WithoutSnoc(b, gone + keys[..j], keys[j]);
    assert gone + keys[..j] + [keys[j]] == gone + keys[..j + 1];
  }
}
