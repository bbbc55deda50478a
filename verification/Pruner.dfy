/** S3 retention as a step machine: a listing, then group by group a verdict and the removals. */
module Pruner {
  import opened Errors
  import opened Strings
  import opened Keys
  import opened Objects
  import Publisher

  type Call = Publisher.Call

  datatype Item = Item(key: string, modified: Option<int>)

  datatype Group = Group(dir: string, items: seq<Item>)

  /** `prefixes.setdefault(parts[0], []).append(o)`, for an insertion-ordered dict. */
  function AddItem(groups: seq<Group>, dir: string, item: Item): seq<Group> {
    if groups == [] then [Group(dir, [item])]
    else if groups[0].dir == dir then [groups[0].(items := groups[0].items + [item])] + groups[1..]
    else [groups[0]] + AddItem(groups[1..], dir, item)
  }

  /** The listing split by directory; keys without a slash are passed over. */
  function Groups(items: seq<Item>): seq<Group> {
    if items == [] then []
    else
      var last := items[|items| - 1];
      var before := Groups(items[..|items| - 1]);
      if NoSlash(last.key) then before else AddItem(before, Dir(last.key), last)
  }

  function ItemsOf(b: Bucket, keys: seq<string>): (r: seq<Item>)
    requires forall k | k in keys :: k in b
    ensures |r| == |keys|
    ensures forall i | 0 <= i < |r| :: r[i] == Item(keys[i], b[keys[i]].modified)
  {
    if keys == [] then [] else [Item(keys[0], b[keys[0]].modified)] + ItemsOf(b, keys[1..])
  }

  function ListItems(b: Bucket, cluster: string): seq<Item> {
    ItemsOf(b, Listing(b, ClusterPrefix(cluster)))
  }

  function KeysOf(items: seq<Item>): (r: seq<string>)
    ensures |r| == |items| && forall i | 0 <= i < |r| :: r[i] == items[i].key
  {
    if items == [] then [] else [items[0].key] + KeysOf(items[1..])
  }

  /** `max(last_modified, default=None)` over the items that have one. */
  function Newest(items: seq<Item>): (r: Option<int>)
    ensures r.None? <==> forall x | x in items :: x.modified.None?
    ensures r.Some? ==> exists x | x in items :: x.modified == r
    ensures r.Some? ==> forall x | x in items && x.modified.Some? :: x.modified.value <= r.value
  {
    if items == [] then None
    else
      var rest := Newest(items[1..]);
      assert forall x :: x in items <==> x == items[0] || x in items[1..];
      if items[0].modified.None? then rest
      else if rest.None? || items[0].modified.value >= rest.value then items[0].modified
      else rest
  }

  predicate HasMetadata(g: Group) { exists i | 0 <= i < |g.items| :: g.items[i].key == MetadataKey(g.dir) }

  /** A group without metadata goes when its newest object is older than the cutoff. */
  predicate OrphanExpired(g: Group, cutoff: int) {
    Newest(g.items).Some? && Newest(g.items).value < cutoff
  }

  datatype Verdict = Keep | Drop | Broken

  /** What a group with metadata comes to once its metadata object has been read. */
  function MetadataVerdict(b: Bucket, dir: string, cutoff: int): Verdict {
    var k := MetadataKey(dir);
    if k !in b || !b[k].body.Json? || Unixtime(b[k].body.meta).None? then Broken
    else if Unixtime(b[k].body.meta).value < cutoff then Drop else Keep
  }

  datatype Pc = ListAll | Scan(groups: seq<Group>) | Removing(keys: seq<string>, rest: seq<Group>) | Done(r: Result<nat>)

  datatype Prune = Prune(cluster: string, cutoff: int, pc: Pc, deleted: nat)

  function Start(cluster: string, cutoff: int): Prune { Prune(cluster, cutoff, ListAll, 0) }

  predicate WellFormed(q: Prune) { q.pc.Removing? ==> q.pc.keys != [] }

  function Dropping(q: Prune, g: Group, rest: seq<Group>): Prune {
    if g.items == [] then q.(pc := Scan(rest), deleted := q.deleted + 1) else q.(pc := Removing(KeysOf(g.items), rest))
  }

  function Step(q: Prune, b: Bucket, c: Call): (Prune, Bucket)
    requires WellFormed(q)
  {
    match q.pc
    case ListAll =>
      (q.(pc := if c.Returns() then Scan(Groups(ListItems(b, q.cluster))) else Done(Err(Uncoded))), b)
    case Scan(groups) =>
      (if groups == [] then q.(pc := Done(Ok(q.deleted)))
       else
         var g := groups[0];
         if !HasMetadata(g) then
           if OrphanExpired(g, q.cutoff) then Dropping(q, g, groups[1..]) else q.(pc := Scan(groups[1..]))
         else if !c.Returns() then q.(pc := Done(Err(Coded(E_STORAGE, 0))))
         else match MetadataVerdict(b, g.dir, q.cutoff)
           case Keep => q.(pc := Scan(groups[1..]))
           case Drop => Dropping(q, g, groups[1..])
           case Broken => q.(pc := Done(Err(Coded(E_STORAGE, 0)))), b)
    case Removing(keys, rest) =>
      (if !c.Returns() then q.(pc := Done(Err(Uncoded)))
       else if |keys| == 1 then q.(pc := Scan(rest), deleted := q.deleted + 1)
       else q.(pc := Removing(keys[1..], rest)),
       if c.Takes() then b - {keys[0]} else b)
    case Done(_) => (q, b)
  }

  // ---- grouping ---------------------------------------------------------------------------------------------------

  /** A group holds objects of its own directory, and at least one. */
  predicate Grouped(g: Group) {
    NoSlash(g.dir) && g.items != [] && forall x | x in g.items :: Inside(x.key, g.dir)
  }

  lemma {:induction false} AddItemGrouped(groups: seq<Group>, dir: string, item: Item)
    requires NoSlash(dir) && Inside(item.key, dir) && forall g | g in groups :: Grouped(g)
    ensures forall g | g in AddItem(groups, dir, item) :: Grouped(g)
  {
    hide Inside;
    if groups != [] && groups[0].dir != dir {
      assert forall g | g in groups[1..] :: g in groups;
      AddItemGrouped(groups[1..], dir, item);
    } else if groups != [] {
      assert groups[0] in groups;
      assert forall g | g in groups[1..] :: g in groups;
    }
  }

  lemma {:induction false} GroupsGrouped(items: seq<Item>)
    ensures forall g | g in Groups(items) :: Grouped(g)
  {
    if items != [] {
      var last := items[|items| - 1];
      GroupsGrouped(items[..|items| - 1]);
      if !NoSlash(last.key) {
        InsideIsDir(last.key, Dir(last.key));
        AddItemGrouped(Groups(items[..|items| - 1]), Dir(last.key), last);
      }
    }
  }

  function Find(groups: seq<Group>, dir: string): seq<Item> {
    if groups == [] then [] else if groups[0].dir == dir then groups[0].items else Find(groups[1..], dir)
  }

  function Select(items: seq<Item>, dir: string): seq<Item> {
    if items == [] then []
    else
      var last := items[|items| - 1];
      var before := Select(items[..|items| - 1], dir);
      if !NoSlash(last.key) && Dir(last.key) == dir then before + [last] else before
  }

  ghost predicate DistinctDirs(groups: seq<Group>) {
    forall i, j | 0 <= i < j < |groups| :: groups[i].dir != groups[j].dir
  }

  lemma {:induction false} AddItemFind(groups: seq<Group>, dir: string, item: Item)
    requires DistinctDirs(groups)
    ensures var r := AddItem(groups, dir, item);
      DistinctDirs(r)
      && (forall d :: Find(r, d) == if d == dir then Find(groups, d) + [item] else Find(groups, d))
      && (forall g | g in r :: g.dir == dir || exists h | h in groups :: h.dir == g.dir)
  {
    if groups != [] && groups[0].dir != dir {
      AddItemFind(groups[1..], dir, item);
    }
  }

  /** Every group is the part of the listing that lies in its directory, in listing order. */
  lemma {:induction false} GroupsSelect(items: seq<Item>)
    ensures DistinctDirs(Groups(items))
    ensures forall d :: Find(Groups(items), d) == Select(items, d)
  {
    if items != [] {
      var last := items[|items| - 1];
      GroupsSelect(items[..|items| - 1]);
      if !NoSlash(last.key) {
        AddItemFind(Groups(items[..|items| - 1]), Dir(last.key), last);
      }
    }
  }

  lemma {:induction false} FindGroup(groups: seq<Group>, g: Group)
    requires DistinctDirs(groups) && g in groups
    ensures Find(groups, g.dir) == g.items
  {
    if groups[0].dir == g.dir {
      assert groups[0] == g;
    } else {
      assert g in groups[1..];
      FindGroup(groups[1..], g);
    }
  }

  lemma {:induction false} SelectMembers(items: seq<Item>, dir: string)
    ensures forall x :: x in Select(items, dir) <==> x in items && !NoSlash(x.key) && Dir(x.key) == dir
  {
    if items != [] {
      SelectMembers(items[..|items| - 1], dir);
      assert items == items[..|items| - 1] + [items[|items| - 1]];
    }
  }

  /** In a fresh listing the group of a directory is exactly the objects of that directory. */
  lemma FreshGroup(b: Bucket, cluster: string, g: Group)
    requires NoSlash(cluster) && g in Groups(ListItems(b, cluster))
    ensures Grouped(g) && ClusterPrefix(cluster) <= g.dir
    ensures forall x :: x in g.items <==> x.key in b && Inside(x.key, g.dir) && x.modified == b[x.key].modified
  {
    var items := ListItems(b, cluster);
    GroupsGrouped(items);
    GroupsSelect(items);
    FindGroup(Groups(items), g);
    SelectMembers(items, g.dir);
    hide Groups, Select, Find, Inside, ListItems, ClusterPrefix, Dir;
    var y := g.items[0];
    ItemListed(b, cluster, y);
    PrefixOfDir(cluster, g.dir, y.key);
    forall x ensures x in g.items <==> x.key in b && Inside(x.key, g.dir) && x.modified == b[x.key].modified {
      InsideIsDir(x.key, g.dir);
      ItemListed(b, cluster, x);
      if Inside(x.key, g.dir) { PrefixOfDir(cluster, g.dir, x.key); }
    }
  }

  lemma ItemListed(b: Bucket, cluster: string, x: Item)
    ensures x in ListItems(b, cluster)
            <==> x.key in b && x.modified == b[x.key].modified && ClusterPrefix(cluster) <= x.key
  {
    var keys := Listing(b, ClusterPrefix(cluster));
    if x.key in keys {
      var i :| 0 <= i < |keys| && keys[i] == x.key;
      assert ListItems(b, cluster)[i] == Item(x.key, b[x.key].modified);
    }
  }
}
