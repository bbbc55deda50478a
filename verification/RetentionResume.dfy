/** Interrupting retention and running it again later. */
module RetentionResume {
  import opened Errors
  import opened Strings
  import opened Keys
  import opened Objects
  import opened Pruner
  import opened Retention

  ghost predicate AfterMetadataOld(g: Group, cutoff: int) {
    forall i, j | 0 <= i < j < |g.items| && g.items[i].key == MetadataKey(g.dir) && g.items[j].modified.Some? ::
      g.items[j].modified.value < cutoff
  }

  /** The metadata is listed last, or what is left without it will still be recognised as an expired orphan. */
  ghost predicate LastOk(g: Group, cutoff: int) {
    g.items != []
    && (g.items[|g.items| - 1].key == MetadataKey(g.dir)
        || (g.items[|g.items| - 1].modified.Some? && AfterMetadataOld(g, cutoff)))
  }

  /** Can be read off the listing before the first run. */
  ghost predicate ResumeSafe(b: Bucket, cluster: string, cutoff: int, later: int) {
    forall g | g in Groups(ListItems(b, cluster)) && GroupExpired(g, b, cutoff) :: LastOk(g, later)
  }

  // ---- an interruption cuts at most one group, somewhere inside ---------------------------------------------------

  ghost predicate CutAt(keys: seq<string>, g: Group, j: nat) {
    j <= |g.items| && forall k | Inside(k, g.dir) :: k in keys <==> k in KeysOf(g.items)[..j]
  }

  lemma OtherGroup(g: Group, h: Group, b: Bucket, k: string)
    requires GroupOf(g, b) && GroupOf(h, b) && g.dir != h.dir && k in KeysOf(h.items)
    ensures !Inside(k, g.dir)
  {
    KeysOfMembers(h, b);
    if Inside(k, g.dir) { DisjointDirs(k, g.dir, h.dir); }
  }

  lemma NotPlanned(gs: seq<Group>, b: Bucket, cutoff: int, g: Group, k: string)
    requires GroupOf(g, b) && (forall h | h in gs :: GroupOf(h, b) && h.dir != g.dir) && Inside(k, g.dir)
    ensures k !in PlanOf(gs, b, cutoff)
  {
    hide Inside, KeysOf, GroupExpired, GroupOf;
    PlanMembers(gs, b, cutoff);
    forall h | h in gs && k in KeysOf(h.items) ensures false {
      OtherGroup(g, h, b, k);
    }
  }

  lemma Tail(gs: seq<Group>, b: Bucket)
    requires GroupsOf(gs, b) && gs != []
    ensures GroupsOf(gs[1..], b) && GroupOf(gs[0], b)
    ensures forall h | h in gs[1..] :: h in gs && h.dir != gs[0].dir
  {
    hide GroupOf;
    assert gs[0] in gs;
    forall h | h in gs[1..] ensures h in gs && h.dir != gs[0].dir {
      var i :| 0 <= i < |gs[1..]| && gs[1..][i] == h;
      assert gs[i + 1] == h;
    }
  }

  lemma InTaken(part: seq<string>, rest: seq<string>, n: nat, k: string)
    requires n <= |part| + |rest|
    ensures k in (part + rest)[..n] <==> if n <= |part| then k in part[..n] else k in part || k in rest[..n - |part|]
  {
    if n <= |part| {
      assert (part + rest)[..n] == part[..n];
    } else {
      assert (part + rest)[..n] == part + rest[..n - |part|];
    }
  }

  lemma {:induction false} PrefixCuts(gs: seq<Group>, b: Bucket, cutoff: int, n: nat, g: Group) returns (j: nat)
    requires GroupsOf(gs, b) && g in gs && n <= |PlanOf(gs, b, cutoff)|
    ensures CutAt(PlanOf(gs, b, cutoff)[..n], g, j)
    ensures !GroupExpired(g, b, cutoff) ==> j == 0
  {
    Tail(gs, b);
    var part, rest := GroupPlan(gs[0], b, cutoff), PlanOf(gs[1..], b, cutoff);
    assert PlanOf(gs, b, cutoff) == part + rest;
    assert g == gs[0] || g in gs[1..];
    if g == gs[0] {
      j := if n <= |part| then n else |part|;
      assert part[..|part|] == part;
      hide PlanOf, GroupOf, GroupsOf, GroupExpired, Inside, KeysOf;
      forall k | Inside(k, g.dir) ensures k in (part + rest)[..n] <==> k in part[..j] {
        NotPlanned(gs[1..], b, cutoff, g, k);
        InTaken(part, rest, n, k);
      }
    } else {
      j := 0;
      hide PlanOf, GroupOf, GroupsOf, GroupExpired, Inside, KeysOf;
      if n > |part| {
        j := PrefixCuts(gs[1..], b, cutoff, n - |part|, g);
      }
      forall k | Inside(k, g.dir) ensures k in (part + rest)[..n] <==> k in KeysOf(g.items)[..j] {
        InTaken(part, rest, n, k);
        if k in part { OtherGroup(g, gs[0], b, k); }
      }
    }
  }

  /** Every cut of an expired group is reached by some interruption. */
  lemma {:induction false} CutReached(gs: seq<Group>, b: Bucket, cutoff: int, g: Group, j: nat) returns (n: nat)
    requires GroupsOf(gs, b) && g in gs && GroupExpired(g, b, cutoff) && j <= |g.items|
    ensures n <= |PlanOf(gs, b, cutoff)| && CutAt(PlanOf(gs, b, cutoff)[..n], g, j)
  {
    Tail(gs, b);
    var part, rest := GroupPlan(gs[0], b, cutoff), PlanOf(gs[1..], b, cutoff);
    assert PlanOf(gs, b, cutoff) == part + rest;
    assert g == gs[0] || g in gs[1..];
    if g == gs[0] {
      hide GroupOf, GroupsOf, Inside, PlanOf;
      n := j;
      assert part == KeysOf(g.items);
      assert (part + rest)[..n] == part[..n];
    } else {
      hide PlanOf, GroupOf, GroupsOf, GroupExpired, Inside, KeysOf;
      var m := CutReached(gs[1..], b, cutoff, g, j);
      n := |part| + m;
      forall k | k in part ensures !Inside(k, g.dir) { OtherGroup(g, gs[0], b, k); }
      CutLater(part, rest, m, g, j);
    }
  }

  /** A cut in the rest of a plan whose first part has nothing of this group. */
  lemma CutLater(part: seq<string>, rest: seq<string>, m: nat, g: Group, j: nat)
    requires m <= |rest| && CutAt(rest[..m], g, j) && forall k | k in part :: !Inside(k, g.dir)
    ensures CutAt((part + rest)[..|part| + m], g, j)
  {
    hide Inside, KeysOf;
    assert (part + rest)[..|part| + m] == part + rest[..m];
  }

  // ---- what is left of a cut group --------------------------------------------------------------------------------

  /** The remaining objects of a cut directory are the later items of its group. */
  ghost predicate Rest(b: Bucket, b': Bucket, g: Group, j: nat) {
    j <= |g.items| && Shrinks(b, b')
    && forall k | Inside(k, g.dir) :: k in b' <==> k in KeysOf(g.items)[j..]
  }

  lemma InOnePart(ks: seq<string>, j: nat, k: string)
    requires j <= |ks| && forall i, m | 0 <= i < m < |ks| :: ks[i] != ks[m]
    ensures k in ks <==> k in ks[..j] || k in ks[j..]
    ensures !(k in ks[..j] && k in ks[j..])
  {
    assert ks == ks[..j] + ks[j..];
  }

  lemma CutRest(b: Bucket, keys: seq<string>, g: Group, j: nat)
    requires GroupOf(g, b) && CutAt(keys, g, j)
    ensures Rest(b, Without(b, keys), g, j)
  {
    WithoutKeys(b, keys);
    KeysOfMembers(g, b);
    var ks := KeysOf(g.items);
    assert ks == ks[..j] + ks[j..];
    assert forall i, m | 0 <= i < m < |ks| :: ks[i] != ks[m];
    hide Inside, KeysOf, GroupOf;
    forall k | Inside(k, g.dir) ensures k in Without(b, keys) <==> k in ks[j..] {
      InOnePart(ks, j, k);
    }
  }

  lemma RestItem(b: Bucket, b': Bucket, g: Group, j: nat, i: nat)
    requires GroupOf(g, b) && Rest(b, b', g, j) && j <= i < |g.items|
    ensures var x := g.items[i];
      x.key in b' && Inside(x.key, g.dir) && b'[x.key].modified == x.modified && b'[x.key] == b[x.key]
  {
    assert g.items[i] in g.items;
    assert KeysOf(g.items)[j..][i - j] == g.items[i].key;
    hide Inside, KeysOf;
  }

  lemma ItemAt(b: Bucket, b': Bucket, g: Group, j: nat, k: string) returns (i: nat)
    requires GroupOf(g, b) && Rest(b, b', g, j) && k in b' && Inside(k, g.dir)
    ensures j <= i < |g.items| && g.items[i] == Item(k, b'[k].modified)
  {
    hide Inside, KeysOf;
    var m :| 0 <= m < |KeysOf(g.items)[j..]| && KeysOf(g.items)[j..][m] == k;
    i := m + j;
    assert g.items[i] in g.items;
  }

  /** When the listing was safe, whatever is left of an expired directory is expired for the later run too. */
  lemma RestExpires(b: Bucket, b': Bucket, g: Group, j: nat, cutoff: int, later: int)
    requires GroupOf(g, b) && Rest(b, b', g, j) && j < |g.items|
    requires GroupExpired(g, b, cutoff) && cutoff <= later && LastOk(g, later)
    ensures Expired(b', g.dir, later)
  {
    var meta, last := MetadataKey(g.dir), |g.items| - 1;
    ThreeKeys(g.dir);
    hide Inside, KeysOf, MetadataKey, Rest;
    if meta in b' {
      var i := ItemAt(b, b', g, j, meta);
      RestItem(b, b', g, j, i);
      assert HasMetadata(g);
    } else {
      RestItem(b, b', g, j, last);
      forall k | k in b' && Inside(k, g.dir) && b'[k].modified.Some? ensures b'[k].modified.value < later {
        var i := ItemAt(b, b', g, j, k);
        assert g.items[i] in g.items;
        if HasMetadata(g) {
          var m :| 0 <= m < |g.items| && g.items[m].key == meta;
          if j <= m { RestItem(b, b', g, j, m); }
        }
      }
    }
  }

  lemma ExpiredLater(b: Bucket, d: string, cutoff: int, later: int)
    requires Expired(b, d, cutoff) && cutoff <= later
    ensures Expired(b, d, later)
  {
    hide Inside, MetadataKey;
  }

  lemma UncutExpiry(b: Bucket, b': Bucket, g: Group, later: int)
    requires GroupOf(g, b) && Rest(b, b', g, 0)
    ensures Expired(b', g.dir, later) <==> Expired(b, g.dir, later)
  {
    KeysOfMembers(g, b);
    assert KeysOf(g.items)[0..] == KeysOf(g.items);
    hide Expired, Inside, KeysOf;
    assert SameInside(b, b', g.dir);
    ExpiredFrame(b, b', g.dir, later);
  }

  lemma OrphanFrame(b: Bucket, b': Bucket, d: string, cutoff: int)
    requires SameInside(b, b', d) && OrphanTooOld(b, d, cutoff)
    ensures OrphanTooOld(b', d, cutoff)
  {
    hide Inside;
    var k :| k in b && Inside(k, d) && b[k].modified.Some?;
    assert SameAt(b, b', k);
    forall m | m in b' && Inside(m, d) && b'[m].modified.Some? ensures b'[m].modified.value < cutoff {
      assert SameAt(b, b', m);
    }
  }

  lemma ExpiredFrame(b: Bucket, b': Bucket, d: string, cutoff: int)
    requires SameInside(b, b', d)
    ensures Expired(b', d, cutoff) <==> Expired(b, d, cutoff)
  {
    ThreeKeys(d);
    assert SameAt(b, b', MetadataKey(d));
    assert SameInside(b', b, d) by {
      forall k | Inside(k, d) ensures SameAt(b', b, k) { assert SameAt(b, b', k); }
    }
    hide Inside, MetadataKey, SameInside, OrphanTooOld;
    if OrphanTooOld(b, d, cutoff) { OrphanFrame(b, b', d, cutoff); }
    if OrphanTooOld(b', d, cutoff) { OrphanFrame(b', b, d, cutoff); }
  }

  // ---- the theorem ------------------------------------------------------------------------------------------------

  lemma RerunAt(b: Bucket, cluster: string, cutoff: int, later: int, n: nat, k: string)
    requires NoSlash(cluster) && cutoff <= later && ResumeSafe(b, cluster, cutoff, later)
    requires n <= |RemovalPlan(b, cluster, cutoff)| && k in b
    ensures var b' := Interrupted(b, cluster, cutoff, n);
      (k in b' && !Doomed(b', cluster, later, k)) <==> !Doomed(b, cluster, later, k)
  {
    var plan, b' := RemovalPlan(b, cluster, cutoff), Interrupted(b, cluster, cutoff, n);
    WithoutKeys(b, plan[..n]);
    PlanIsDoom(b, cluster, cutoff);
    hide Groups, ListItems, KeysOf, GroupExpired, Expired, Inside, ClusterPrefix, Dir, GroupOf, DistinctDirs, LastOk, PlanOf;
    if !NoSlash(k) && ClusterPrefix(cluster) <= Dir(k) {
      var g := EveryDirListed(b, cluster, k);
      ListedGroups(b, cluster);
      InsideIsDir(k, g.dir);
      var j := PrefixCuts(Groups(ListItems(b, cluster)), b, cutoff, n, g);
      CutRest(b, plan[..n], g, j);
      ExpiredGroup(g, b, cutoff);
      if GroupExpired(g, b, cutoff) {
        ExpiredLater(b, g.dir, cutoff, later);
        if k in b' {
          var i := ItemAt(b, b', g, j, k);
          RestExpires(b, b', g, j, cutoff, later);
        }
      } else {
        UncutExpiry(b, b', g, later);
        assert k in plan ==> Doomed(b, cluster, cutoff, k);
        assert k in plan[..n] ==> k in plan;
      }
    } else {
      assert k in plan[..n] ==> k in plan;
    }
  }

  lemma RerunSame(b: Bucket, cluster: string, cutoff: int, later: int, n: nat)
    requires NoSlash(cluster) && cutoff <= later && ResumeSafe(b, cluster, cutoff, later)
    requires n <= |RemovalPlan(b, cluster, cutoff)|
    ensures Pruned(Interrupted(b, cluster, cutoff, n), cluster, later) == Pruned(b, cluster, later)
  {
    var b' := Interrupted(b, cluster, cutoff, n);
    WithoutKeys(b, RemovalPlan(b, cluster, cutoff)[..n]);
    assert Shrinks(b, b');
    hide ResumeSafe, RemovalPlan, Interrupted;
    PrunedShrinks(b, cluster, later);
    PrunedShrinks(b', cluster, later);
    var p, p' := Pruned(b, cluster, later), Pruned(b', cluster, later);
    hide Pruned;
    forall k ensures k in p <==> k in p' {
      if k in b { RerunAt(b, cluster, cutoff, later, n, k); }
    }
  }

  lemma PrunedShrinks(b: Bucket, cluster: string, cutoff: int)
    ensures Shrinks(b, Pruned(b, cluster, cutoff))
  {
    hide Doomed;
  }

  /** An unsafe group has a cut after which the later run leaves an object that an uninterrupted run removes. */
  lemma UnsafeCut(g: Group, b: Bucket, cutoff: int, later: int) returns (j: nat, i: nat)
    requires GroupOf(g, b) && GroupExpired(g, b, cutoff) && !LastOk(g, later)
    ensures j <= i < |g.items|
    ensures forall b': Bucket | Rest(b, b', g, j) :: !Expired(b', g.dir, later)
  {
    var meta, last := MetadataKey(g.dir), |g.items| - 1;
    ThreeKeys(g.dir);
    hide Inside, KeysOf, MetadataKey, Rest;
    if g.items[last].modified.None? {
      j, i := last, last;
      forall b': Bucket | Rest(b, b', g, j) ensures !Expired(b', g.dir, later) {
        forall k | k in b' && Inside(k, g.dir) ensures k == g.items[last].key && b'[k].modified.None? {
          var m := ItemAt(b, b', g, j, k);
        }
      }
    } else {
      var m: int;
      m, i :| 0 <= m < i < |g.items| && g.items[m].key == meta && g.items[i].modified.Some?
              && g.items[i].modified.value >= later;
      j := m + 1;
      forall b': Bucket | Rest(b, b', g, j) ensures !Expired(b', g.dir, later) {
        RestItem(b, b', g, j, i);
        if meta in b' {
          var x := ItemAt(b, b', g, j, meta);
          assert false;
        }
      }
    }
  }

  /** Interrupting retention anywhere and running it again at a later time gives the store of one uninterrupted run at
      that time, for every point of interruption, exactly when the listing is safe. */
  lemma ResumeIffSafe(b: Bucket, cluster: string, cutoff: int, later: int)
    requires NoSlash(cluster) && cutoff <= later
    ensures (forall n | 0 <= n <= |RemovalPlan(b, cluster, cutoff)| ::
               Pruned(Interrupted(b, cluster, cutoff, n), cluster, later) == Pruned(b, cluster, later))
            <==> ResumeSafe(b, cluster, cutoff, later)
  {
    if ResumeSafe(b, cluster, cutoff, later) {
      forall n | 0 <= n <= |RemovalPlan(b, cluster, cutoff)|
        ensures Pruned(Interrupted(b, cluster, cutoff, n), cluster, later) == Pruned(b, cluster, later)
      {
        RerunSame(b, cluster, cutoff, later, n);
      }
    } else {
      var n := UnsafeResume(b, cluster, cutoff, later);
    }
  }

  lemma UnsafeResume(b: Bucket, cluster: string, cutoff: int, later: int) returns (n: nat)
    requires NoSlash(cluster) && cutoff <= later && !ResumeSafe(b, cluster, cutoff, later)
    ensures n <= |RemovalPlan(b, cluster, cutoff)|
    ensures Pruned(Interrupted(b, cluster, cutoff, n), cluster, later) != Pruned(b, cluster, later)
  {
    var gs := Groups(ListItems(b, cluster));
    var g :| g in gs && GroupExpired(g, b, cutoff) && !LastOk(g, later);
    ListedGroups(b, cluster);
    var j, i := UnsafeCut(g, b, cutoff, later);
    n := CutReached(gs, b, cutoff, g, j);
    var b' := Interrupted(b, cluster, cutoff, n);
    CutRest(b, RemovalPlan(b, cluster, cutoff)[..n], g, j);
    RestItem(b, b', g, j, i);
    ExpiredGroup(g, b, cutoff);
    ExpiredLater(b, g.dir, cutoff, later);
    var k := g.items[i].key;
    InsideIsDir(k, g.dir);
    hide Groups, ListItems, KeysOf, GroupExpired, Expired, Inside, ClusterPrefix, Dir, GroupOf, DistinctDirs, LastOk,
      Interrupted, RemovalPlan;
    assert k in b' && !Doomed(b', cluster, later, k) && Doomed(b, cluster, later, k);
    assert k in Pruned(b', cluster, later) && k !in Pruned(b, cluster, later);
  }

  // ---- the layout that publication produces -----------------------------------------------------------------------

  /** Every backup directory holds some of the three objects, all dated by the store. */
  ghost predicate StandardLayout(b: Bucket, cluster: string) {
    forall k | k in b && !NoSlash(k) && ClusterPrefix(cluster) <= Dir(k) ::
      b[k].modified.Some? && k in {PayloadKey(Dir(k)), ChecksumKey(Dir(k)), MetadataKey(Dir(k))}
  }

  /** For that layout key order puts the metadata last, so every interruption is repaired by the next run. */
  lemma StandardLayoutResumes(b: Bucket, cluster: string, cutoff: int, later: int)
    requires NoSlash(cluster) && StandardLayout(b, cluster)
    ensures ResumeSafe(b, cluster, cutoff, later)
  {
    ListedGroups(b, cluster);
    hide Groups, ListItems, GroupExpired;
    forall g | g in Groups(ListItems(b, cluster)) && GroupExpired(g, b, cutoff) ensures LastOk(g, later) {
      StandardGroup(b, cluster, g, later);
    }
  }

  lemma StandardItem(b: Bucket, cluster: string, g: Group, x: Item)
    requires StandardLayout(b, cluster) && GroupOf(g, b) && ClusterPrefix(cluster) <= g.dir && x in g.items
    ensures x.modified.Some? && Le(x.key, MetadataKey(g.dir))
  {
    InsideIsDir(x.key, g.dir);
    MetadataListedLast(g.dir);
    LeTotal(x.key, x.key);
    hide Le, Inside, ClusterPrefix, InKeyOrder;
  }

  lemma StandardGroup(b: Bucket, cluster: string, g: Group, later: int)
    requires StandardLayout(b, cluster) && GroupOf(g, b) && ClusterPrefix(cluster) <= g.dir
    ensures LastOk(g, later)
  {
    hide Le, ClusterPrefix, Inside, MetadataKey, StandardLayout;
    var meta, last := MetadataKey(g.dir), |g.items| - 1;
    assert g.items[last] in g.items;
    StandardItem(b, cluster, g, g.items[last]);
    if i :| 0 <= i < last && g.items[i].key == meta {
      LeAntisymmetric(meta, g.items[last].key);
      assert false;
    }
  }
}
