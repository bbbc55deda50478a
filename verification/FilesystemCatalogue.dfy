/** What publication and retention on the filesystem mean for the catalogue, at every state they pass through. */
module FilesystemCatalogue {
  import opened Errors
  import opened Strings
  import opened Keys
  import opened Objects
  import opened Filesystem
  import opened FilesystemBackend

  /** Partial directories are never entries. */
  lemma PartialIsNoEntry(cluster: string, name: string)
    ensures !(ClusterPrefix(cluster) <= PartialOf(name))
  {
    assert ClusterPrefix(cluster)[0] == 'g' && PartialOf(name)[0] == '.';
  }

  /** The catalogue, read off the directories: those under the cluster prefix with all three files, whose metadata names
      this cluster, a supported format and a non-negative creation time. */
  lemma CatalogueIs(s: Disk, cluster: string, d: string)
    ensures d in CatalogueOn(s, cluster) <==>
      "galera-" + cluster + "-" <= d && d in s && s[d].Tree?
      && "backup.tar.enc" in s[d].files && "backup.sha256" in s[d].files && "metadata.json" in s[d].files
      && match s[d].files["metadata.json"].body
         case Blob(_) => false
         case Json(m) => m.cluster == cluster && 1 <= m.format <= 3 && m.created.Int? && m.created.n >= 0
    ensures d in CatalogueOn(s, cluster) ==>
      s[d].files["metadata.json"].body.Json?
      && CatalogueOn(s, cluster)[d] == Entry(s[d].files["backup.tar.enc"].body, s[d].files["metadata.json"].body.meta)
  {
  }

  /** A crash anywhere in publication, or its end, leaves the old catalogue or the old one with one verified entry more. */
  lemma AtomicPublish(s: Disk, t: Disk, art: Artifact, cluster: string, hash: Bytes -> string)
    requires Passes(s, t, art, hash)
    ensures CatalogueOn(t, cluster) == CatalogueOn(s, cluster)
            || AddsVerified(CatalogueOn(s, cluster), CatalogueOn(t, cluster), art.name, art.metadata.body, hash)
  {
    PartialIsNoEntry(cluster, art.name);
    var c, c', p := CatalogueOn(s, cluster), CatalogueOn(t, cluster), PartialOf(art.name);
    hide ClusterPrefix, PartialOf, NodeIsEntry;
    forall d: string | d != p && (d == art.name ==> Before(s, t, art.name))
      ensures (d in c <==> d in c') && (d in c ==> c[d] == c'[d])
    {
      assert SameChild(s, t, d);
    }
    assert p !in c && p !in c';
    if !Before(s, t, art.name) && art.name in c' {
      assert c' == c[art.name := c'[art.name]];
    }
  }

  /** When publication returns normally the catalogue has the new entry. */
  lemma PublishedIsListed(s: Disk, t: Disk, art: Artifact, cluster: string, hash: Bytes -> string)
    requires After(s, t, art, hash) && ClusterPrefix(cluster) <= art.name
    requires art.metadata.body.Json? && BelongsTo(art.metadata.body.meta, cluster)
    requires Unixtime(art.metadata.body.meta).Some?
    ensures AddsVerified(CatalogueOn(s, cluster), CatalogueOn(t, cluster), art.name, art.metadata.body, hash)
  {
    AtomicPublish(s, t, art, cluster, hash);
    assert art.name in CatalogueOn(t, cluster) && art.name !in CatalogueOn(s, cluster);
  }

  /** Retention run from any state of a publication leaves its directory alone when the work began after the cutoff. */
  lemma PublicationIsSpared(s: Disk, t: Disk, art: Artifact, since: int, cluster: string, cutoff: int,
                            hash: Bytes -> string)
    requires Working(s, t, art, Some(since), hash) && cutoff <= since && ClusterPrefix(cluster) <= art.name
    requires art.metadata.body.Json? && Unixtime(art.metadata.body.meta).Some?
             && Unixtime(art.metadata.body.meta).value >= cutoff
    ensures !Expired(t, cluster, cutoff, PartialOf(art.name))
    ensures After(s, t, art, hash) ==> !Expired(t, cluster, cutoff, art.name)
  {
    PartialIsNoEntry(cluster, art.name);
    PrefixesApart(cluster, art.name);
    hide ClusterPrefix;
  }

  /** At every point of a retention run the catalogue is between what it will leave and what it found. */
  lemma PruneIsMonotone(s: Disk, t: Disk, cluster: string, cutoff: int)
    requires PrunePasses(s, t, cluster, cutoff)
    ensures forall d | d in CatalogueOn(t, cluster) ::
              d in CatalogueOn(s, cluster) && CatalogueOn(t, cluster)[d] == CatalogueOn(s, cluster)[d]
    ensures forall d | d in Recent(CatalogueOn(s, cluster), cutoff) :: d in CatalogueOn(t, cluster)
  {
    forall d | d in CatalogueOn(t, cluster)
      ensures d in CatalogueOn(s, cluster) && CatalogueOn(t, cluster)[d] == CatalogueOn(s, cluster)[d]
    {
      assert PassesAt(s, t, cluster, cutoff, d);
    }
    forall d | d in Recent(CatalogueOn(s, cluster), cutoff) ensures d in CatalogueOn(t, cluster) {
      PrefixesApart(cluster, d);
      assert PassesAt(s, t, cluster, cutoff, d) && d in CatalogueOn(s, cluster);
      assert NodeIsEntry(s[d], cluster) && Readable(s[d]);
      assert Unixtime(NodeEntry(s[d]).meta).value >= cutoff;
      assert !Expired(s, cluster, cutoff, d) && SameChild(s, t, d);
    }
  }

  lemma PrefixesApart(cluster: string, d: string)
    ensures !(ClusterPrefix(cluster) <= d && PartialPrefix(cluster) <= d)
  {
    assert ClusterPrefix(cluster)[0] == 'g' && PartialPrefix(cluster)[0] == '.';
  }

  /** A retention run that returns normally takes exactly the entries older than the cutoff out of the catalogue. */
  lemma PrunedCatalogue(s: Disk, t: Disk, cluster: string, cutoff: int)
    requires IsPruned(s, t, cluster, cutoff)
    ensures CatalogueOn(t, cluster) == Recent(CatalogueOn(s, cluster), cutoff)
  {
    forall d: string
      ensures d in CatalogueOn(t, cluster) <==> d in Recent(CatalogueOn(s, cluster), cutoff)
      ensures d in CatalogueOn(t, cluster) ==> CatalogueOn(t, cluster)[d] == CatalogueOn(s, cluster)[d]
    {
      PrefixesApart(cluster, d);
      assert if Expired(s, cluster, cutoff, d) then d !in t else SameChild(s, t, d);
    }
  }

  /** The drill marker, the owner marker and every other plain file survive, and so does a finished directory without
      metadata. */
  lemma OthersKept(s: Disk, t: Disk, cluster: string, cutoff: int, k: string)
    requires PrunePasses(s, t, cluster, cutoff) && k in s
    requires s[k].Plain? || (METADATA !in s[k].files && !(PartialPrefix(cluster) <= k))
    ensures k in t && t[k] == s[k]
  {
    assert PassesAt(s, t, cluster, cutoff, k);
  }
}
