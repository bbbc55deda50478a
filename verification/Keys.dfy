/** Object keys: `dir/file` strings, taken apart at their first slash as the backends do. */
module Keys {
  import opened Strings

  const PAYLOAD := "backup.tar.enc"
  const CHECKSUM := "backup.sha256"
  const METADATA := "metadata.json"
  const OWNER_KEY := "galera-backup-owner.json"

  predicate NoSlash(s: string) { '/' !in s }

  function KeyOf(dir: string, file: string): string { dir + "/" + file }

  function PayloadKey(dir: string): string { KeyOf(dir, PAYLOAD) }
  function ChecksumKey(dir: string): string { KeyOf(dir, CHECKSUM) }
  function MetadataKey(dir: string): string { KeyOf(dir, METADATA) }
  function DrillKey(cluster: string): string { KeyOf("drill-state", cluster + ".json") }

  /** The listing prefix that covers every backup of one cluster. */
  function ClusterPrefix(cluster: string): string { "galera-" + cluster + "-" }

  /** `key.split("/")[0]` */
  function Dir(key: string): (d: string)
    ensures NoSlash(d) && d <= key
    ensures NoSlash(key) ==> d == key
    ensures !NoSlash(key) ==> |d| < |key| && key[|d|] == '/'
  {
    if key == "" || key[0] == '/' then "" else [key[0]] + Dir(key[1..])
  }

  /** `key.split("/")[1]`, for a key with a slash */
  function Second(key: string): string
    requires !NoSlash(key)
  {
    Dir(key[|Dir(key)| + 1..])
  }

  predicate Inside(key: string, dir: string) { dir + "/" <= key }

  lemma SplitUnique(key: string, d: string)
    requires NoSlash(d) && Inside(key, d)
    ensures !NoSlash(key) && Dir(key) == d
  {
    assert key[|d|] == (d + "/")[|d|] == '/';
    var e := Dir(key);
    if |e| != |d| {
      assert false;
    }
    assert e == key[..|e|] && d == (d + "/")[..|d|] == key[..|d|];
  }

  /** A slash-free directory owns exactly the keys whose first part it is. */
  lemma InsideIsDir(key: string, d: string)
    requires NoSlash(d)
    ensures Inside(key, d) <==> !NoSlash(key) && Dir(key) == d
  {
    if Inside(key, d) {
      SplitUnique(key, d);
    }
    if !NoSlash(key) && Dir(key) == d {
      assert key[..|d| + 1] == d + "/";
    }
  }

  /** Distinct slash-free directories share no key. */
  lemma DisjointDirs(key: string, d: string, e: string)
    requires NoSlash(d) && NoSlash(e) && Inside(key, d) && Inside(key, e)
    ensures d == e
  {
    SplitUnique(key, d);
    SplitUnique(key, e);
  }

  lemma KeyOfInside(d: string, file: string)
    ensures Inside(KeyOf(d, file), d)
  {
    assert KeyOf(d, file)[..|d| + 1] == d + "/";
  }

  lemma KeyOfInjective(d: string, f: string, g: string)
    requires KeyOf(d, f) == KeyOf(d, g)
    ensures f == g
  {
    assert f == KeyOf(d, f)[|d| + 1..] && g == KeyOf(d, g)[|d| + 1..];
  }

  /** The three names of a backup are three different keys of its directory. */
  lemma ThreeKeys(d: string)
    ensures Inside(PayloadKey(d), d) && Inside(ChecksumKey(d), d) && Inside(MetadataKey(d), d)
    ensures PayloadKey(d) != ChecksumKey(d) && PayloadKey(d) != MetadataKey(d) && ChecksumKey(d) != MetadataKey(d)
  {
    KeyOfInside(d, PAYLOAD);
    KeyOfInside(d, CHECKSUM);
    KeyOfInside(d, METADATA);
    assert PAYLOAD[7] != CHECKSUM[7] && PAYLOAD[0] != METADATA[0] && CHECKSUM[0] != METADATA[0];
    if PayloadKey(d) == ChecksumKey(d) { KeyOfInjective(d, PAYLOAD, CHECKSUM); }
    if PayloadKey(d) == MetadataKey(d) { KeyOfInjective(d, PAYLOAD, METADATA); }
    if ChecksumKey(d) == MetadataKey(d) { KeyOfInjective(d, CHECKSUM, METADATA); }
  }

  /** The keys of a backup, letter for letter. */
  lemma PlainKeys(d: string)
    ensures PayloadKey(d) == d + "/backup.tar.enc" && ChecksumKey(d) == d + "/backup.sha256"
    ensures MetadataKey(d) == d + "/metadata.json"
  {
    assert d + "/" + PAYLOAD == d + ("/" + PAYLOAD) && "/" + PAYLOAD == "/backup.tar.enc";
    assert d + "/" + CHECKSUM == d + ("/" + CHECKSUM) && "/" + CHECKSUM == "/backup.sha256";
    assert d + "/" + METADATA == d + ("/" + METADATA) && "/" + METADATA == "/metadata.json";
  }

  lemma KeyOfParts(d: string, file: string)
    requires NoSlash(d) && NoSlash(file)
    ensures !NoSlash(KeyOf(d, file)) && Dir(KeyOf(d, file)) == d && Second(KeyOf(d, file)) == file
  {
    KeyOfInside(d, file);
    SplitUnique(KeyOf(d, file), d);
    assert KeyOf(d, file)[|d| + 1..] == file;
  }

  lemma {:induction false} LeUnderPrefix(p: string, a: string, b: string)
    ensures Le(p + a, p + b) == Le(a, b)
  {
    if p == [] {
      assert p + a == a && p + b == b;
    } else {
      LeUnderPrefix(p[1..], a, b);
      assert (p + a)[1..] == p[1..] + a && (p + b)[1..] == p[1..] + b;
    }
  }

  lemma FileNamesPlain()
    ensures NoSlash(PAYLOAD) && NoSlash(CHECKSUM) && NoSlash(METADATA)
  {
  }

  /** In key order the metadata object is the last of the three. */
  lemma MetadataListedLast(d: string)
    ensures Le(ChecksumKey(d), PayloadKey(d)) && Le(PayloadKey(d), MetadataKey(d))
    ensures Le(ChecksumKey(d), MetadataKey(d))
  {
    assert Le(CHECKSUM, PAYLOAD) by {
      var p := "backup.";
      assert CHECKSUM == p + "sha256" && PAYLOAD == p + "tar.enc";
      LeUnderPrefix(p, "sha256", "tar.enc");
    }
    LeUnderPrefix(d + "/", CHECKSUM, PAYLOAD);
    LeUnderPrefix(d + "/", PAYLOAD, METADATA);
    LeUnderPrefix(d + "/", CHECKSUM, METADATA);
  }

  /** A directory with one key under the cluster prefix is itself under it, with all its keys. */
  lemma PrefixOfDir(cluster: string, d: string, k: string)
    requires NoSlash(cluster) && Inside(k, d)
    ensures ClusterPrefix(cluster) <= k <==> ClusterPrefix(cluster) <= d
  {
    var p := ClusterPrefix(cluster);
    assert NoSlash(p);
    assert k[..|d| + 1] == d + "/" && k[|d|] == '/' && k[..|d|] == d;
    if p <= k && |d| < |p| {
      assert false;
    }
  }

  /** Neither marker is a backup object, whatever the cluster is called: the owner marker has no slash (a cluster named
      "backup" does list it), the drill marker does not start with the cluster prefix. */
  lemma MarkersAreNotBackups(cluster: string)
    ensures NoSlash(OWNER_KEY)
    ensures forall c: string :: !(ClusterPrefix(cluster) <= DrillKey(c))
    ensures cluster == "backup" ==> ClusterPrefix(cluster) <= OWNER_KEY
  {
    forall c: string ensures !(ClusterPrefix(cluster) <= DrillKey(c)) {
      assert ClusterPrefix(cluster)[0] == 'g' && DrillKey(c)[0] == 'd';
    }
    assert "galera-backup-" <= OWNER_KEY;
  }

  /** And neither lies in the directory of a backup. */
  lemma MarkersOutside(cluster: string, d: string, other: string)
    requires NoSlash(d) && ClusterPrefix(cluster) <= d
    ensures !Inside(OWNER_KEY, d) && !Inside(DrillKey(other), d)
  {
    InsideIsDir(OWNER_KEY, d);
    MarkersAreNotBackups(cluster);
    var k := DrillKey(other);
    assert k[0] == 'd' && (d + "/")[0] == d[0] == ClusterPrefix(cluster)[0] == 'g';
    assert k[0] != (d + "/")[0];
  }
}
