/** The filesystem backend: publication through a `.partial-` directory and one rename, retention, fetch. Every state the
    disk goes through is recorded, so a statement about the record is a statement about a crash at any point. */
module Filesystem {
  import opened Errors
  import opened Strings
  import opened Keys
  import opened Objects

  datatype File = File(body: Body, mtime: int)

  /** A child of the cluster directory. */
  datatype Node = Plain(body: Body) | Tree(files: map<string, File>, mtime: int)

  type Disk = map<string, Node>

  /** How one system call ends. `Spoils` leaves a damaged file and raises, `Garbles` leaves one and returns normally (for
      the removal of a directory: returns and leaves the directory). */
  datatype Fault = Works | Fails | WorksThenFails | Spoils(data: Bytes) | Garbles(data: Bytes)

  /** `during` is what a copied file holds halfway. */
  datatype Call = Call(fault: Fault, now: int, during: Bytes) {
    predicate Takes() { !fault.Fails? }
    predicate Returns() { fault.Works? || fault.Garbles? }
    function Lands(body: Body): Body {
      if body.Blob? && fault.Garbles? then Blob(fault.data) else if fault.Spoils? then Blob(fault.data) else body
    }
  }

  datatype Artifact = Artifact(name: string, payload: File, checksum: File, metadata: File)

  datatype Published = Published(name: string, sha: string, size: int, unixtime: int)

  datatype Fetched = Fetched(name: string, payload: Body, checksum: Body, metadata: Body)

  function PartialOf(name: string): string { ".partial-" + name }

  function PartialPrefix(cluster: string): string { PartialOf(ClusterPrefix(cluster)) }

  // ---- the catalogue a disk stands for ----------------------------------------------------------------------------

  predicate IsComplete(n: Node) { n.Tree? && PAYLOAD in n.files && CHECKSUM in n.files && METADATA in n.files }

  predicate NodeIsEntry(n: Node, cluster: string) {
    IsComplete(n) && n.files[METADATA].body.Json? && BelongsTo(n.files[METADATA].body.meta, cluster)
    && Unixtime(n.files[METADATA].body.meta).Some?
  }

  function NodeEntry(n: Node): Entry
    requires IsComplete(n) && n.files[METADATA].body.Json?
  {
    Entry(n.files[PAYLOAD].body, n.files[METADATA].body.meta)
  }

  function CatalogueOn(s: Disk, cluster: string): Catalogue {
    map d | d in s && ClusterPrefix(cluster) <= d && NodeIsEntry(s[d], cluster) :: NodeEntry(s[d])
  }

  // ---- what a single call does ------------------------------------------------------------------------------------

  ghost predicate SameChild(s: Disk, t: Disk, k: string) {
    (k in s <==> k in t) && (k in s ==> s[k] == t[k])
  }

  /** Only the child `name` differs. */
  ghost predicate SameBut(s: Disk, t: Disk, name: string) {
    forall k | k != name :: SameChild(s, t, k)
  }

  /** A tree that has lost files. */
  predicate Eroded(n: Node, m: Node) {
    n.Tree? && m.Tree? && forall f | f in m.files :: f in n.files && n.files[f] == m.files[f]
  }

  /** A state on the way from `s` to `s` without `name`. */
  ghost predicate Removing(s: Disk, t: Disk, name: string) {
    SameBut(s, t, name) && (name in t ==> name in s && (s[name] == t[name] || Eroded(s[name], t[name])))
  }

  function Written(s: Disk, dir: string, file: string, body: Body, mtime: int, now: int): Disk
    requires dir in s && s[dir].Tree?
  {
    s[dir := Tree(s[dir].files[file := File(body, mtime)], now)]
  }

  class FileStore {
    const plan: nat -> Call
    var children: Disk
    var tick: nat
    ghost var seen: set<Disk>

    constructor (plan: nat -> Call, children: Disk)
      ensures this.plan == plan && this.children == children && tick == 0 && seen == {children}
    {
      this.plan, this.children, this.tick, this.seen := plan, children, 0, {children};
    }

    method NextCall() returns (c: Call)
      modifies this`tick
      ensures c == plan(old(tick)) && tick == old(tick) + 1
    {
      c := plan(tick);
      tick := tick + 1;
    }

    /** How many calls the removal of a tree takes if it succeeds. */
    function CallsToRemove(s: Disk, name: string): nat {
      if name in s && s[name].Tree? then |s[name].files| + 1 else 0
    }

    /** A removal that starts with call `t` succeeds: there is nothing, or a tree all of whose calls return, the last one
        with the directory gone. */
    predicate Clears(s: Disk, name: string, t: nat) {
      name !in s
      || (s[name].Tree? && (forall i | t <= i < t + |s[name].files| :: plan(i).Returns())
          && plan(t + |s[name].files|).fault.Works?)
    }

    method MakeDir(name: string) returns (ok: bool)
      modifies this
      ensures tick == old(tick) + 1 && ok == plan(old(tick)).Returns()
      ensures var c := plan(old(tick));
        children == if c.Takes() then old(children)[name := Tree(map[], c.now)] else old(children)
      ensures seen == old(seen) + {children}
    {
      var c := NextCall();
      ok := c.Returns();
      if c.Takes() { children := children[name := Tree(map[], c.now)]; }
      seen := seen + {children};
    }

    /** `shutil.copy2` into a directory: the file appears, grows, and ends as the fault says, with the source's mtime. */
    method CopyIn(dir: string, file: string, source: File) returns (ok: bool)
      requires dir in children && children[dir].Tree?
      modifies this
      ensures tick == old(tick) + 1 && ok == plan(old(tick)).Returns()
      ensures var c := plan(old(tick));
        if !c.Takes() then children == old(children) && seen == old(seen)
           else children == Written(old(children), dir, file, c.Lands(source.body), source.mtime, c.now)
                && seen == old(seen) + {Written(old(children), dir, file, Blob(c.during), c.now, c.now), children}
    {
      var c := NextCall();
      ok := c.Returns();
      if c.Takes() {
        seen := seen + {Written(children, dir, file, Blob(c.during), c.now, c.now)};
        children := Written(children, dir, file, c.Lands(source.body), source.mtime, c.now);
        seen := seen + {children};
      }
    }

    /** `os.replace` onto a free name. */
    method Rename(source: string, target: string) returns (ok: bool)
      requires source in children && target !in children && source != target
      modifies this
      ensures tick == old(tick) + 1 && ok == plan(old(tick)).Returns() && seen == old(seen) + {children}
      ensures children == if !plan(old(tick)).Takes() then old(children)
                          else old(children)[target := old(children)[source]] - {source}
    {
      var c := NextCall();
      ok := c.Returns();
      if c.Takes() { children := children[target := children[source]] - {source}; }
      seen := seen + {children};
    }

    /** One unlinked file of a directory that is being removed. */
    method Unlink(dir: string, file: string) returns (ok: bool)
      requires dir in children && children[dir].Tree? && file in children[dir].files
      modifies this
      ensures tick == old(tick) + 1 && seen == old(seen) + {children} && ok == plan(old(tick)).Returns()
      ensures Removing(old(children), children, dir)
      ensures dir in children && children[dir].Tree?
      ensures ok ==> children[dir].files == old(children)[dir].files - {file}
    {
      var c := NextCall();
      ok := c.Returns();
      if c.Takes() { children := children[dir := Tree(children[dir].files - {file}, c.now)]; }
      seen := seen + {children};
    }

    /** The files of a directory that is being removed, in whatever order the filesystem lists them. */
    method RemoveFiles(name: string) returns (ok: bool)
      requires children in seen && name in children && children[name].Tree?
      modifies this
      ensures old(tick) <= tick && old(seen) <= seen && children in seen
      ensures forall t | t in seen :: t in old(seen) || Removing(old(children), t, name)
      ensures Removing(old(children), children, name) && name in children && children[name].Tree?
      ensures ok <==> forall i | old(tick) <= i < old(tick) + |old(children)[name].files| :: plan(i).Returns()
      ensures !ok ==> old(tick) < tick && !plan(tick - 1).fault.Works?
      ensures ok ==> children[name].files == map[] && tick == old(tick) + |old(children)[name].files|
    {
      ghost var s, t0 := children, tick;
      RemovingNothing(s, name);
      hide SameBut, Eroded, Removing, Young;
      while children[name].files != map[]
        invariant old(tick) <= tick && old(seen) <= seen && children in seen
        invariant Removing(s, children, name) && name in children && children[name].Tree?
        invariant forall t | t in seen :: t in old(seen) || Removing(s, t, name)
        invariant tick + |children[name].files| == t0 + |s[name].files|
        invariant forall t | t0 <= t < tick :: plan(t).Returns()
        decreases |children[name].files|
      {
        var file :| file in children[name].files;
        ghost var before := children;
        OneFileLess(children[name].files, file);
        ok := Unlink(name, file);
        RemovingMore(s, before, children, name);
        if !ok { return; }
      }
      ok := true;
    }

    /** `remove_tree_or_raise`: the files, then the directory, then the check that it is gone. */
    method RemoveTree(name: string) returns (removed: bool)
      requires children in seen
      modifies this
      ensures old(tick) <= tick && old(seen) <= seen && children in seen
      ensures removed <==> Clears(old(children), name, old(tick))
      ensures removed ==> tick == old(tick) + CallsToRemove(old(children), name)
      ensures !removed ==> old(children)[name].Plain? || (old(tick) < tick && !plan(tick - 1).fault.Works?)
      ensures forall t | t in seen :: t in old(seen) || Removing(old(children), t, name)
      ensures Removing(old(children), children, name)
      ensures removed ==> children == old(children) - {name}
    {
      ghost var s := children;
      RemovingNothing(s, name);
      hide SameBut, Eroded, Removing, Young;
      if name !in children { return true; }
      if children[name].Plain? { return false; }
      removed := RemoveFiles(name);
      if !removed { return; }
      RemovedAll(s, children, name);
      var c := NextCall();
      if c.fault.Works? || c.fault.WorksThenFails? { children := children - {name}; }
      seen := seen + {children};
      removed := c.Returns() && name !in children;
    }
  }

  /** The directory's own time is at least `since`, if the directory is there. */
  ghost predicate Young(s: Disk, name: string, since: int) {
    name in s && s[name].Tree? ==> s[name].mtime >= since
  }

  lemma OneFileLess(files: map<string, File>, file: string)
    requires file in files
    ensures |files - {file}| + 1 == |files|
  {
    assert (files - {file}).Keys == files.Keys - {file};
    assert |(files - {file}).Keys| == |files - {file}| && |files.Keys| == |files|;
  }

  lemma RemovingNothing(s: Disk, name: string)
    ensures Removing(s, s, name) && (name !in s ==> s == s - {name})
  {
  }

  lemma RemovingMore(s: Disk, t: Disk, u: Disk, name: string)
    requires Removing(s, t, name) && Removing(t, u, name)
    ensures Removing(s, u, name)
  {
    forall k | k != name ensures SameChild(s, u, k) { assert SameChild(s, t, k) && SameChild(t, u, k); }
  }

  lemma RemovedAll(s: Disk, t: Disk, name: string)
    requires Removing(s, t, name)
    ensures t - {name} == s - {name} && Removing(s, t - {name}, name)
  {
    forall k | k != name ensures SameChild(s, t - {name}, k) && SameChild(t - {name}, s - {name}, k) {
      assert SameChild(s, t, k);
    }
    SameChildren(t - {name}, s - {name});
  }

  lemma SameChildren(s: Disk, t: Disk)
    requires forall k: string :: SameChild(s, t, k)
    ensures s == t
  {
    forall k: string ensures k in s <==> k in t { assert SameChild(s, t, k); }
    forall k | k in s ensures s[k] == t[k] { assert SameChild(s, t, k); }
  }
}
