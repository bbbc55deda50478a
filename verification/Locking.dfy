/** Mutual exclusion by `flock` on one path. A lock belongs to an inode, so exclusion rests on the path keeping its inode;
    the lock file is therefore never unlinked. */
module Locking {
  import opened Errors

  /** One process on its way through acquire and release. `Leaked` is a release whose unlock raised: the process has
      forgotten the descriptor, the kernel has not. */
  datatype Proc =
    | Idle
    | Opened(inode: nat)
    | Locked(inode: nat)
    | Holding(inode: nat)
    | Leaked(inode: nat)
    | Dead

  /** The path names at most one inode; inodes are numbered as they are created. `holder` is the kernel's lock table. */
  datatype World = World(path: Option<nat>, created: nat, holder: map<nat, nat>, procs: seq<Proc>)

  datatype Step =
    | Open(p: nat) | Flock(p: nat, works: bool) | Stamp(p: nat, works: bool) | Release(p: nat, works: bool) | Crash(p: nat)

  function Start(n: nat): World { World(None, 0, map[], seq(n, _ => Idle)) }

  predicate HasFd(q: Proc) { q.Opened? || q.Locked? || q.Holding? || q.Leaked? }

  predicate HasLock(q: Proc) { q.Locked? || q.Holding? || q.Leaked? }

  predicate Enabled(w: World, s: Step) {
    s.p < |w.procs|
    && match s
       case Open(p) => w.procs[p].Idle?
       case Flock(p, _) => w.procs[p].Opened?
       case Stamp(p, _) => w.procs[p].Locked?
       case Release(p, _) => w.procs[p].Holding?
       case Crash(p) => !w.procs[p].Dead?
  }

  /** The kernel drops the lock of a closed descriptor. */
  function Dropped(w: World, p: nat, q: Proc): World
    requires p < |w.procs|
  {
    w.(procs := w.procs[p := q],
       holder := if HasLock(w.procs[p]) then w.holder - {w.procs[p].inode} else w.holder)
  }

  /** One kernel call of `LockManager.acquire` or `release`, or the end of a process. */
  function Next(w: World, s: Step): World
    requires Enabled(w, s)
  {
    match s
    case Open(p) =>
      if w.path.Some? then w.(procs := w.procs[p := Opened(w.path.value)])
      else w.(path := Some(w.created), created := w.created + 1, procs := w.procs[p := Opened(w.created)])
    case Flock(p, works) =>
      var i := w.procs[p].inode;
      if !works || i in w.holder then w.(procs := w.procs[p := Idle])
      else w.(holder := w.holder[i := p], procs := w.procs[p := Locked(i)])
    case Stamp(p, works) =>
      if works then w.(procs := w.procs[p := Holding(w.procs[p].inode)]) else Dropped(w, p, Idle)
    case Release(p, works) =>
      if works then Dropped(w, p, Idle) else w.(procs := w.procs[p := Leaked(w.procs[p].inode)])
    case Crash(p) => Dropped(w, p, Dead)
  }

  ghost predicate Moves(w: World, w': World) { exists s :: Enabled(w, s) && w' == Next(w, s) }

  ghost predicate Behaviour(ws: seq<World>, n: nat) {
    ws != [] && ws[0] == Start(n) && forall i | 0 < i < |ws| :: Moves(ws[i - 1], ws[i])
  }

  /** Every descriptor is on the inode of the path, and the lock table says who has the lock. */
  ghost predicate Safe(w: World) {
    (w.path.None? ==> w.holder == map[])
    && (forall p | 0 <= p < |w.procs| && HasFd(w.procs[p]) :: w.path == Some(w.procs[p].inode))
    && (forall p | 0 <= p < |w.procs| && HasLock(w.procs[p]) ::
          w.procs[p].inode in w.holder && w.holder[w.procs[p].inode] == p)
    && (forall i | i in w.holder :: w.path == Some(i) && w.holder[i] < |w.procs| && HasLock(w.procs[w.holder[i]]))
  }

  lemma SafeNext(w: World, s: Step)
    requires Safe(w) && Enabled(w, s)
    ensures Safe(Next(w, s))
    ensures w.path.Some? ==> Next(w, s).path == w.path
  {
  }

  ghost predicate Exclusive(w: World) {
    forall p, q | 0 <= p < |w.procs| && 0 <= q < |w.procs| && HasLock(w.procs[p]) && HasLock(w.procs[q]) :: p == q
  }

  lemma {:induction false} SafeAt(ws: seq<World>, n: nat, i: nat)
    requires Behaviour(ws, n) && i < |ws|
    ensures Safe(ws[i])
  {
    if i > 0 {
      SafeAt(ws, n, i - 1);
      assert Moves(ws[i - 1], ws[i]);
      var s :| Enabled(ws[i - 1], s) && ws[i] == Next(ws[i - 1], s);
      SafeNext(ws[i - 1], s);
    }
  }

  /** Once there, the lock file keeps its inode. */
  lemma {:induction false} PathKept(ws: seq<World>, n: nat, i: nat, j: nat)
    requires Behaviour(ws, n) && i <= j < |ws| && ws[i].path.Some?
    ensures ws[j].path == ws[i].path
    decreases j
  {
    if i < j {
      PathKept(ws, n, i, j - 1);
      SafeAt(ws, n, j - 1);
      assert Moves(ws[j - 1], ws[j]);
      var s :| Enabled(ws[j - 1], s) && ws[j] == Next(ws[j - 1], s);
      SafeNext(ws[j - 1], s);
    }
  }

  /** In every reachable state at most one process has the lock, whatever the interleaving, the failures and the
      crashes. */
  lemma MutualExclusion(ws: seq<World>, n: nat)
    requires Behaviour(ws, n)
    ensures forall i | 0 <= i < |ws| :: Exclusive(ws[i])
  {
    forall i | 0 <= i < |ws| ensures Exclusive(ws[i]) { SafeAt(ws, n, i); }
  }

  /** A lock that nobody has is free to be taken: after a crash or a release the next acquire succeeds. */
  lemma FreeLockIsTaken(w: World, p: nat)
    requires Safe(w) && p < |w.procs| && w.procs[p].Idle? && (forall q | 0 <= q < |w.procs| :: !HasLock(w.procs[q]))
    ensures var w1 := Next(w, Open(p));
      Enabled(w1, Flock(p, true)) && Enabled(Next(w1, Flock(p, true)), Stamp(p, true))
      && Next(Next(w1, Flock(p, true)), Stamp(p, true)).procs[p].Holding?
  {
    assert w.holder == map[];
  }

  /** A release that also unlinks the lock file. */
  function ReleaseAndUnlink(w: World, p: nat): World
    requires Enabled(w, Release(p, true))
  {
    Next(w, Release(p, true)).(path := None)
  }

  /** With it two processes can hold the lock at once: one waits with the old inode open, the other finds no file. */
  lemma UnlinkBreaksExclusion(w: World, p: nat, q: nat, r: nat)
    requires Safe(w) && p < |w.procs| && q < |w.procs| && r < |w.procs| && p != q && q != r && p != r
    requires w.procs[p].Holding? && w.procs[q].Opened? && w.procs[r].Idle? && w.path.value < w.created
    ensures var w1 := ReleaseAndUnlink(w, p);
      Enabled(w1, Flock(q, true)) && Enabled(Next(w1, Flock(q, true)), Open(r))
      && var w2 := Next(Next(w1, Flock(q, true)), Open(r));
      Enabled(w2, Flock(r, true)) && !Exclusive(Next(w2, Flock(r, true)))
  {
    var w1 := ReleaseAndUnlink(w, p);
    var w2 := Next(Next(w1, Flock(q, true)), Open(r));
    var w3 := Next(w2, Flock(r, true));
    assert w3.procs[q].Locked? && w3.procs[r].Locked?;
  }

  /** The state before it is reached in four steps. */
  lemma UnlinkScenarioIsReached()
    ensures Enabled(Start(3), Open(0))
    ensures var w1 := Next(Start(3), Open(0));
      Enabled(w1, Flock(0, true))
      && var w2 := Next(w1, Flock(0, true));
      Enabled(w2, Stamp(0, true))
      && var w3 := Next(w2, Stamp(0, true));
      Enabled(w3, Open(1))
      && var w := Next(w3, Open(1));
      Safe(w) && w.procs[0].Holding? && w.procs[1].Opened? && w.procs[2].Idle? && w.path == Some(0) && w.created == 1
  {
    var w1 := Next(Start(3), Open(0));
    assert w1.procs[0] == Opened(0) && w1.procs[1].Idle? && w1.procs[2].Idle?;
    var w2 := Next(w1, Flock(0, true));
    assert w2.procs[0] == Locked(0) && w2.procs[1].Idle? && w2.procs[2].Idle?;
    var w3 := Next(w2, Stamp(0, true));
    SafeNext(Start(3), Open(0));
    SafeNext(w1, Flock(0, true));
    SafeNext(w2, Stamp(0, true));
    SafeNext(w3, Open(1));
  }

  // ---- the program ------------------------------------------------------------------------------------------------

  /** The kernel as one process sees it: what the calls it makes will answer. */
  datatype Answers = Answers(open: bool, flock: bool, truncate: bool, write: bool, unlock: bool)

  /** `LockManager` of process `self`; its calls are the steps above. */
  class LockManager {
    const self: nat
    var fd: Option<nat>
    var world: World

    ghost predicate Valid()
      reads this
    {
      Safe(world) && self < |world.procs|
      && (fd.None? ==> world.procs[self].Idle? || world.procs[self].Leaked?)
      && (fd.Some? ==> world.procs[self] == Holding(fd.value))
    }

    constructor (self: nat, world: World)
      requires Safe(world) && self < |world.procs| && world.procs[self].Idle?
      ensures Valid() && fd.None? && this.world == world && this.self == self
    {
      this.self, this.fd, this.world := self, None, world;
    }

    /** `acquire` by a process that does not hold the lock. `inode` is what the open call returned. */
    method Acquire(a: Answers, inode: nat) returns (failure: Option<Failure>)
      requires Valid() && world.procs[self].Idle?
      requires inode == if world.path.Some? then world.path.value else world.created
      modifies this
      ensures Valid()
      ensures failure.None? ==> fd == Some(inode) && HasLock(world.procs[self]) && Exclusive(world)
      ensures failure.Some? ==> failure == Some(Coded(E_LOCKED, 0)) && fd.None? && world.procs[self].Idle?
      ensures failure.None? <==> a.open && a.flock && a.truncate && a.write && inode !in old(world).holder
      ensures forall p | 0 <= p < |old(world).procs| && p != self ::
                p < |world.procs| && world.procs[p] == old(world).procs[p]
    {
      if !a.open { return Some(Coded(E_LOCKED, 0)); }
      SafeNext(world, Open(self));
      world := Next(world, Open(self));
      SafeNext(world, Flock(self, a.flock));
      world := Next(world, Flock(self, a.flock));
      if world.procs[self].Idle? { return Some(Coded(E_LOCKED, 0)); }
      SafeNext(world, Stamp(self, a.truncate && a.write));
      world := Next(world, Stamp(self, a.truncate && a.write));
      if !(a.truncate && a.write) { return Some(Coded(E_LOCKED, 0)); }
      fd := Some(inode);
      failure := None;
    }

    /** `release`: never raises, and forgets the descriptor whatever the kernel says. */
    method Release(a: Answers)
      requires Valid()
      modifies this
      ensures Valid() && fd.None?
      ensures a.unlock && old(fd).Some? ==> world.procs[self].Idle? && old(fd).value !in world.holder
      ensures world.path == old(world).path
    {
      if fd.Some? {
        SafeNext(world, Step.Release(self, a.unlock));
        world := Next(world, Step.Release(self, a.unlock));
        fd := None;
      }
    }
  }
}
