/** Publishers, pruners and fetchers on one bucket, in every interleaving and under every fault. */
module S3World {
  import opened Errors
  import opened Strings
  import opened Keys
  import opened Objects
  import Publisher
  import PublishRun
  import Pruner
  import Fetcher

  datatype Proc = Publishing(pub: Publisher.Pub) | Pruning(prune: Pruner.Prune) | Fetching(fetch: Fetcher.Fetch)

  datatype World = World(bucket: Bucket, clock: int, procs: map<nat, Proc>)

  predicate Ready(x: Proc) {
    match x
    case Publishing(p) => Publisher.WellFormed(p)
    case Pruning(q) => Pruner.WellFormed(q)
    case Fetching(_) => true
  }

  /** Process `pid` makes one call. A crash is a process that is never scheduled again. */
  function Advance(w: World, pid: nat, c: Publisher.Call, hash: Bytes -> string): World
    requires pid in w.procs && Ready(w.procs[pid])
  {
    match w.procs[pid]
    case Publishing(p) => var (p', b) := Publisher.Step(p, w.bucket, c, hash);
      World(b, c.now, w.procs[pid := Publishing(p')])
    case Pruning(q) => var (q', b) := Pruner.Step(q, w.bucket, c);
      World(b, c.now, w.procs[pid := Pruning(q')])
    case Fetching(f) => World(w.bucket, c.now, w.procs[pid := Fetching(Fetcher.Step(f, w.bucket, c))])
  }

  ghost predicate Next(w: World, w': World, hash: Bytes -> string) {
    exists pid: nat, c: Publisher.Call ::
      pid in w.procs && Ready(w.procs[pid]) && w.clock <= c.now && w' == Advance(w, pid, c, hash)
  }

  predicate AtStart(x: Proc) {
    match x
    case Publishing(p) => p == Publisher.Start(p.art) && NoSlash(p.art.name)
    case Pruning(q) => q.pc.ListAll? && NoSlash(q.cluster)
    case Fetching(f) => f.pc.ListAll?
  }

  predicate Publishes(x: Proc, d: string) { x.Publishing? && x.pub.art.name == d }

  /** Backup names carry a time stamp and one lock holder: no two publishers share one. */
  ghost predicate DistinctNames(w: World) {
    forall i, j, d | i in w.procs && j in w.procs && Publishes(w.procs[i], d) && Publishes(w.procs[j], d) :: i == j
  }

  ghost predicate Behaviour(ws: seq<World>, hash: Bytes -> string) {
    |ws| > 0 && DistinctNames(ws[0]) && (forall i | i in ws[0].procs :: AtStart(ws[0].procs[i]))
    && (forall i | 0 <= i < |ws| - 1 :: Next(ws[i], ws[i + 1], hash))
  }

  // ---- 1. no torn backup is ever visible --------------------------------------------------------------------------

  ghost predicate Safe(w: World, hash: Bytes -> string) {
    Sound(w.bucket, hash) && DistinctNames(w)
    && forall i | i in w.procs :: Ready(w.procs[i])
         && (w.procs[i].Publishing? ==> Publisher.Safe(w.procs[i].pub, w.bucket, hash))
  }

  lemma PrunerShrinks(q: Pruner.Prune, b: Bucket, c: Publisher.Call)
    requires Pruner.WellFormed(q)
    ensures Pruner.WellFormed(Pruner.Step(q, b, c).0) && Shrinks(b, Pruner.Step(q, b, c).1)
    ensures Pruner.Step(q, b, c).0.cluster == q.cluster && Pruner.Step(q, b, c).0.cutoff == q.cutoff
  {
  }

  lemma Distinct(w: World, i: nat, j: nat)
    requires DistinctNames(w) && i in w.procs && j in w.procs && i != j
    requires w.procs[i].Publishing? && w.procs[j].Publishing?
    ensures w.procs[i].pub.art.name != w.procs[j].pub.art.name
  {
    var d := w.procs[i].pub.art.name;
    assert Publishes(w.procs[i], d);
    assert Publishes(w.procs[j], d) ==> i == j;
  }

  lemma NamesKept(w: World, pid: nat, c: Publisher.Call, hash: Bytes -> string)
    requires DistinctNames(w) && pid in w.procs && Ready(w.procs[pid])
    requires w.procs[pid].Publishing? ==> Publisher.OwnKeys(w.procs[pid].pub)
    ensures DistinctNames(Advance(w, pid, c, hash)) && Advance(w, pid, c, hash).procs.Keys == w.procs.Keys
    ensures forall d :: Publishes(Advance(w, pid, c, hash).procs[pid], d) == Publishes(w.procs[pid], d)
  {
    if w.procs[pid].Publishing? {
      Publisher.StepFrame(w.procs[pid].pub, w.bucket, c, hash);
    }
    hide Publisher.Step, Pruner.Step, Fetcher.Step, Inside;
    var w' := Advance(w, pid, c, hash);
    forall i, j, d | i in w'.procs && j in w'.procs && Publishes(w'.procs[i], d) && Publishes(w'.procs[j], d)
      ensures i == j
    {
      assert Publishes(w.procs[i], d) && Publishes(w.procs[j], d);
    }
  }

  lemma SafePublisherAdvance(w: World, pid: nat, c: Publisher.Call, hash: Bytes -> string)
    requires Safe(w, hash) && pid in w.procs && w.procs[pid].Publishing?
    ensures Safe(Advance(w, pid, c, hash), hash)
  {
    hide Publisher.Step, Inside, Sound;
    var p, w' := w.procs[pid].pub, Advance(w, pid, c, hash);
    Publisher.SafeStep(p, w.bucket, c, hash);
    Publisher.SoundStep(p, w.bucket, c, hash);
    Publisher.StepFrame(p, w.bucket, c, hash);
    NamesKept(w, pid, c, hash);
    forall i | i in w'.procs && w'.procs[i].Publishing? && i != pid
      ensures Publisher.Safe(w'.procs[i].pub, w'.bucket, hash)
    {
      Distinct(w, pid, i);
      OtherDir(p.art.name, w.procs[i].pub.art.name, w.bucket, w'.bucket);
      Publisher.SafeUnderRemovals(w.procs[i].pub, w.bucket, w'.bucket, hash);
    }
  }

  lemma SafeAdvance(w: World, pid: nat, c: Publisher.Call, hash: Bytes -> string)
    requires Safe(w, hash) && pid in w.procs
    ensures Safe(Advance(w, pid, c, hash), hash)
  {
    hide Publisher.Step, Pruner.Step, Fetcher.Step, Inside, Sound;
    var w' := Advance(w, pid, c, hash);
    match w.procs[pid] {
      case Publishing(p) => SafePublisherAdvance(w, pid, c, hash);
      case Pruning(q) =>
        NamesKept(w, pid, c, hash);
        PrunerShrinks(q, w.bucket, c);
        SoundShrinks(w.bucket, w'.bucket, hash);
        forall i | i in w'.procs && w'.procs[i].Publishing?
          ensures Publisher.Safe(w'.procs[i].pub, w'.bucket, hash)
        {
          Publisher.SafeUnderRemovals(w.procs[i].pub, w.bucket, w'.bucket, hash);
        }
      case Fetching(f) => NamesKept(w, pid, c, hash);
    }
  }

  /** A change confined to one directory leaves every other directory as it was. */
  lemma OtherDir(d: string, e: string, b: Bucket, b': Bucket)
    requires NoSlash(d) && NoSlash(e) && d != e && SameOutside(b, b', d)
    ensures SameInside(b, b', e)
  {
    forall k | Inside(k, e) ensures SameAt(b, b', k) {
      if Inside(k, d) { DisjointDirs(k, d, e); }
    }
  }

  /** Whatever the interleaving, the faults and the crashes: a directory that shows its commit marker and a payload shows
      the payload that the marker describes. */
  lemma NoTornBackup(ws: seq<World>, hash: Bytes -> string)
    requires Behaviour(ws, hash) && NothingTorn(ws[0].bucket, hash)
    ensures forall i | 0 <= i < |ws| :: NothingTorn(ws[i].bucket, hash)
  {
    SoundIff(ws[0].bucket, hash);
    SafeThroughout(ws, hash);
    hide Publisher.Step, Pruner.Step, Fetcher.Step, Inside, NothingTorn, Sound, Advance;
    forall i | 0 <= i < |ws| ensures NothingTorn(ws[i].bucket, hash) {
      assert Safe(ws[i], hash);
      SoundIff(ws[i].bucket, hash);
    }
  }

  lemma {:induction false} SafeThroughout(ws: seq<World>, hash: Bytes -> string)
    requires Behaviour(ws, hash) && Sound(ws[0].bucket, hash)
    ensures forall i | 0 <= i < |ws| :: Safe(ws[i], hash)
  {
    hide Publisher.Step, Pruner.Step, Fetcher.Step, Inside, Sound, Advance;
    if |ws| > 1 {
      var w, pid, c := LastStep(ws, hash);
      SafeThroughout(ws[..|ws| - 1], hash);
      assert ws[..|ws| - 1][|ws| - 2] == w;
      SafeAdvance(w, pid, c, hash);
    }
  }

  /** The last step of a behaviour, and the behaviour before it. */
  lemma LastStep(ws: seq<World>, hash: Bytes -> string) returns (w: World, pid: nat, c: Publisher.Call)
    requires Behaviour(ws, hash) && |ws| > 1
    ensures Behaviour(ws[..|ws| - 1], hash) && w == ws[|ws| - 2]
    ensures pid in w.procs && Ready(w.procs[pid]) && w.clock <= c.now && ws[|ws| - 1] == Advance(w, pid, c, hash)
  {
    hide Publisher.Step, Pruner.Step, Fetcher.Step, Inside;
    w := ws[|ws| - 2];
    assert Next(w, ws[|ws| - 2 + 1], hash);
    pid, c :| pid in w.procs && Ready(w.procs[pid]) && w.clock <= c.now && ws[|ws| - 1] == Advance(w, pid, c, hash);
    var before := ws[..|ws| - 1];
    forall i | 0 <= i < |before| - 1 ensures Next(before[i], before[i + 1], hash) {
      assert Next(ws[i], ws[i + 1], hash);
    }
  }
}
