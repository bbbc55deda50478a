/** `S3Backend.fetch_latest` as a step machine: a listing, the metadata of each complete directory, three downloads. */
module Fetcher {
  import opened Errors
  import opened Strings
  import opened Keys
  import opened Objects
  import Publisher

  type Call = Publisher.Call

  datatype Candidate = Candidate(dir: string, unixtime: int, meta: Meta)

  datatype Fetched = Fetched(dir: string, payload: Body, checksum: Body, metadata: Body)

  datatype Pc =
    | ListAll
    | Read(dirs: seq<string>, best: Option<Candidate>)
    | GetPayload(chosen: Candidate)
    | GetChecksum(chosen: Candidate, payload: Body)
    | GetMetadata(chosen: Candidate, payload: Body, checksum: Body)
    | Done(r: Result<Fetched>)

  datatype Fetch = Fetch(cluster: string, pc: Pc)

  function Start(cluster: string): Fetch { Fetch(cluster, ListAll) }

  predicate HasFile(keys: seq<string>, dir: string, file: string) {
    exists i | 0 <= i < |keys| :: !NoSlash(keys[i]) && Dir(keys[i]) == dir && Second(keys[i]) == file
  }

  predicate CompleteIn(keys: seq<string>, dir: string) {
    HasFile(keys, dir, PAYLOAD) && HasFile(keys, dir, CHECKSUM) && HasFile(keys, dir, METADATA)
  }

  /** The complete directories of a listing, in the order in which each is first seen. */
  function CompleteDirs(keys: seq<string>, n: nat): (r: seq<string>)
    requires n <= |keys|
  {
    if n == 0 then []
    else
      var before := CompleteDirs(keys, n - 1);
      var k := keys[n - 1];
      if !NoSlash(k) && Dir(k) !in before && CompleteIn(keys, Dir(k)) then before + [Dir(k)] else before
  }

  lemma {:induction false} CompleteDirsMembers(keys: seq<string>, n: nat)
    requires n <= |keys|
    ensures forall d :: d in CompleteDirs(keys, n)
              <==> CompleteIn(keys, d) && exists i | 0 <= i < n :: !NoSlash(keys[i]) && Dir(keys[i]) == d
  {
    hide CompleteIn, Dir;
    if n > 0 {
      CompleteDirsMembers(keys, n - 1);
    }
  }

  datatype Reading = Skip | Take(c: Candidate) | Broken

  /** What the metadata of one directory contributes. */
  function ReadMetadata(b: Bucket, cluster: string, dir: string): Reading {
    var k := MetadataKey(dir);
    if k !in b || !b[k].body.Json? then Broken
    else
      var m := b[k].body.meta;
      if !BelongsTo(m, cluster) then Skip
      else if Unixtime(m).None? then Broken
      else Take(Candidate(dir, Unixtime(m).value, m))
  }

  /** The first of the newest, as a stable descending sort leaves it in front. */
  function Better(best: Option<Candidate>, c: Candidate): Option<Candidate> {
    if best.None? || best.value.unixtime < c.unixtime then Some(c) else best
  }

  function Step(f: Fetch, b: Bucket, c: Call): Fetch {
    match f.pc
    case ListAll =>
      if !c.Returns() then f.(pc := Done(Err(Uncoded)))
      else var keys := Listing(b, ClusterPrefix(f.cluster)); f.(pc := Read(CompleteDirs(keys, |keys|), None))
    case Read(dirs, best) =>
      if dirs == [] then f.(pc := if best.None? then Done(Err(Coded(E_STORAGE, 0))) else GetPayload(best.value))
      else if !c.Returns() then f.(pc := Done(Err(Coded(E_STORAGE, 0))))
      else (match ReadMetadata(b, f.cluster, dirs[0])
        case Skip => f.(pc := Read(dirs[1..], best))
        case Take(x) => f.(pc := Read(dirs[1..], Better(best, x)))
        case Broken => f.(pc := Done(Err(Coded(E_STORAGE, 0)))))
    case GetPayload(x) =>
      var k := PayloadKey(x.dir);
      f.(pc := if c.Returns() && k in b then GetChecksum(x, b[k].body) else Done(Err(Uncoded)))
    case GetChecksum(x, payload) =>
      var k := ChecksumKey(x.dir);
      f.(pc := if c.Returns() && k in b then GetMetadata(x, payload, b[k].body) else Done(Err(Uncoded)))
    case GetMetadata(x, payload, checksum) =>
      var k := MetadataKey(x.dir);
      f.(pc := if c.Returns() && k in b then Done(Ok(Fetched(x.dir, payload, checksum, b[k].body))) else Done(Err(Uncoded)))
    case Done(_) => f
  }
}
