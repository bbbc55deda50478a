/** The streaming encryption and decryption loops over real files: temporary file, chunks, tag, atomic replacement. */
module Crypto {
  import opened Errors
  import opened Container

  type Files = map<string, Bytes>

  /** Nothing but the temporary file differs. */
  ghost predicate OnlyTemp(f: Files, g: Files, temp: string) {
    forall k | k != temp :: (k in f <==> k in g) && (k in f ==> f[k] == g[k])
  }

  lemma OnlyTempSelf(f: Files, temp: string)
    ensures OnlyTemp(f, f, temp)
  {
  }

  lemma OnlyTempMore(f: Files, g: Files, h: Files, temp: string)
    requires OnlyTemp(f, g, temp) && OnlyTemp(g, h, temp)
    ensures OnlyTemp(f, h, temp)
  {
  }

  datatype DirCall = NoCall | Creation | Addition | Replacement | Removal(name: string)

  /** The directory with the output; call number `tick` works or raises as scheduled, and a write that raises has written
      as much as `part` says. */
  class Directory {
    const works: nat -> bool
    const part: nat -> nat
    var files: Files
    var tick: nat
    ghost var last: DirCall
    ghost var seen: set<Files>
    ghost var faulted: bool

    constructor (works: nat -> bool, part: nat -> nat, files: Files)
      ensures this.works == works && this.part == part && this.files == files && seen == {files} && !faulted
    {
      this.works, this.part, this.files, this.tick, this.seen, this.faulted := works, part, files, 0, {files}, false;
      this.last := NoCall;
    }

    /** The latest call was the removal of `name`, and it raised. */
    ghost predicate RemovalRaised(name: string)
      reads this
    {
      last == Removal(name) && tick > 0 && !works(tick - 1)
    }

    method Call(ghost op: DirCall) returns (ok: bool)
      modifies this`tick, this`faulted, this`last
      ensures ok == works(old(tick)) && tick == old(tick) + 1 && last == op
      ensures faulted == (old(faulted) || !ok)
    {
      ok := works(tick);
      tick := tick + 1;
      last := op;
      faulted := faulted || !ok;
    }

    /** Create an empty file. */
    method Create(name: string) returns (ok: bool)
      requires name !in files
      modifies this
      ensures ok == works(old(tick)) && tick == old(tick) + 1 && last == Creation && faulted == (old(faulted) || !ok)
      ensures files == (if ok then old(files)[name := []] else old(files)) && seen == old(seen) + {files}
    {
      ok := Call(Creation);
      if ok { files := files[name := []]; }
      seen := seen + {files};
    }

    method Append(name: string, data: Bytes) returns (ok: bool)
      requires name in files
      modifies this
      ensures ok == works(old(tick)) && tick == old(tick) + 1 && last == Addition && faulted == (old(faulted) || !ok)
      ensures OnlyTemp(old(files), files, name) && seen == old(seen) + {files} && name in files
      ensures ok ==> files[name] == old(files)[name] + data
    {
      ok := Call(Addition);
      var written := if ok || part(tick - 1) > |data| then |data| else part(tick - 1);
      assert data[..|data|] == data;
      files := files[name := files[name] + data[..written]];
      seen := seen + {files};
    }

    method Replace(source: string, target: string) returns (ok: bool)
      requires source in files
      modifies this
      ensures ok == works(old(tick)) && tick == old(tick) + 1 && last == Replacement && faulted == (old(faulted) || !ok)
      ensures files == if ok then old(files)[target := old(files)[source]] - {source} else old(files)
      ensures seen == old(seen) + {files}
    {
      ok := Call(Replacement);
      if ok { files := files[target := files[source]] - {source}; }
      seen := seen + {files};
    }

    method Unlink(name: string) returns (ok: bool)
      modifies this
      ensures ok == works(old(tick)) && tick == old(tick) + 1 && last == Removal(name) && faulted == (old(faulted) || !ok)
      ensures files == (if ok then old(files) - {name} else old(files)) && seen == old(seen) + {files}
    {
      ok := Call(Removal(name));
      if ok { files := files - {name}; }
      seen := seen + {files};
    }
  }

  /** An open input file. `at(t)` is what it holds when read number `t` is made: it may change under the reader. */
  class Source {
    const at: nat -> Bytes
    const works: nat -> bool
    const limit: nat
    var time: nat
    var pos: nat
    ghost var faulted: bool

    constructor (at: nat -> Bytes, works: nat -> bool, limit: nat)
      ensures this.at == at && this.works == works && this.limit == limit && pos == 0 && !faulted
    {
      this.at, this.works, this.limit, this.time, this.pos, this.faulted := at, works, limit, 0, 0, false;
    }

    ghost predicate Bounded() { forall t :: |at(t)| <= limit }

    ghost predicate Stable(data: Bytes) { forall t :: at(t) == data }

    method Seek(p: nat)
      modifies this`pos
      ensures pos == p
    {
      pos := p;
    }

    /** Up to `n` bytes from the current position; none at the end of the file. */
    method Read(n: nat) returns (ok: bool, chunk: Bytes)
      requires Bounded()
      modifies this`time, this`pos, this`faulted
      ensures faulted == (old(faulted) || !ok) && time == old(time) + 1
      ensures !ok ==> chunk == []
      ensures |chunk| <= n && pos == old(pos) + |chunk| && (chunk != [] ==> pos <= limit)
      ensures forall data | Stable(data) && ok && old(pos) <= |data| ::
                pos <= |data| && chunk == data[old(pos)..pos] && (|chunk| < n ==> pos == |data|)
    {
      var data := at(time);
      ok := works(time);
      faulted := faulted || !ok;
      time := time + 1;
      var start := if pos < |data| then pos else |data|;
      var end := if start + n < |data| then start + n else |data|;
      chunk := if ok then data[start..end] else [];
      pos := pos + |chunk|;
    }
  }

  /** `got` is how a file that does not change under the reader begins, and all of it if `done`. */
  ghost predicate Begins(source: Source, got: Bytes, done: bool) {
    forall data | source.Stable(data) :: got <= data && (done ==> got == data)
  }

  /** The incremental cipher: it remembers its place in the key stream and the ciphertext that has gone by. */
  class Gcm {
    const p: Primitives
    const key: Bytes
    const nonce: Bytes
    const aad: Bytes
    var text: Bytes

    constructor (p: Primitives, key: Bytes, nonce: Bytes, aad: Bytes)
      ensures this.p == p && this.key == key && this.nonce == nonce && this.aad == aad && text == []
    {
      this.p, this.key, this.nonce, this.aad, this.text := p, key, nonce, aad, [];
    }

    method Encrypt(chunk: Bytes) returns (out: Bytes)
      modifies this
      ensures out == Ctr(p, key, nonce, |old(text)|, chunk) && text == old(text) + out
    {
      out := Ctr(p, key, nonce, |text|, chunk);
      text := text + out;
    }

    method Decrypt(chunk: Bytes) returns (out: Bytes)
      modifies this
      ensures out == Ctr(p, key, nonce, |old(text)|, chunk) && text == old(text) + chunk
    {
      out := Ctr(p, key, nonce, |text|, chunk);
      text := text + chunk;
    }

    method Tag() returns (tag: Bytes)
      ensures tag == p.mac(key, nonce, aad, text)
    {
      tag := p.mac(key, nonce, aad, text);
    }
  }

  class Crypto {
    const p: Primitives
    const disk: Directory
    const chunk: nat

    constructor (p: Primitives, disk: Directory, chunk: nat)
      ensures this.p == p && this.disk == disk && this.chunk == chunk
    {
      this.p, this.disk, this.chunk := p, disk, chunk;
    }

    /** Since `seen0` only the temporary file has changed. */
    ghost predicate Confined(f0: Files, seen0: set<Files>, temp: string)
      reads disk
    {
      OnlyTemp(f0, disk.files, temp) && forall f | f in disk.seen :: f in seen0 || OnlyTemp(f0, f, temp)
    }

    /** The next stretch of a file read from its beginning. */
    method ReadNext(source: Source, ghost got: Bytes) returns (ok: bool, data: Bytes)
      requires chunk >= 1 && source.Bounded() && source.pos == |got| && Begins(source, got, false)
      modifies source
      ensures source.faulted == (old(source.faulted) || !ok)
      ensures source.pos == |got| + |data| && Begins(source, got + data, ok && data == [])
      ensures data != [] ==> source.pos <= source.limit
    {
      ok, data := source.Read(chunk);
      assert got + [] == got;
      forall file | source.Stable(file) ensures got + data <= file && (ok && data == [] ==> got + data == file) {
        assert got == file[..|got|];
        if ok {
          assert data == file[|got|..source.pos];
          assert file[..source.pos] == got + data;
          assert data == [] ==> source.pos == |file| && file[..|file|] == file;
        }
      }
    }

    method Write(temp: string, data: Bytes, ghost f0: Files, ghost seen0: set<Files>) returns (ok: bool)
      requires Confined(f0, seen0, temp) && temp in disk.files
      modifies disk
      ensures Confined(f0, seen0, temp) && disk.faulted == (old(disk.faulted) || !ok)
      ensures ok ==> temp in disk.files && disk.files[temp] == old(disk.files)[temp] + data
    {
      ghost var g := disk.files;
      ok := disk.Append(temp, data);
      OnlyTempMore(f0, g, disk.files, temp);
    }

    /** The chunk loop of encryption. `plain` is what was read, whatever the chunk size. */
    method EncryptInto(source: Source, temp: string, pass: string, salt: Bytes, nonce: Bytes, ghost f0: Files,
                       ghost seen0: set<Files>)
      returns (ok: bool, ghost plain: Bytes)
      requires chunk >= 1 && source.Bounded() && source.pos == 0 && !source.faulted && !disk.faulted
      requires temp in disk.files && disk.files[temp] == [] && Confined(f0, seen0, temp)
      modifies disk, source
      ensures Confined(f0, seen0, temp)
      ensures ok ==> temp in disk.files && disk.files[temp] == Seal(p, pass, salt, nonce, plain)
      ensures ok ==> Begins(source, plain, true)
      ensures ok <==> !disk.faulted && !source.faulted
    {
      plain := [];
      var header := Header(MAGIC_V3, salt, nonce);
      var gcm := new Gcm(p, p.kdf(pass, salt), nonce, header);
      ok := Write(temp, header, f0, seen0);
      if !ok { return; }
      assert [] + header == header && header + [] == header;
      hide Seal, Ctr, Header, OnlyTemp, Crypto.Confined;
      ok, plain := EncryptChunks(source, gcm, temp, header, f0, seen0);
      if !ok { return; }
      var tag := gcm.Tag();
      ok := Write(temp, tag, f0, seen0);
    }

    method EncryptChunks(source: Source, gcm: Gcm, temp: string, ghost header: Bytes, ghost f0: Files,
                         ghost seen0: set<Files>)
      returns (ok: bool, ghost plain: Bytes)
      requires chunk >= 1 && source.Bounded() && source.pos == 0 && !source.faulted && !disk.faulted
      requires temp in disk.files && disk.files[temp] == header && Confined(f0, seen0, temp) && gcm.text == []
      modifies disk, source, gcm
      ensures Confined(f0, seen0, temp)
      ensures ok ==> temp in disk.files && disk.files[temp] == header + gcm.text
      ensures ok ==> gcm.text == Ctr(gcm.p, gcm.key, gcm.nonce, 0, plain)
      ensures ok ==> Begins(source, plain, true)
      ensures ok <==> !disk.faulted && !source.faulted
    {
      assert header + [] == header;
      assert Ctr(gcm.p, gcm.key, gcm.nonce, 0, []) == [];
      assert Begins(source, [], false);
      hide Seal, Ctr, Header, OnlyTemp, Crypto.Confined, Begins;
      plain, ok := [], true;
      var more := true;
      while more
        invariant Confined(f0, seen0, temp) && !source.faulted && !disk.faulted && ok
        invariant temp in disk.files && disk.files[temp] == header + gcm.text
        invariant gcm.text == Ctr(gcm.p, gcm.key, gcm.nonce, 0, plain)
        invariant source.pos == |plain| && Begins(source, plain, !more)
        decreases source.limit - source.pos, more
      {
        ok, more, plain := EncryptNext(source, gcm, temp, header, plain, f0, seen0);
        if !ok { return; }
      }
    }

    /** One chunk, or the end of the file. */
    method EncryptNext(source: Source, gcm: Gcm, temp: string, ghost header: Bytes, ghost got: Bytes, ghost f0: Files,
                       ghost seen0: set<Files>)
      returns (ok: bool, more: bool, ghost plain: Bytes)
      requires chunk >= 1 && source.Bounded() && source.pos == |got| && !source.faulted && !disk.faulted
      requires temp in disk.files && disk.files[temp] == header + gcm.text && Confined(f0, seen0, temp)
      requires gcm.text == Ctr(gcm.p, gcm.key, gcm.nonce, 0, got) && Begins(source, got, false)
      modifies disk, source, gcm
      ensures Confined(f0, seen0, temp) && (ok <==> !disk.faulted && !source.faulted)
      ensures ok ==> temp in disk.files && disk.files[temp] == header + gcm.text
      ensures ok ==> gcm.text == Ctr(gcm.p, gcm.key, gcm.nonce, 0, plain)
      ensures ok ==> source.pos == |plain| && Begins(source, plain, !more)
      ensures ok && more ==> old(source.pos) < source.pos <= source.limit
      ensures ok && !more ==> source.pos == old(source.pos)
    {
      hide Ctr, OnlyTemp, Crypto.Confined, Begins;
      var data;
      ok, data := ReadNext(source, got);
      plain, more := got + data, data != [];
      if !ok { return; }
      CtrSplit(gcm.p, gcm.key, gcm.nonce, 0, got, data);
      assert got + [] == got;
      if more {
        var out := gcm.Encrypt(data);
        ok := Write(temp, out, f0, seen0);
      }
    }

    /** Creates the temporary file of `_atomic_target`. */
    method OpenTemp(temp: string) returns (ok: bool)
      requires temp !in disk.files
      modifies disk
      ensures Confined(old(disk.files), old(disk.seen), temp) && disk.faulted == (old(disk.faulted) || !ok)
      ensures !ok ==> disk.files == old(disk.files)
      ensures ok ==> temp in disk.files && disk.files[temp] == []
    {
      OnlyTempSelf(disk.files, temp);
      ok := disk.Create(temp);
    }

    /** A failure has left nothing, or the last thing that happened was that the removal of the temporary file raised: when
        no call on the directory raises, nothing is left. */
    ghost predicate NothingLeft(f0: Files, temp: string)
      reads disk
    {
      disk.files == f0 || (disk.RemovalRaised(temp) && disk.faulted && OnlyTemp(f0, disk.files, temp))
    }

    /** Its end: replace the target, or remove the temporary file. */
    method CloseTemp(temp: string, target: string, failed: bool, ghost f0: Files, ghost seen0: set<Files>)
      returns (ok: bool)
      requires temp != target && temp !in f0 && Confined(f0, seen0, temp) && (!failed ==> temp in disk.files)
      modifies disk
      ensures old(disk.faulted) ==> disk.faulted
      ensures ok ==> !failed && disk.faulted == old(disk.faulted) && disk.files == f0[target := old(disk.files)[temp]]
      ensures !ok ==> (failed || disk.faulted) && NothingLeft(f0, temp)
      ensures forall f | f in disk.seen :: f in seen0 || OnlyTemp(f0, f, temp) || (ok && f == disk.files)
    {
      TempGone(f0, disk.files, temp, target);
      ok := false;
      if !failed {
        ok := disk.Replace(temp, target);
        if ok { return; }
      }
      var removed := disk.Unlink(temp);
    }

    /** `encrypt_payload`: the target becomes the sealed container of what was read, in one step, or stays as it was. */
    method EncryptPayload(source: Source, target: string, temp: string, pass: string, salt: Bytes, nonce: Bytes)
      returns (ok: bool, ghost plain: Bytes)
      requires chunk >= 1 && source.Bounded() && source.pos == 0 && !source.faulted && !disk.faulted
      requires temp != target && temp !in disk.files
      modifies disk, source
      ensures ok ==> Begins(source, plain, true)
                     && disk.files == old(disk.files)[target := Seal(p, pass, salt, nonce, plain)]
      ensures ok ==> (forall data | source.Stable(data) :: plain == data)
                     && var out, key, h := disk.files[target], p.kdf(pass, salt), 4 + |salt| + |nonce|;
                        |out| >= h + |plain| && out[..h] == [0x47, 0x42, 0x33, 0x47] + salt + nonce
                        && (forall i | 0 <= i < |plain| :: out[h + i] == plain[i] ^ p.stream(key, nonce, i))
                        && out[h + |plain|..] == p.mac(key, nonce, out[..h], out[h..h + |plain|])
      ensures !ok ==> (disk.faulted || source.faulted) && NothingLeft(old(disk.files), temp)
      ensures forall f | f in disk.seen && f !in old(disk.seen) ::
                OnlyTemp(old(disk.files), f, temp) || (ok && f == disk.files)
    {
      BeginsWhole(source);
      hide Seal, OnlyTemp, Begins;
      ghost var f0, seen0 := disk.files, disk.seen;
      plain := [];
      ok := OpenTemp(temp);
      var written := ok;
      if ok { written, plain := EncryptInto(source, temp, pass, salt, nonce, f0, seen0); }
      if !ok { return; }
      ok := CloseTemp(temp, target, !written, f0, seen0);
      SealedBytes(p, pass, salt, nonce, plain);
    }

    // ---- decryption -----------------------------------------------------------------------------------------------

    /** Header and tag, by the size that `stat` reported; both must be there in full. */
    method ReadEnvelope(source: Source, size: nat, magic: Bytes) returns (r: Result<(Bytes, Bytes)>)
      requires source.Bounded() && source.pos == 0 && !source.faulted && |magic| == 4
      modifies source
      ensures r.Ok? ==> size >= HEADER_LEN + TAG_LEN && |r.value.0| == HEADER_LEN && |r.value.1| == TAG_LEN
                        && magic <= r.value.0 && source.pos == HEADER_LEN && !source.faulted
      ensures r.Ok? ==> EnvelopeOf(source, size, r.value.0, r.value.1)
      ensures r.Err? ==> source.faulted || r.failure == Coded(E_INTEGRITY, 0)
      ensures r.Err? && !source.faulted ==> forall data | source.Stable(data) && |data| == size ::
                |data| < HEADER_LEN + TAG_LEN || !(magic <= data)
    {
      if size < HEADER_LEN + TAG_LEN { return Err(Coded(E_INTEGRITY, 0)); }
      var header := ReadAt(source, 0, HEADER_LEN);
      if header.Err? { return Err(header.failure); }
      if header.value[..4] != magic {
        assert forall data | source.Stable(data) && |data| == size :: data[..HEADER_LEN][..4] == data[..4];
        return Err(Coded(E_INTEGRITY, 0));
      }
      var tag := ReadAt(source, size - TAG_LEN, TAG_LEN);
      if tag.Err? { return Err(tag.failure); }
      source.Seek(HEADER_LEN);
      r := Ok((header.value, tag.value));
    }

    /** Exactly `n` bytes from position `start`, or E_INTEGRITY. */
    method ReadAt(source: Source, start: nat, n: nat) returns (r: Result<Bytes>)
      requires source.Bounded() && !source.faulted
      modifies source
      ensures r.Ok? ==> !source.faulted && |r.value| == n
                        && forall data | source.Stable(data) && start <= |data| :: start + n <= |data|
                            && r.value == data[start..start + n]
      ensures r.Err? ==> source.faulted || r.failure == Coded(E_INTEGRITY, 0)
      ensures r.Err? && !source.faulted ==> forall data | source.Stable(data) :: |data| < start + n
    {
      source.Seek(start);
      var ok, bytes := source.Read(n);
      if !ok { return Err(Uncoded); }
      if |bytes| != n { return Err(Coded(E_INTEGRITY, 0)); }
      r := Ok(bytes);
    }

    /** The next stretch of the ciphertext. */
    method ReadText(source: Source, n: nat, size: nat, ghost text: Bytes) returns (ok: bool, data: Bytes)
      requires n >= 1 && source.Bounded() && source.pos == HEADER_LEN + |text|
      requires |text| + n + HEADER_LEN + TAG_LEN <= size && TextIs(source, size, text)
      modifies source
      ensures source.faulted == (old(source.faulted) || !ok)
      ensures |data| <= n && source.pos == HEADER_LEN + |text| + |data|
      ensures ok ==> TextIs(source, size, text + data)
      ensures ok && data == [] ==> forall file :: source.Stable(file) ==> |file| != size
    {
      ok, data := source.Read(n);
      forall file | ok && source.Stable(file) && |file| == size
        ensures |text + data| + HEADER_LEN + TAG_LEN <= size && text + data == file[HEADER_LEN..HEADER_LEN + |text + data|]
        ensures data != []
      {
        assert text == file[HEADER_LEN..HEADER_LEN + |text|];
        assert data == file[HEADER_LEN + |text|..source.pos];
      }
    }

    /** The chunk loop of decryption. */
    method DecryptChunks(source: Source, gcm: Gcm, count: nat, size: nat, temp: string, ghost f0: Files,
                         ghost seen0: set<Files>)
      returns (r: Option<Failure>)
      requires chunk >= 1 && source.Bounded() && source.pos == HEADER_LEN && !source.faulted && !disk.faulted
      requires size == HEADER_LEN + count + TAG_LEN
      requires temp in disk.files && disk.files[temp] == [] && Confined(f0, seen0, temp) && gcm.text == []
      modifies disk, source, gcm
      ensures Confined(f0, seen0, temp)
      ensures r.None? ==> temp in disk.files && |gcm.text| == count && !disk.faulted && !source.faulted
                          && disk.files[temp] == Ctr(gcm.p, gcm.key, gcm.nonce, 0, gcm.text)
      ensures r.None? ==> TextIs(source, size, gcm.text)
      ensures r.Some? ==> disk.faulted || source.faulted
                          || (r == Some(Coded(E_INTEGRITY, 0)) && forall data :: source.Stable(data) ==> |data| != size)
    {
      assert Ctr(gcm.p, gcm.key, gcm.nonce, 0, []) == [];
      assert TextIs(source, size, []);
      hide Ctr, OnlyTemp, Crypto.Confined, TextIs;
      var remaining := count;
      while remaining > 0
        invariant Confined(f0, seen0, temp) && !source.faulted && !disk.faulted && 0 <= remaining <= count
        invariant temp in disk.files && disk.files[temp] == Ctr(gcm.p, gcm.key, gcm.nonce, 0, gcm.text)
        invariant source.pos == HEADER_LEN + |gcm.text| && |gcm.text| == count - remaining
        invariant TextIs(source, size, gcm.text)
      {
        var ok, data := ReadText(source, if chunk < remaining then chunk else remaining, size, gcm.text);
        if !ok { return Some(Uncoded); }
        if data == [] { return Some(Coded(E_INTEGRITY, 0)); }
        remaining := remaining - |data|;
        CtrSplit(gcm.p, gcm.key, gcm.nonce, 0, gcm.text, data);
        var out := gcm.Decrypt(data);
        ok := Write(temp, out, f0, seen0);
        if !ok { return Some(Uncoded); }
      }
      r := None;
    }

    /** `_decrypt_gcm`. `got` is the container as it was read; the target changes only if its tag verifies. */
    method DecryptGcm(source: Source, size: nat, target: string, temp: string, pass: string, magic: Bytes, withHeader: bool)
      returns (r: Option<Failure>, ghost got: Bytes)
      requires chunk >= 1 && source.Bounded() && source.pos == 0 && !source.faulted && !disk.faulted && |magic| == 4
      requires temp != target && temp !in disk.files
      modifies disk, source
      ensures r.None? ==> |got| == size >= HEADER_LEN + TAG_LEN && magic <= got && Authentic(p, pass, got, withHeader)
                          && disk.files == old(disk.files)[target := PlainOf(p, pass, got)]
                          && forall data | source.Stable(data) && |data| == size :: got == data
      ensures r.Some? ==> NothingLeft(old(disk.files), temp)
      ensures r.Some? && !disk.faulted && !source.faulted ==> r == Some(Coded(E_INTEGRITY, 0))
      ensures r.Some? && !disk.faulted && !source.faulted ==> forall data | source.Stable(data) && |data| == size ::
                |data| < HEADER_LEN + TAG_LEN || !(magic <= data) || !Authentic(p, pass, data, withHeader)
      ensures forall f | f in disk.seen && f !in old(disk.seen) ::
                OnlyTemp(old(disk.files), f, temp) || (r.None? && f == disk.files)
    {
      ghost var f0, seen0 := disk.files, disk.seen;
      got := [];
      OnlyTempSelf(f0, temp);
      hide OnlyTemp, Authentic, PlainOf, EnvelopeOf, TextIs;
      var envelope := ReadEnvelope(source, size, magic);
      if envelope.Err? { return Some(envelope.failure), got; }
      var (header, tag) := envelope.value;
      var gcm := new Gcm(p, p.kdf(pass, header[4..4 + SALT_LEN]), header[4 + SALT_LEN..], if withHeader then header else []);
      var ok := OpenTemp(temp);
      if !ok { return Some(Uncoded), got; }
      r := DecryptChunks(source, gcm, size - HEADER_LEN - TAG_LEN, size, temp, f0, seen0);
      got := header + gcm.text + tag;
      if r.None? {
        Assembled(p, pass, header, gcm.text, tag, withHeader, magic);
        AssembledIs(source, size, header, gcm.text, tag);
        var computed := gcm.Tag();
        if computed != tag { r := Some(Coded(E_INTEGRITY, 0)); }
      }
      ok := CloseTemp(temp, target, r.Some?, f0, seen0);
      if r.None? && !ok { r := Some(Uncoded); }
    }

    /** A file with a known GCM magic: the reader for that format decides as `Open` does. */
    method DecryptKnown(source: Source, size: nat, target: string, temp: string, pass: string, format: Format)
      returns (r: Option<Failure>, ghost got: Bytes)
      requires chunk >= 1 && source.Bounded() && source.pos == 0 && !source.faulted && !disk.faulted && !format.V1?
      requires temp != target && temp !in disk.files
      modifies disk, source
      ensures r.Some? ==> NothingLeft(old(disk.files), temp)
      ensures r.None? ==> Opens(p, pass, got, size, format) && GotAll(source, size, got)
      ensures r.None? ==> disk.files == old(disk.files)[target := Open(p, pass, got).value]
      ensures !disk.faulted && !source.faulted ==> Answers(p, pass, source, size, format, r)
      ensures forall f | f in disk.seen && f !in old(disk.seen) ::
                OnlyTemp(old(disk.files), f, temp) || (r.None? && f == disk.files)
    {
      ReaderIsOpen(p, pass);
      var magic := if format.V3? then MAGIC_V3 else MAGIC_V2;
      FormatMeansMagic();
      hide OnlyTemp, Authentic, PlainOf, Open, FormatOf;
      r, got := DecryptGcm(source, size, target, temp, pass, magic, format.V3?);
    }

    /** `decrypt_payload`: the format by its magic, then the matching reader. `openssl` is what the external program wrote
        for the oldest format, and whether it succeeded. */
    method DecryptPayload(source: Source, size: nat, target: string, temp: string, pass: string, openssl: (bool, Bytes))
      returns (r: Result<Format>, ghost got: Bytes)
      requires chunk >= 1 && source.Bounded() && source.pos == 0 && !source.faulted && !disk.faulted
      requires temp != target && temp !in disk.files
      modifies disk, source
      ensures r.Err? ==> NothingLeft(old(disk.files), temp)
      ensures r.Ok? && !r.value.V1? ==> Opens(p, pass, got, size, r.value) && GotAll(source, size, got)
      ensures r.Ok? && !r.value.V1? ==> disk.files == old(disk.files)[target := Open(p, pass, got).value]
      ensures !disk.faulted && !source.faulted ==> AnswersByMagic(p, pass, source, size, r)
      ensures r.Ok? && !r.value.V1? ==>
                |got| == size >= 48
                && got[..4] == (if r.value.V3? then [0x47, 0x42, 0x33, 0x47] else [0x47, 0x42, 0x32, 0x47])
                && p.mac(p.kdf(pass, got[4..20]), got[20..32], if r.value.V3? then got[..32] else [], got[32..size - 16])
                   == got[size - 16..]
                && target in disk.files && |disk.files[target]| == size - 48
                && forall i | 0 <= i < size - 48 ::
                     disk.files[target][i] == got[32 + i] ^ p.stream(p.kdf(pass, got[4..20]), got[20..32], i)
      ensures r.Ok? && !r.value.V1? ==> forall data | source.Stable(data) && |data| == size :: got == data
      ensures !disk.faulted && !source.faulted ==> forall data | source.Stable(data) && |data| == size >= 4
                && (data[..4] == [0x47, 0x42, 0x33, 0x47] || data[..4] == [0x47, 0x42, 0x32, 0x47]) ::
                if size >= 48 && p.mac(p.kdf(pass, data[4..20]), data[20..32], if data[2] == 0x33 then data[..32] else [],
                                       data[32..size - 16]) == data[size - 16..]
                then r == Ok(if data[2] == 0x33 then V3 else V2) else r == Err(Coded(E_INTEGRITY, 0))
      ensures forall f | f in disk.seen && f !in old(disk.seen) ::
                OnlyTemp(old(disk.files), f, temp) || (r.Ok? && f == disk.files)
    {
      OnlyTempSelf(disk.files, temp);
      got := [];
      hide OnlyTemp, Open, FormatOf, Opens, GotAll, Answers, AnswersByMagic, Tells;
      var format := PeekFormat(source);
      if format.None? { return Err(Uncoded), got; }
      var failure;
      if format.value.V1? {
        failure := RunOpenssl(target, temp, openssl);
      } else {
        failure, got := DecryptKnown(source, size, target, temp, pass, format.value);
      }
      if !disk.faulted && !source.faulted { TellsAnswers(p, pass, source, size, format.value, failure); }
      r := if failure.Some? then Err(failure.value) else Ok(format.value);
      if r.Ok? && !r.value.V1? { OpenedMeans(p, pass, source, got, size, r.value); }
      if !disk.faulted && !source.faulted { AnswersMean(p, pass, source, size, r); }
    }

    /** Reads the magic, and starts over. */
    method PeekFormat(source: Source) returns (format: Option<Format>)
      requires source.Bounded() && source.pos == 0 && !source.faulted
      modifies source
      ensures source.pos == 0 && (source.faulted <==> format.None?)
      ensures format.Some? ==> Tells(source, format.value)
    {
      var ok, magic := source.Read(4);
      if !ok { return None; }
      format := Some(if magic == MAGIC_V3 then V3 else if magic == MAGIC_V2 then V2 else V1);
      forall data | source.Stable(data) ensures FormatOf(data) == format.value { FormatByMagic(data, magic); }
      source.Seek(0);
    }

    /** The oldest format: an external program writes the temporary file. */
    method RunOpenssl(target: string, temp: string, openssl: (bool, Bytes)) returns (r: Option<Failure>)
      requires !disk.faulted && temp != target && temp !in disk.files
      modifies disk
      ensures r.None? ==> disk.files == old(disk.files)[target := openssl.1] && openssl.0
      ensures r.Some? ==> r.value == Uncoded || (r.value == Coded(E_INTEGRITY, 0) && !openssl.0)
      ensures r.Some? ==> NothingLeft(old(disk.files), temp)
      ensures forall f | f in disk.seen && f !in old(disk.seen) ::
                OnlyTemp(old(disk.files), f, temp) || (r.None? && f == disk.files)
    {
      ghost var f0, seen0 := disk.files, disk.seen;
      var ok := OpenTemp(temp);
      if !ok { return Some(Uncoded); }
      hide OnlyTemp;
      ok := Write(temp, openssl.1, f0, seen0);
      if ok { assert [] + openssl.1 == openssl.1; }
      ok := CloseTemp(temp, target, !ok || !openssl.0, f0, seen0);
      r := if ok then None else Some(if openssl.0 then Uncoded else Coded(E_INTEGRITY, 0));
    }
  }

  /** What was read is a container of this format that opens. */
  ghost predicate Opens(p: Primitives, pass: string, got: Bytes, size: nat, format: Format) {
    |got| == size && FormatOf(got) == format && !format.V1? && Open(p, pass, got).Ok?
  }

  /** A file that did not change while it was read, and had the reported size, was read whole. */
  ghost predicate GotAll(source: Source, size: nat, got: Bytes) {
    forall data | source.Stable(data) && |data| == size :: got == data
  }

  /** For such a file of this format the answer is that of `Open`. */
  ghost predicate Answers(p: Primitives, pass: string, source: Source, size: nat, format: Format, r: Option<Failure>) {
    forall data | source.Stable(data) && |data| == size && FormatOf(data) == format && !format.V1? ::
      if Open(p, pass, data).Ok? then r.None? else r == Some(Coded(E_INTEGRITY, 0))
  }

  /** The same for a file of either GCM format. */
  ghost predicate AnswersByMagic(p: Primitives, pass: string, source: Source, size: nat, r: Result<Format>) {
    forall data | source.Stable(data) && |data| == size && !FormatOf(data).V1? ::
      if Open(p, pass, data).Ok? then r == Ok(FormatOf(data)) else r == Err(Coded(E_INTEGRITY, 0))
  }

  lemma BeginsWhole(source: Source)
    ensures forall plain, data | Begins(source, plain, true) && source.Stable(data) :: plain == data
  {
  }

  /** What it is for a file to open, byte by byte. */
  lemma OpenedMeans(p: Primitives, pass: string, source: Source, got: Bytes, size: nat, format: Format)
    requires Opens(p, pass, got, size, format) && GotAll(source, size, got)
    ensures |got| == size >= 48 && got[..4] == (if format.V3? then [0x47, 0x42, 0x33, 0x47] else [0x47, 0x42, 0x32, 0x47])
    ensures p.mac(p.kdf(pass, got[4..20]), got[20..32], if format.V3? then got[..32] else [], got[32..size - 16])
            == got[size - 16..]
    ensures |Open(p, pass, got).value| == size - 48 && forall i | 0 <= i < size - 48 ::
              Open(p, pass, got).value[i] == got[32 + i] ^ p.stream(p.kdf(pass, got[4..20]), got[20..32], i)
    ensures forall data | source.Stable(data) && |data| == size :: got == data
  {
    OpenedBytes(p, pass, got);
    hide Open;
  }

  lemma AnswersMean(p: Primitives, pass: string, source: Source, size: nat, r: Result<Format>)
    requires AnswersByMagic(p, pass, source, size, r)
    ensures forall data | source.Stable(data) && |data| == size >= 4
              && (data[..4] == [0x47, 0x42, 0x33, 0x47] || data[..4] == [0x47, 0x42, 0x32, 0x47]) ::
              if size >= 48 && p.mac(p.kdf(pass, data[4..20]), data[20..32], if data[2] == 0x33 then data[..32] else [],
                                     data[32..size - 16]) == data[size - 16..]
              then r == Ok(if data[2] == 0x33 then V3 else V2) else r == Err(Coded(E_INTEGRITY, 0))
  {
    forall data | source.Stable(data) && |data| == size >= 4
      && (data[..4] == [0x47, 0x42, 0x33, 0x47] || data[..4] == [0x47, 0x42, 0x32, 0x47])
      ensures if size >= 48 && p.mac(p.kdf(pass, data[4..20]), data[20..32], if data[2] == 0x33 then data[..32] else [],
                                     data[32..size - 16]) == data[size - 16..]
              then r == Ok(if data[2] == 0x33 then V3 else V2) else r == Err(Coded(E_INTEGRITY, 0))
    {
      OpenedBytes(p, pass, data);
    }
  }

  /** A file that does not change has this format. */
  ghost predicate Tells(source: Source, format: Format) {
    forall data | source.Stable(data) :: FormatOf(data) == format
  }

  lemma TellsAnswers(p: Primitives, pass: string, source: Source, size: nat, format: Format, r: Option<Failure>)
    requires Tells(source, format) && (!format.V1? ==> Answers(p, pass, source, size, format, r))
    ensures AnswersByMagic(p, pass, source, size, if r.Some? then Err(r.value) else Ok(format))
  {
    hide Open, FormatOf;
  }

  lemma FormatMeansMagic()
    ensures forall data: Bytes | FormatOf(data).V3? :: MAGIC_V3 <= data
    ensures forall data: Bytes | FormatOf(data).V2? :: MAGIC_V2 <= data
  {
  }

  lemma FormatByMagic(data: Bytes, magic: Bytes)
    requires |magic| <= 4 && magic <= data && (|magic| < 4 ==> magic == data)
    ensures magic == MAGIC_V3 <==> FormatOf(data).V3?
    ensures magic == MAGIC_V2 <==> FormatOf(data).V2?
  {
    if MAGIC_V3 <= data { assert magic == data[..4] == MAGIC_V3; }
    if MAGIC_V2 <= data { assert magic == data[..4] == MAGIC_V2; }
    assert MAGIC_V3[2] != MAGIC_V2[2];
  }

  /** The reader that is chosen by the magic decides and answers as `Open` does. */
  lemma ReaderIsOpen(p: Primitives, pass: string)
    ensures forall data: Bytes | |data| >= HEADER_LEN + TAG_LEN && MAGIC_V3 <= data :: FormatOf(data) == V3
              && Open(p, pass, data)
                 == if Authentic(p, pass, data, true) then Ok(PlainOf(p, pass, data)) else Err(Coded(E_INTEGRITY, 0))
    ensures forall data: Bytes | |data| >= HEADER_LEN + TAG_LEN && MAGIC_V2 <= data :: FormatOf(data) == V2
              && Open(p, pass, data)
                 == if Authentic(p, pass, data, false) then Ok(PlainOf(p, pass, data)) else Err(Coded(E_INTEGRITY, 0))
    ensures forall data: Bytes | |data| < HEADER_LEN + TAG_LEN && !FormatOf(data).V1? :: Open(p, pass, data).Err?
  {
    forall data: Bytes | MAGIC_V2 <= data ensures FormatOf(data) == V2 { MagicsDiffer(data); }
  }

  /** For a file that does not change and has the reported size, these are its header and its tag. */
  ghost predicate EnvelopeOf(source: Source, size: nat, header: Bytes, tag: Bytes) {
    forall data | source.Stable(data) && |data| == size ::
      |data| >= HEADER_LEN + TAG_LEN && header == data[..HEADER_LEN] && tag == data[size - TAG_LEN..]
  }

  /** And this is the beginning of its ciphertext. */
  ghost predicate TextIs(source: Source, size: nat, text: Bytes) {
    forall data | source.Stable(data) && |data| == size ::
      |text| + HEADER_LEN + TAG_LEN <= size && text == data[HEADER_LEN..HEADER_LEN + |text|]
  }

  /** The tag check, with or without the header as additional data. */
  predicate Authentic(p: Primitives, pass: string, data: Bytes, withHeader: bool)
    requires |data| >= HEADER_LEN + TAG_LEN
  {
    p.mac(p.kdf(pass, SaltOf(data)), NonceOf(data), if withHeader then data[..HEADER_LEN] else [], TextOf(data)) == TagOf(data)
  }

  function PlainOf(p: Primitives, pass: string, data: Bytes): Bytes
    requires |data| >= HEADER_LEN + TAG_LEN
  {
    Ctr(p, p.kdf(pass, SaltOf(data)), NonceOf(data), 0, TextOf(data))
  }

  lemma Assembled(p: Primitives, pass: string, header: Bytes, text: Bytes, tag: Bytes, withHeader: bool, magic: Bytes)
    requires |header| == HEADER_LEN && |tag| == TAG_LEN && |magic| == 4 && magic <= header
    ensures var got := header + text + tag; var key, nonce := p.kdf(pass, header[4..4 + SALT_LEN]), header[4 + SALT_LEN..];
      magic <= got && PlainOf(p, pass, got) == Ctr(p, key, nonce, 0, text)
      && (Authentic(p, pass, got, withHeader) <==> p.mac(key, nonce, if withHeader then header else [], text) == tag)
  {
    var got := header + text + tag;
    assert got[..HEADER_LEN] == header && got[..4] == header[..4];
    assert SaltOf(got) == header[4..4 + SALT_LEN] && NonceOf(got) == header[4 + SALT_LEN..];
    assert TextOf(got) == text && TagOf(got) == tag;
  }

  lemma AssembledIs(source: Source, size: nat, header: Bytes, text: Bytes, tag: Bytes)
    requires EnvelopeOf(source, size, header, tag) && TextIs(source, size, text)
    requires size == HEADER_LEN + |text| + TAG_LEN
    ensures forall data | source.Stable(data) && |data| == size :: data == header + text + tag
  {
    forall data | source.Stable(data) && |data| == size ensures data == header + text + tag {
      assert data == data[..HEADER_LEN] + data[HEADER_LEN..size - TAG_LEN] + data[size - TAG_LEN..];
    }
  }

  /** What is left when the temporary file is gone. */
  lemma TempGone(f0: Files, g: Files, temp: string, target: string)
    requires OnlyTemp(f0, g, temp) && temp !in f0 && temp != target
    ensures g - {temp} == f0
    ensures temp in g ==> g[target := g[temp]] - {temp} == f0[target := g[temp]]
    ensures OnlyTemp(f0, f0, temp)
  {
    var h := g - {temp};
    assert forall k :: k in h <==> k in f0;
    if temp in g {
      var u, v := g[target := g[temp]] - {temp}, f0[target := g[temp]];
      assert forall k :: k in u <==> k in v;
    }
  }
}
