/** The encrypted container, said without its loops: `magic | salt | nonce | ciphertext | tag`, over an abstract
    authenticated cipher in counter mode (NIST SP 800-38D, sections 6.5, 7.1 and 7.2). */
module Container {
  import opened Errors

  type Bytes = seq<bv8>

  /** Key derivation, key stream byte by byte, and authentication tag of (key, nonce, additional data, ciphertext). */
  datatype Primitives = Primitives(kdf: (string, Bytes) -> Bytes, stream: (Bytes, Bytes, nat) -> bv8,
                                   mac: (Bytes, Bytes, Bytes, Bytes) -> Bytes)

  const MAGIC_V3: Bytes := [0x47, 0x42, 0x33, 0x47]
  const MAGIC_V2: Bytes := [0x47, 0x42, 0x32, 0x47]
  const SALT_LEN := 16
  const NONCE_LEN := 12
  const TAG_LEN := 16
  const HEADER_LEN := 4 + SALT_LEN + NONCE_LEN

  datatype Format = V1 | V2 | V3

  function Xor(a: bv8, b: bv8): bv8 { a ^ b }

  /** The transform of one stretch of data that starts at byte `pos` of the stream; it is its own inverse. */
  function Ctr(p: Primitives, key: Bytes, nonce: Bytes, pos: nat, data: Bytes): (r: Bytes)
    ensures |r| == |data|
    decreases |data|
  {
    if data == [] then [] else [Xor(data[0], p.stream(key, nonce, pos))] + Ctr(p, key, nonce, pos + 1, data[1..])
  }

  /** Two stretches one after the other are one stretch. */
  lemma {:induction false} CtrSplit(p: Primitives, key: Bytes, nonce: Bytes, pos: nat, a: Bytes, b: Bytes)
    ensures Ctr(p, key, nonce, pos, a + b) == Ctr(p, key, nonce, pos, a) + Ctr(p, key, nonce, pos + |a|, b)
    decreases |a|
  {
    if a == [] {
      assert a + b == b;
    } else {
      CtrSplit(p, key, nonce, pos + 1, a[1..], b);
      assert (a + b)[1..] == a[1..] + b;
    }
  }

  lemma XorTwice(a: bv8, b: bv8)
    ensures Xor(Xor(a, b), b) == a
  {
  }

  lemma {:induction false} CtrTwice(p: Primitives, key: Bytes, nonce: Bytes, pos: nat, data: Bytes)
    ensures Ctr(p, key, nonce, pos, Ctr(p, key, nonce, pos, data)) == data
    decreases |data|
  {
    hide Xor;
    if data != [] {
      var rest := Ctr(p, key, nonce, pos + 1, data[1..]);
      var first := Xor(data[0], p.stream(key, nonce, pos));
      CtrTwice(p, key, nonce, pos + 1, data[1..]);
      XorTwice(data[0], p.stream(key, nonce, pos));
      assert ([first] + rest)[1..] == rest;
      assert data == [data[0]] + data[1..];
    }
  }

  /** Byte `i` of the data meets byte `pos + i` of the key stream. */
  lemma {:induction false} CtrAt(p: Primitives, key: Bytes, nonce: Bytes, pos: nat, data: Bytes, i: nat)
    requires i < |data|
    ensures Ctr(p, key, nonce, pos, data)[i] == data[i] ^ p.stream(key, nonce, pos + i)
    decreases i
  {
    if i > 0 { CtrAt(p, key, nonce, pos + 1, data[1..], i - 1); }
  }

  lemma CtrBytes(p: Primitives, key: Bytes, nonce: Bytes, data: Bytes)
    ensures forall i | 0 <= i < |data| :: Ctr(p, key, nonce, 0, data)[i] == data[i] ^ p.stream(key, nonce, i)
  {
    forall i | 0 <= i < |data| ensures Ctr(p, key, nonce, 0, data)[i] == data[i] ^ p.stream(key, nonce, i) {
      CtrAt(p, key, nonce, 0, data, i);
    }
  }

  function Header(magic: Bytes, salt: Bytes, nonce: Bytes): Bytes { magic + salt + nonce }

  /** The container that encryption writes: the header is authenticated, not encrypted. */
  function Seal(p: Primitives, pass: string, salt: Bytes, nonce: Bytes, plain: Bytes): Bytes {
    var key := p.kdf(pass, salt);
    var header := Header(MAGIC_V3, salt, nonce);
    var ct := Ctr(p, key, nonce, 0, plain);
    header + ct + p.mac(key, nonce, header, ct)
  }

  /** The parts of a container of at least the minimal size, by offset. */
  function SaltOf(data: Bytes): Bytes requires |data| >= HEADER_LEN + TAG_LEN { data[4..4 + SALT_LEN] }
  function NonceOf(data: Bytes): Bytes requires |data| >= HEADER_LEN + TAG_LEN { data[4 + SALT_LEN..HEADER_LEN] }
  function TextOf(data: Bytes): Bytes requires |data| >= HEADER_LEN + TAG_LEN { data[HEADER_LEN..|data| - TAG_LEN] }
  function TagOf(data: Bytes): Bytes requires |data| >= HEADER_LEN + TAG_LEN { data[|data| - TAG_LEN..] }

  /** What is authenticated beside the ciphertext. */
  function AadOf(data: Bytes, format: Format): Bytes
    requires |data| >= HEADER_LEN + TAG_LEN
  {
    if format.V3? then data[..HEADER_LEN] else []
  }

  function FormatOf(data: Bytes): Format {
    if MAGIC_V3 <= data then V3 else if MAGIC_V2 <= data then V2 else V1
  }

  /** The tag check of decryption. */
  predicate TagVerifies(p: Primitives, pass: string, data: Bytes)
    requires |data| >= HEADER_LEN + TAG_LEN
  {
    p.mac(p.kdf(pass, SaltOf(data)), NonceOf(data), AadOf(data, FormatOf(data)), TextOf(data)) == TagOf(data)
  }

  /** What decryption makes of a file with one of the two GCM magics. */
  function Open(p: Primitives, pass: string, data: Bytes): Result<Bytes>
    requires !FormatOf(data).V1?
  {
    if |data| < HEADER_LEN + TAG_LEN || !TagVerifies(p, pass, data) then Err(Coded(E_INTEGRITY, 0))
    else Ok(Ctr(p, p.kdf(pass, SaltOf(data)), NonceOf(data), 0, TextOf(data)))
  }

  ghost predicate Sized(p: Primitives, salt: Bytes, nonce: Bytes) {
    |salt| == SALT_LEN && |nonce| == NONCE_LEN && forall k, n, a, c :: |p.mac(k, n, a, c)| == TAG_LEN
  }

  /** The offsets take a sealed container apart exactly where it was put together. */
  lemma SealedParts(p: Primitives, pass: string, salt: Bytes, nonce: Bytes, plain: Bytes)
    requires Sized(p, salt, nonce)
    ensures var data, key := Seal(p, pass, salt, nonce, plain), p.kdf(pass, salt);
      |data| == HEADER_LEN + |plain| + TAG_LEN && FormatOf(data) == V3
      && SaltOf(data) == salt && NonceOf(data) == nonce && AadOf(data, V3) == Header(MAGIC_V3, salt, nonce)
      && TextOf(data) == Ctr(p, key, nonce, 0, plain) && TagOf(data) == p.mac(key, nonce, AadOf(data, V3), TextOf(data))
      && data[..4] == MAGIC_V3
      && data == data[..4] + SaltOf(data) + NonceOf(data) + TextOf(data) + TagOf(data)
  {
    var key := p.kdf(pass, salt);
    var header := Header(MAGIC_V3, salt, nonce);
    var ct := Ctr(p, key, nonce, 0, plain);
    var tag := p.mac(key, nonce, header, ct);
    hide Ctr;
    var data := header + ct + tag;
    assert data[..HEADER_LEN] == header && data[HEADER_LEN..|data| - TAG_LEN] == ct && data[|data| - TAG_LEN..] == tag;
    assert header == MAGIC_V3 + (salt + nonce) && header[..4] == MAGIC_V3;
    assert data[..4] == data[..HEADER_LEN][..4];
    assert data[4..4 + SALT_LEN] == header[4..4 + SALT_LEN] == salt;
    assert data[4 + SALT_LEN..HEADER_LEN] == header[4 + SALT_LEN..] == nonce;
  }

  /** A sealed container byte by byte: "GB3G", the salt, the nonce, the plaintext combined with the key stream from its first
      byte on, and the tag over all of that. */
  lemma SealedBytes(p: Primitives, pass: string, salt: Bytes, nonce: Bytes, plain: Bytes)
    ensures var data, key, h := Seal(p, pass, salt, nonce, plain), p.kdf(pass, salt), 4 + |salt| + |nonce|;
      |data| >= h + |plain|
      && data[..h] == [0x47, 0x42, 0x33, 0x47] + salt + nonce
      && (forall i | 0 <= i < |plain| :: data[h + i] == plain[i] ^ p.stream(key, nonce, i))
      && data[h + |plain|..] == p.mac(key, nonce, data[..h], data[h..h + |plain|])
  {
    var key, header := p.kdf(pass, salt), [0x47, 0x42, 0x33, 0x47] + salt + nonce;
    var ct := Ctr(p, key, nonce, 0, plain);
    CtrBytes(p, key, nonce, plain);
    hide Ctr;
    var data := Seal(p, pass, salt, nonce, plain);
    assert data == header + ct + p.mac(key, nonce, header, ct);
    assert data[..|header|] == header && data[|header|..|header| + |plain|] == ct;
  }

  /** What is opened, byte by byte: a file of one of the two formats opens exactly if it has room for header and tag and its
      last 16 bytes are the tag, in "GB3G" over header and ciphertext, in "GB2G" over the ciphertext alone. */
  lemma OpenedBytes(p: Primitives, pass: string, data: Bytes)
    requires |data| >= 4 && (data[..4] == [0x47, 0x42, 0x33, 0x47] || data[..4] == [0x47, 0x42, 0x32, 0x47])
    ensures FormatOf(data) == if data[2] == 0x33 then V3 else V2
    ensures Open(p, pass, data).Ok?
            <==> |data| >= 48 && p.mac(p.kdf(pass, data[4..20]), data[20..32], if data[2] == 0x33 then data[..32] else [],
                                       data[32..|data| - 16]) == data[|data| - 16..]
    ensures Open(p, pass, data).Ok? ==>
              |Open(p, pass, data).value| == |data| - 48
              && forall i | 0 <= i < |data| - 48 ::
                   Open(p, pass, data).value[i] == data[32 + i] ^ p.stream(p.kdf(pass, data[4..20]), data[20..32], i)
    ensures Open(p, pass, data).Err? ==> Open(p, pass, data).failure == Coded(E_INTEGRITY, 0)
  {
    assert data[2] == data[..4][2];
    if MAGIC_V3 <= data { assert data[2] == 0x33; }
    if |data| >= 48 { CtrBytes(p, p.kdf(pass, data[4..20]), data[20..32], data[32..|data| - 16]); }
    hide Ctr;
  }

  /** Decryption undoes encryption. */
  lemma RoundTrip(p: Primitives, pass: string, salt: Bytes, nonce: Bytes, plain: Bytes)
    requires Sized(p, salt, nonce)
    ensures var data := Seal(p, pass, salt, nonce, plain);
      FormatOf(data) == V3 && Open(p, pass, data) == Ok(plain)
  {
    SealedParts(p, pass, salt, nonce, plain);
    CtrTwice(p, p.kdf(pass, salt), nonce, 0, plain);
    hide Seal, Ctr, FormatOf;
  }

  /** One encryption, in the present format or in the one before it: what was sealed, under which key material, with which
      salt and nonce. */
  datatype Sealing = Sealing(format: Format, pass: string, salt: Bytes, nonce: Bytes, plain: Bytes)

  /** What the tag of a sealing vouches for; before v3 the header was no part of it. */
  function Vouched(p: Primitives, s: Sealing): (Bytes, Bytes, Bytes, Bytes) {
    var key := p.kdf(s.pass, s.salt);
    (key, s.nonce, if s.format.V3? then Header(MAGIC_V3, s.salt, s.nonce) else [], Ctr(p, key, s.nonce, 0, s.plain))
  }

  ghost predicate AllSized(p: Primitives, sealed: set<Sealing>) {
    forall s | s in sealed :: Sized(p, s.salt, s.nonce) && !s.format.V1?
  }

  /** The ideal-cipher assumption about one file: its tag verifies only for something that was sealed. */
  ghost predicate NotForged(p: Primitives, pass: string, data: Bytes, sealed: set<Sealing>)
    requires |data| >= HEADER_LEN + TAG_LEN
  {
    TagVerifies(p, pass, data) ==>
      exists s :: s in sealed && Vouched(p, s)
        == (p.kdf(pass, SaltOf(data)), NonceOf(data), AadOf(data, FormatOf(data)), TextOf(data))
  }

  /** The file stands for this sealing: same format, key, nonce, ciphertext and plaintext. */
  ghost predicate StandsFor(p: Primitives, pass: string, data: Bytes, s: Sealing)
    requires |data| >= HEADER_LEN + TAG_LEN && !FormatOf(data).V1?
  {
    FormatOf(data) == s.format && p.kdf(pass, SaltOf(data)) == p.kdf(s.pass, s.salt) && NonceOf(data) == s.nonce
    && TextOf(data) == Ctr(p, p.kdf(s.pass, s.salt), s.nonce, 0, s.plain) && Open(p, pass, data) == Ok(s.plain)
  }

  /** Whatever is accepted stands for something that was sealed in its own format, and its plaintext is what was sealed; in
      v3 it is that container byte for byte. So a truncated file, a changed ciphertext or tag, another key, and in v3 a
      changed header are refused. */
  lemma AcceptedIsSealed(p: Primitives, pass: string, data: Bytes, sealed: set<Sealing>) returns (s: Sealing)
    requires !FormatOf(data).V1? && |data| >= HEADER_LEN + TAG_LEN && NotForged(p, pass, data, sealed)
    requires AllSized(p, sealed) && Open(p, pass, data).Ok?
    ensures s in sealed && StandsFor(p, pass, data, s)
    ensures s.format.V3? ==> data == Seal(p, s.pass, s.salt, s.nonce, s.plain) && SaltOf(data) == s.salt
  {
    s :| s in sealed && Vouched(p, s)
      == (p.kdf(pass, SaltOf(data)), NonceOf(data), AadOf(data, FormatOf(data)), TextOf(data));
    assert |Header(MAGIC_V3, s.salt, s.nonce)| == HEADER_LEN;
    assert FormatOf(data) == s.format by { assert |data[..HEADER_LEN]| == HEADER_LEN; }
    CtrTwice(p, p.kdf(s.pass, s.salt), s.nonce, 0, s.plain);
    if s.format.V3? { SameBytes(p, data, s); }
  }

  lemma SameBytes(p: Primitives, data: Bytes, s: Sealing)
    requires |data| >= HEADER_LEN + TAG_LEN && Sized(p, s.salt, s.nonce)
    requires data[..HEADER_LEN] == Header(MAGIC_V3, s.salt, s.nonce)
    requires var key := p.kdf(s.pass, s.salt);
      TextOf(data) == Ctr(p, key, s.nonce, 0, s.plain)
      && TagOf(data) == p.mac(key, s.nonce, data[..HEADER_LEN], TextOf(data))
    ensures SaltOf(data) == s.salt
    ensures data == Seal(p, s.pass, s.salt, s.nonce, s.plain)
  {
    var header := Header(MAGIC_V3, s.salt, s.nonce);
    assert SaltOf(data) == data[..HEADER_LEN][4..4 + SALT_LEN] == header[4..4 + SALT_LEN] == s.salt;
    hide Ctr;
    assert data == data[..HEADER_LEN] + TextOf(data) + TagOf(data);
  }

  /** A key that derives differently opens nothing: for the salt of a v3 sealing, which the tag covers, and for the salt in
      the file, which before v3 it did not. */
  lemma WrongKeyRefused(p: Primitives, pass: string, data: Bytes, sealed: set<Sealing>)
    requires !FormatOf(data).V1? && |data| >= HEADER_LEN + TAG_LEN && NotForged(p, pass, data, sealed)
    requires AllSized(p, sealed)
    requires forall s | s in sealed && s.format.V3? :: p.kdf(pass, s.salt) != p.kdf(s.pass, s.salt)
    requires forall s | s in sealed && s.format.V2? :: p.kdf(pass, SaltOf(data)) != p.kdf(s.pass, s.salt)
    ensures Open(p, pass, data) == Err(Coded(E_INTEGRITY, 0))
  {
    if Open(p, pass, data).Ok? { var s := AcceptedIsSealed(p, pass, data, sealed); }
  }

  lemma MagicsDiffer(data: Bytes)
    ensures MAGIC_V2 <= data ==> FormatOf(data) == V2
  {
    if MAGIC_V2 <= data { assert data[2] == MAGIC_V2[2]; }
  }

  /** A file under the magic of v2, which takes its header out of the authentication, is refused, whatever was sealed in v3,
      unless a v2 file was sealed with the same key and nonce. */
  lemma DowngradeRefused(p: Primitives, pass: string, data: Bytes, sealed: set<Sealing>)
    requires MAGIC_V2 <= data && |data| >= HEADER_LEN + TAG_LEN && NotForged(p, pass, data, sealed) && AllSized(p, sealed)
    requires forall s | s in sealed && s.format.V2? ::
               s.nonce != NonceOf(data) || p.kdf(s.pass, s.salt) != p.kdf(pass, SaltOf(data))
    ensures Open(p, pass, data) == Err(Coded(E_INTEGRITY, 0))
  {
    MagicsDiffer(data);
    if Open(p, pass, data).Ok? { var s := AcceptedIsSealed(p, pass, data, sealed); }
  }

  /** A v3 container under the magic of v2. */
  function Relabelled(p: Primitives, s: Sealing): Bytes { MAGIC_V2 + Seal(p, s.pass, s.salt, s.nonce, s.plain)[4..] }

  /** So relabelling a container is refused as long as its nonce was not used in v2 under its key. */
  lemma RelabelledRefused(p: Primitives, v3: Sealing, sealed: set<Sealing>)
    requires Sized(p, v3.salt, v3.nonce) && AllSized(p, sealed)
    requires |Relabelled(p, v3)| >= HEADER_LEN + TAG_LEN ==> NotForged(p, v3.pass, Relabelled(p, v3), sealed)
    requires forall s | s in sealed && s.format.V2? :: s.nonce != v3.nonce || p.kdf(s.pass, s.salt) != p.kdf(v3.pass, v3.salt)
    ensures FormatOf(Relabelled(p, v3)) == V2
    ensures Open(p, v3.pass, Relabelled(p, v3)) == Err(Coded(E_INTEGRITY, 0))
  {
    RelabelledParts(p, v3);
    MagicsDiffer(Relabelled(p, v3));
    hide Relabelled, Ctr;
    DowngradeRefused(p, v3.pass, Relabelled(p, v3), sealed);
  }

  lemma RelabelledParts(p: Primitives, s: Sealing)
    requires Sized(p, s.salt, s.nonce)
    ensures var data := Relabelled(p, s);
      |data| >= HEADER_LEN + TAG_LEN && MAGIC_V2 <= data && SaltOf(data) == s.salt && NonceOf(data) == s.nonce
  {
    var sealed, data := Seal(p, s.pass, s.salt, s.nonce, s.plain), Relabelled(p, s);
    SealedParts(p, s.pass, s.salt, s.nonce, s.plain);
    hide Seal;
    assert data[4..] == sealed[4..];
    assert SaltOf(data) == data[4..][..SALT_LEN] && SaltOf(sealed) == sealed[4..][..SALT_LEN];
    assert NonceOf(data) == data[4..][SALT_LEN..SALT_LEN + NONCE_LEN];
    assert NonceOf(sealed) == sealed[4..][SALT_LEN..SALT_LEN + NONCE_LEN];
  }
}
