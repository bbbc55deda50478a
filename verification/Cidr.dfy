/** Address blocks (prefix notation, section 3.1 of RFC 4632): account host patterns and the admin-isolation verdict. */
module Cidr {
  import opened Errors

  datatype Version = V4 | V6

  function Width(v: Version): nat { if v.V4? then 32 else 128 }

  function Pow2(k: nat): (r: nat)
    ensures r > 0
  {
    if k == 0 then 1 else 2 * Pow2(k - 1)
  }

  /** An entry of a declaration: text that is no address, or an address with a prefix length. */
  datatype Source = Malformed | Address(version: Version, addr: nat, prefix: nat)

  ghost predicate WellFormed(s: Source) {
    s.Address? ==> s.prefix <= Width(s.version) && s.addr < Pow2(Width(s.version))
  }

  type Entry = s: Source | WellFormed(s) ghost witness Malformed

  /** An address block: `2^bits` addresses from an aligned base. */
  datatype Net = Net(version: Version, base: nat, bits: nat)

  ghost predicate Aligned(n: Net) {
    n.bits <= Width(n.version) && n.base % Pow2(n.bits) == 0 && n.base < Pow2(Width(n.version))
  }

  function Size(n: Net): nat { Pow2(n.bits) }

  predicate Inside(v: Version, a: nat, n: Net) { v == n.version && n.base <= a < n.base + Size(n) }

  /** `ip_network(text, strict=...)`: host bits are an error, or are cleared. */
  function NetOf(s: Entry, strict: bool): Option<Net> {
    if s.Malformed? then None
    else
      var bits := Width(s.version) - s.prefix;
      var host := s.addr % Pow2(bits);
      if strict && host != 0 then None else Some(Net(s.version, s.addr - host, bits))
  }

  // ---- masks ------------------------------------------------------------------------------------------------------

  /** Bitwise and, bit by bit. */
  function And(a: nat, b: nat): nat {
    if a == 0 || b == 0 then 0 else 2 * And(a / 2, b / 2) + (a % 2) * (b % 2)
  }

  function Netmask(width: nat, bits: nat): nat
    requires bits <= width
  {
    Pow2Monotone(bits, width);
    Pow2(width) - Pow2(bits)
  }

  lemma {:induction false} Pow2Monotone(i: nat, j: nat)
    requires i <= j
    ensures Pow2(i) <= Pow2(j)
    decreases j
  {
    if i < j { Pow2Monotone(i, j - 1); }
  }

  lemma {:induction false} AndOnes(a: nat, width: nat)
    requires a < Pow2(width)
    ensures And(a, Pow2(width) - 1) == a
  {
    if width > 0 {
      AndOnes(a / 2, width - 1);
      assert (Pow2(width) - 1) / 2 == Pow2(width - 1) - 1 && (Pow2(width) - 1) % 2 == 1;
    }
  }

  lemma ModHalves(a: nat, m: nat)
    requires m > 0
    ensures a % (2 * m) == 2 * ((a / 2) % m) + a % 2
  {
    var q, r := (a / 2) / m, (a / 2) % m;
    assert a / 2 == m * q + r;
    assert a == 2 * m * q + (2 * r + a % 2);
    ModUnique(a, 2 * m, q, 2 * r + a % 2);
  }

  lemma ModUnique(a: int, m: int, q: int, r: int)
    requires m > 0 && a == m * q + r && 0 <= r < m
    ensures a % m == r && a / m == q
  {
    var d := a / m - q;
    assert m * (a / m) + a % m == a;
    assert m * d == r - a % m by { assert m * d == m * (a / m) - m * q; }
    MulOrder(m, d);
  }

  lemma MulOrder(m: int, d: int)
    requires m > 0
    ensures d >= 1 ==> m * d >= m
    ensures d <= -1 ==> m * d <= -m
  {
  }

  /** Masking an address gives the base of its block. */
  lemma {:induction false} AndNetmask(a: nat, width: nat, bits: nat)
    requires bits <= width && a < Pow2(width)
    ensures And(a, Netmask(width, bits)) == a - a % Pow2(bits)
    decreases width
  {
    if bits == 0 {
      AndOnes(a, width);
    } else {
      Pow2Monotone(bits - 1, width - 1);
      AndNetmask(a / 2, width - 1, bits - 1);
      ModHalves(a, Pow2(bits - 1));
      var m := Netmask(width, bits);
      assert m == 2 * Netmask(width - 1, bits - 1);
      assert m / 2 == Netmask(width - 1, bits - 1) && m % 2 == 0;
    }
  }

  /** An address lies in an aligned block exactly when its own base is the block's. */
  lemma InsideIffSameBase(v: Version, a: nat, n: Net)
    requires Aligned(n) && v == n.version
    ensures Inside(v, a, n) <==> a - a % Size(n) == n.base
  {
    BaseIff(Size(n), n.base, a);
  }

  lemma BaseIff(m: int, base: int, a: int)
    requires m > 0 && base % m == 0
    ensures base <= a < base + m <==> a - a % m == base
  {
    if base <= a < base + m {
      assert base == m * (base / m);
      ModUnique(a, m, base / m, a - base);
    }
  }

  /** The mask form of a block is the block. */
  lemma MaskMatchesBlock(a: nat, n: Net)
    requires Aligned(n) && a < Pow2(Width(n.version))
    ensures Inside(n.version, a, n) <==> And(a, Netmask(Width(n.version), n.bits)) == n.base
  {
    InsideIffSameBase(n.version, a, n);
    AndNetmask(a, Width(n.version), n.bits);
  }

  lemma NetOfAligned(s: Entry, strict: bool)
    ensures NetOf(s, strict).Some? ==> Aligned(NetOf(s, strict).value)
    ensures NetOf(s, strict).Some? ==> Inside(s.version, s.addr, NetOf(s, strict).value)
  {
    if s.Address? {
      var m := Pow2(Width(s.version) - s.prefix);
      ModUnique(s.addr - s.addr % m, m, s.addr / m, 0);
    }
  }

  /** The addresses an entry stands for: those that agree with it in the leading `prefix` bits. */
  ghost predicate InEntry(s: Entry, v: Version, a: nat) {
    s.Address? && v == s.version
    && var host := Pow2((if v.V4? then 32 else 128) - s.prefix); a / host == s.addr / host
  }

  /** The block of an entry: refused strictly where the address has host bits, otherwise its addresses. */
  lemma NetOfIff(s: Entry, strict: bool)
    ensures NetOf(s, strict).Some?
            <==> s.Address? && (strict ==> s.addr % Pow2((if s.version.V4? then 32 else 128) - s.prefix) == 0)
    ensures var net := NetOf(s, strict);
      net.Some? ==> net.value.version == s.version && net.value.bits == (if s.version.V4? then 32 else 128) - s.prefix
                    && forall v, a: nat :: Inside(v, a, net.value) <==> InEntry(s, v, a)
  {
    if NetOf(s, strict).Some? {
      var net, m := NetOf(s, strict).value, Pow2(Width(s.version) - s.prefix);
      forall v, a: nat ensures Inside(v, a, net) <==> InEntry(s, v, a) {
        if v == s.version { SameQuotient(m, s.addr, a); }
      }
    }
  }

  lemma SameQuotient(m: nat, addr: nat, a: nat)
    requires m > 0
    ensures addr - addr % m <= a < addr - addr % m + m <==> a / m == addr / m
  {
    var q, base := addr / m, addr - addr % m;
    assert base == m * q;
    if base <= a < base + m { ModUnique(a, m, q, a - base); }
    if a / m == q { assert a == m * q + a % m; }
  }

  // ---- nested or disjoint -----------------------------------------------------------------------------------------

  lemma {:induction false} Pow2Divides(i: nat, j: nat)
    requires i <= j
    ensures Pow2(j) % Pow2(i) == 0 && Pow2(j) == Pow2(i) * Pow2(j - i)
    decreases j
  {
    if i < j {
      Pow2Divides(i, j - 1);
      assert Pow2(j) == Pow2(i) * (2 * Pow2(j - 1 - i));
      ModUnique(Pow2(j), Pow2(i), 2 * Pow2(j - 1 - i), 0);
    } else {
      ModUnique(Pow2(j), Pow2(i), 1, 0);
    }
  }

  /** Of two multiples of `m`, the last one not above `x` is not below the other that is not above `x`. */
  lemma MultiplesOrder(m: int, q: int, r: int, x: int)
    requires m > 0 && m * q <= x < m * q + m
    ensures m * r <= x ==> m * r <= m * q
    ensures x < m * r ==> m * q + m <= m * r
  {
    MulOrder(m, r - q);
    assert m * (r - q) == m * r - m * q;
    if r == q + 1 { assert m * r == m * q + m; }
    if r > q + 1 { MulOrder(m, r - q - 1); assert m * (r - q - 1) == m * r - m * q - m; }
  }

  /** `subnet_of`: bases and last addresses compared. */
  predicate SubnetOf(a: Net, b: Net) {
    a.version == b.version && b.base <= a.base && a.base + Size(a) <= b.base + Size(b)
  }

  ghost predicate Disjoint(a: Net, b: Net) {
    forall v, x: nat :: !(Inside(v, x, a) && Inside(v, x, b))
  }

  /** A block of size `m` that meets a block of size `m * k` lies in it. */
  lemma SmallInLarge(m: int, k: int, small: int, large: int, x: int)
    requires m > 0 && k > 0 && small % m == 0 && large % (m * k) == 0
    requires small <= x < small + m && large <= x < large + m * k
    ensures large <= small && small + m <= large + m * k
  {
    var q, r := small / m, large / (m * k);
    assert small == m * q && large == m * k * r;
    assert large == m * (k * r) && large + m * k == m * (k * r + k);
    MultiplesOrder(m, q, k * r, x);
    MultiplesOrder(m, q, k * r + k, x);
  }

  /** Aligned blocks that share an address are nested. */
  lemma Nested(a: Net, b: Net, x: nat)
    requires Aligned(a) && Aligned(b) && a.bits <= b.bits && Inside(a.version, x, a) && Inside(b.version, x, b)
    requires a.version == b.version
    ensures SubnetOf(a, b)
  {
    Pow2Divides(a.bits, b.bits);
    SmallInLarge(Size(a), Pow2(b.bits - a.bits), a.base, b.base, x);
  }

  lemma NestedOrDisjoint(a: Net, b: Net)
    requires Aligned(a) && Aligned(b)
    ensures SubnetOf(a, b) || SubnetOf(b, a) || Disjoint(a, b)
  {
    if v, x: nat :| Inside(v, x, a) && Inside(v, x, b) {
      if a.bits <= b.bits { Nested(a, b, x); } else { Nested(b, a, x); }
    }
  }

  /** A block is a subnet of another exactly when all its addresses lie in it. */
  lemma SubnetIffContained(a: Net, b: Net)
    ensures SubnetOf(a, b) <==> a.version == b.version && forall x: nat | Inside(a.version, x, a) :: Inside(b.version, x, b)
  {
    if a.version == b.version && forall x: nat | Inside(a.version, x, a) :: Inside(b.version, x, b) {
      assert Inside(a.version, a.base, a);
      assert Inside(a.version, a.base + Size(a) - 1, a);
    }
  }
}
