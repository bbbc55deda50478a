/** The account-host filter: declared sources become MariaDB host patterns that admit exactly those sources. */
module AccountHosts {
  import opened Errors
  import opened Cidr

  /** A value of the `Host` column: one address, or base and netmask (IPv4 only). */
  datatype Pattern = Single(version: Version, addr: nat) | Masked(base: nat, mask: nat)

  /** How MariaDB compares a client address with a pattern. */
  predicate Matches(p: Pattern, v: Version, a: nat) {
    match p
    case Single(version, addr) => v == version && a == addr
    case Masked(base, mask) => v.V4? && And(a, mask) == base
  }

  function PatternOf(n: Net): Option<Pattern>
    requires n.bits <= Width(n.version)
  {
    if n.bits == 0 then Some(Single(n.version, n.base))
    else if n.version.V4? then Some(Masked(n.base, Netmask(32, n.bits)))
    else None
  }

  /** Accepted: an address or a network without host bits, and no IPv6 network wider than one address. */
  ghost predicate Acceptable(s: Entry) {
    s.Address? && s.addr % Pow2((if s.version.V4? then 32 else 128) - s.prefix) == 0 && (s.version.V4? || s.prefix == 128)
  }

  lemma AcceptableIff(s: Entry)
    ensures Acceptable(s) <==> NetOf(s, true).Some? && PatternOf(NetOf(s, true).value).Some?
  {
    NetOfIff(s, true);
    hide Pow2, NetOf, InEntry;
  }

  ghost predicate Covered(sources: seq<Entry>, v: Version, a: nat) {
    exists i | 0 <= i < |sources| :: InEntry(sources[i], v, a)
  }

  ghost predicate Admitted(hosts: seq<Pattern>, v: Version, a: nat) {
    exists i | 0 <= i < |hosts| :: Matches(hosts[i], v, a)
  }

  lemma PatternIsNet(n: Net, v: Version, a: nat)
    requires Aligned(n) && PatternOf(n).Some? && a < Pow2(Width(v))
    ensures Matches(PatternOf(n).value, v, a) <==> Inside(v, a, n)
  {
    if n.bits > 0 && v == n.version { MaskMatchesBlock(a, n); }
  }

  ghost predicate Distinct(hosts: seq<Pattern>) {
    forall i, j | 0 <= i < j < |hosts| :: hosts[i] != hosts[j]
  }

  /** `mariadb_account_hosts`: all or nothing, no pattern twice, and an address is admitted exactly when some declared
      source contains it. */
  method AccountHostPatterns(sources: seq<Entry>) returns (r: Option<seq<Pattern>>)
    ensures r.Some? <==> sources != [] && forall i | 0 <= i < |sources| :: Acceptable(sources[i])
    ensures r.Some? ==> Distinct(r.value) && forall v, a: nat | a < Pow2(Width(v)) ::
              Admitted(r.value, v, a) <==> Covered(sources, v, a)
  {
    if sources == [] { return None; }
    var hosts: seq<Pattern> := [];
    hide Pow2, Inside, Matches, NetOf, PatternOf, Netmask, Acceptable;
    for i := 0 to |sources|
      invariant Distinct(hosts)
      invariant forall k | 0 <= k < i :: Acceptable(sources[k]) && Built(sources[k]) in hosts
      invariant forall h | h in hosts :: exists k | 0 <= k < i :: Acceptable(sources[k]) && Built(sources[k]) == h
    {
      NetOfAligned(sources[i], true);
      AcceptableIff(sources[i]);
      var network := NetOf(sources[i], true);
      if network.None? { return None; }
      var host := PatternOf(network.value);
      if host.None? { return None; }
      ghost var before := hosts;
      if host.value !in hosts { hosts := hosts + [host.value]; }
      assert Built(sources[i]) == host.value;
      assert forall h | h in hosts :: h in before || h == host.value;
    }
    forall v, a: nat | a < Pow2(Width(v)) ensures Admitted(hosts, v, a) <==> Covered(sources, v, a) {
      AdmittedIffCovered(sources, hosts, v, a);
    }
    r := Some(hosts);
  }

  ghost function Built(s: Entry): Pattern
    requires Acceptable(s)
  {
    AcceptableIff(s);
    PatternOf(NetOf(s, true).value).value
  }

  lemma AdmittedIffCovered(sources: seq<Entry>, hosts: seq<Pattern>, v: Version, a: nat)
    requires forall k | 0 <= k < |sources| :: Acceptable(sources[k]) && Built(sources[k]) in hosts
    requires forall h | h in hosts :: exists k | 0 <= k < |sources| :: Acceptable(sources[k]) && Built(sources[k]) == h
    requires a < Pow2(Width(v))
    ensures Admitted(hosts, v, a) <==> Covered(sources, v, a)
  {
    hide Pow2, Inside, InEntry, Matches, NetOf, PatternOf, Acceptable;
    forall k | 0 <= k < |sources| ensures Matches(Built(sources[k]), v, a) <==> InEntry(sources[k], v, a) {
      AcceptableIff(sources[k]);
      NetOfAligned(sources[k], true);
      NetOfIff(sources[k], true);
      PatternIsNet(NetOf(sources[k], true).value, v, a);
    }
    if Admitted(hosts, v, a) {
      var i :| 0 <= i < |hosts| && Matches(hosts[i], v, a);
      assert hosts[i] in hosts;
      var k :| 0 <= k < |sources| && Acceptable(sources[k]) && Built(sources[k]) == hosts[i];
      assert InEntry(sources[k], v, a);
    }
    if Covered(sources, v, a) {
      var k :| 0 <= k < |sources| && InEntry(sources[k], v, a);
      var i :| 0 <= i < |hosts| && hosts[i] == Built(sources[k]);
      assert Matches(hosts[i], v, a);
    }
  }
}
