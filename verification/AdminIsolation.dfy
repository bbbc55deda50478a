/** Whether the declarations tell the application networks from the administration networks at all. */
module AdminIsolation {
  import opened Errors
  import opened Cidr

  datatype Verdict = Expressible | Undeclared | Swallowed | Raised

  function Nets(entries: seq<Entry>): (r: Option<seq<Net>>)
    ensures r.Some? <==> forall i | 0 <= i < |entries| :: NetOf(entries[i], false).Some?
    ensures r.Some? ==> |r.value| == |entries|
                        && forall i | 0 <= i < |entries| :: NetOf(entries[i], false) == Some(r.value[i])
  {
    if entries == [] then Some([])
    else
      var first, rest := NetOf(entries[0], false), Nets(entries[1..]);
      if first.None? || rest.None? then None else Some([first.value] + rest.value)
  }

  /** Comparing networks of two IP versions raises. */
  predicate Mixed(app: seq<Net>, adm: seq<Net>) {
    exists i, j | 0 <= i < |app| && 0 <= j < |adm| :: app[i].version != adm[j].version
  }

  predicate SomeSwallowed(app: seq<Net>, adm: seq<Net>) {
    exists i, j | 0 <= i < |app| && 0 <= j < |adm| :: SubnetOf(app[i], adm[j])
  }

  /** `contract_is_expressible` */
  function ContractIsExpressible(application: seq<Entry>, administration: seq<Entry>): Verdict {
    if application == [] || administration == [] then Undeclared
    else
      var app, adm := Nets(application), Nets(administration);
      if app.None? || adm.None? || Mixed(app.value, adm.value) then Raised
      else if SomeSwallowed(app.value, adm.value) then Swallowed else Expressible
  }

  /** `host_is_administrative`; `address` is None when it does not parse, the result None when a declaration does not. */
  function HostIsAdministrative(address: Option<(Version, nat)>, administration: seq<Entry>): Option<bool> {
    if address.None? then Some(false)
    else if administration == [] then Some(false)
    else
      var net := NetOf(administration[0], false);
      if net.None? then None
      else if Inside(address.value.0, address.value.1, net.value) then Some(true)
      else HostIsAdministrative(address, administration[1..])
  }

  ghost predicate Administrative(adm: seq<Net>, v: Version, a: nat) {
    exists j | 0 <= j < |adm| :: Inside(v, a, adm[j])
  }

  /** Every address of the network may administer. */
  ghost predicate WhollyAdministrative(n: Net, adm: seq<Net>) {
    forall a: nat | Inside(n.version, a, n) :: Administrative(adm, n.version, a)
  }

  ghost predicate AllAligned(nets: seq<Net>) { forall i | 0 <= i < |nets| :: Aligned(nets[i]) }

  lemma NetsAligned(entries: seq<Entry>)
    requires Nets(entries).Some?
    ensures AllAligned(Nets(entries).value)
  {
    forall i | 0 <= i < |entries| ensures Aligned(Nets(entries).value[i]) { NetOfAligned(entries[i], false); }
  }

  /** Entry `i` has the address, and none before it is malformed. */
  ghost predicate FoundAt(administration: seq<Entry>, v: Version, a: nat, i: nat) {
    i < |administration| && InEntry(administration[i], v, a) && forall j | 0 <= j < i :: administration[j].Address?
  }

  /** Entry `i` is malformed, and none before it has the address. */
  ghost predicate StuckAt(administration: seq<Entry>, v: Version, a: nat, i: nat) {
    i < |administration| && administration[i].Malformed?
    && forall j | 0 <= j < i :: administration[j].Address? && !InEntry(administration[j], v, a)
  }

  lemma AtOneMore(administration: seq<Entry>, v: Version, a: nat, i: nat)
    requires administration != []
    ensures var first, rest := administration[0], administration[1..];
      (FoundAt(administration, v, a, 0) <==> InEntry(first, v, a)) && (StuckAt(administration, v, a, 0) <==> first.Malformed?)
      && (FoundAt(administration, v, a, i + 1) <==> first.Address? && FoundAt(rest, v, a, i))
      && (StuckAt(administration, v, a, i + 1) <==> first.Address? && !InEntry(first, v, a) && StuckAt(rest, v, a, i))
  {
    hide InEntry;
    var rest := administration[1..];
    assert forall j | 0 <= j < |rest| :: rest[j] == administration[j + 1];
    assert forall j | 0 < j < |administration| :: administration[j] == rest[j - 1];
    if FoundAt(administration, v, a, i + 1) { assert forall j | 0 <= j < i :: rest[j].Address?; }
    if StuckAt(administration, v, a, i + 1) {
      assert forall j | 0 <= j < i :: rest[j].Address? && !InEntry(rest[j], v, a);
    }
  }

  lemma SomeOneMore(administration: seq<Entry>, v: Version, a: nat)
    requires administration != []
    ensures var first, rest := administration[0], administration[1..];
      ((exists i: nat :: FoundAt(administration, v, a, i)) <==>
         InEntry(first, v, a) || (first.Address? && exists i: nat :: FoundAt(rest, v, a, i)))
      && ((exists i: nat :: StuckAt(administration, v, a, i)) <==>
            first.Malformed? || (!InEntry(first, v, a) && exists i: nat :: StuckAt(rest, v, a, i)))
  {
    var rest := administration[1..];
    AtOneMore(administration, v, a, 0);
    hide InEntry, FoundAt, StuckAt;
    if i: nat :| FoundAt(administration, v, a, i) { if i > 0 { AtOneMore(administration, v, a, i - 1); } }
    if i: nat :| FoundAt(rest, v, a, i) { AtOneMore(administration, v, a, i); }
    if i: nat :| StuckAt(administration, v, a, i) { if i > 0 { AtOneMore(administration, v, a, i - 1); } }
    if i: nat :| StuckAt(rest, v, a, i) { AtOneMore(administration, v, a, i); }
  }

  /** The host test, on the entries: the first of them that is malformed or has the address decides. */
  lemma {:induction false} HostIsAdministrativeIff(v: Version, a: nat, administration: seq<Entry>)
    ensures var r := HostIsAdministrative(Some((v, a)), administration);
      (r == Some(true) <==> exists i: nat :: FoundAt(administration, v, a, i))
      && (r == None <==> exists i: nat :: StuckAt(administration, v, a, i))
  {
    if administration != [] {
      NetOfIff(administration[0], false);
      SomeOneMore(administration, v, a);
      HostIsAdministrativeIff(v, a, administration[1..]);
      assert InEntry(administration[0], v, a) ==> administration[0].Address?;
      hide NetOf, Inside, InEntry, FoundAt, StuckAt;
    }
  }

  lemma HostIsInSomeNet(v: Version, a: nat, administration: seq<Entry>)
    requires Nets(administration).Some?
    ensures HostIsAdministrative(Some((v, a)), administration) == Some(Administrative(Nets(administration).value, v, a))
  {
    HostIsAdministrativeIff(v, a, administration);
    var adm := Nets(administration).value;
    forall i | 0 <= i < |adm|
      ensures administration[i].Address? && (Inside(v, a, adm[i]) <==> InEntry(administration[i], v, a))
    {
      NetOfIff(administration[i], false);
    }
    hide NetOf, Inside, InEntry, HostIsAdministrative, Nets;
  }

  ghost predicate Within(s: Entry, t: Entry) {
    s.Address? && t.Address? && s.version == t.version && forall a: nat | InEntry(s, s.version, a) :: InEntry(t, t.version, a)
  }

  /** The verdict, on the entries: nothing declared, a malformed entry or two IP versions, one application entry within one
      administration entry. */
  lemma VerdictMeans(application: seq<Entry>, administration: seq<Entry>)
    ensures var declared := application != [] && administration != [];
      var readable := (forall i | 0 <= i < |application| :: application[i].Address?)
                      && forall j | 0 <= j < |administration| :: administration[j].Address?;
      var mixed := readable && exists i, j | 0 <= i < |application| && 0 <= j < |administration| ::
                                 application[i].version != administration[j].version;
      var swallowed := exists i, j | 0 <= i < |application| && 0 <= j < |administration| ::
                         Within(application[i], administration[j]);
      ContractIsExpressible(application, administration)
      == if !declared then Undeclared else if !readable || mixed then Raised
         else if swallowed then Swallowed else Expressible
  {
    forall i | 0 <= i < |application| ensures NetOf(application[i], false).Some? <==> application[i].Address? {
      NetOfIff(application[i], false);
    }
    forall i | 0 <= i < |administration| ensures NetOf(administration[i], false).Some? <==> administration[i].Address? {
      NetOfIff(administration[i], false);
    }
    hide NetOf, Within, SubnetOf;
    if Nets(application).Some? && Nets(administration).Some? {
      var app, adm := Nets(application).value, Nets(administration).value;
      forall i, j | 0 <= i < |app| && 0 <= j < |adm|
        ensures app[i].version == application[i].version && adm[j].version == administration[j].version
        ensures SubnetOf(app[i], adm[j]) <==> Within(application[i], administration[j])
      {
        NetWithin(application[i], administration[j], app[i], adm[j]);
      }
      hide Nets;
    }
  }

  lemma NetWithin(s: Entry, t: Entry, n: Net, m: Net)
    requires NetOf(s, false) == Some(n) && NetOf(t, false) == Some(m)
    ensures n.version == s.version && m.version == t.version && (SubnetOf(n, m) <==> Within(s, t))
  {
    NetOfIff(s, false);
    NetOfIff(t, false);
    SubnetIffContained(n, m);
    hide NetOf, SubnetOf, Inside, InEntry;
  }

  /** The verdict "not expressible" is never wrong: with both lists declared it means that some application network is
      wholly administrative, so no probe from it could show isolation. */
  lemma SwallowedIsWhollyAdministrative(application: seq<Entry>, administration: seq<Entry>) returns (i: nat)
    requires ContractIsExpressible(application, administration) == Swallowed
    ensures i < |application| && NetOf(application[i], false).Some?
    ensures WhollyAdministrative(NetOf(application[i], false).value, Nets(administration).value)
    ensures forall a: nat | Inside(NetOf(application[i], false).value.version, a, NetOf(application[i], false).value) ::
              HostIsAdministrative(Some((NetOf(application[i], false).value.version, a)), administration) == Some(true)
  {
    var app, adm := Nets(application).value, Nets(administration).value;
    var k, j :| 0 <= k < |app| && 0 <= j < |adm| && SubnetOf(app[k], adm[j]);
    i := k;
    SubnetIffContained(app[i], adm[j]);
    hide NetOf, SubnetOf;
    forall a: nat | Inside(app[i].version, a, app[i])
      ensures Administrative(adm, app[i].version, a)
      ensures HostIsAdministrative(Some((app[i].version, a)), administration) == Some(true)
    {
      assert Inside(adm[j].version, a, adm[j]);
      HostIsInSomeNet(app[i].version, a, administration);
    }
  }

  /** Administration networks that are proper parts of `n`. */
  ghost predicate PatchedAt(n: Net, adm: seq<Net>, a: nat) {
    exists j | 0 <= j < |adm| :: Inside(n.version, a, adm[j]) && SubnetOf(adm[j], n) && adm[j] != n
  }

  ghost predicate Patched(n: Net, adm: seq<Net>) { forall a: nat | Inside(n.version, a, n) :: PatchedAt(n, adm, a) }

  predicate SwallowedBy(n: Net, adm: seq<Net>) { exists j | 0 <= j < |adm| :: SubnetOf(n, adm[j]) }

  /** A network is wholly administrative in exactly two ways: one administration network contains it, which the verdict
      sees, or several smaller ones cover it piece by piece, which it does not. */
  lemma WhollyAdministrativeIff(n: Net, adm: seq<Net>)
    requires Aligned(n) && AllAligned(adm)
    ensures WhollyAdministrative(n, adm) <==> SwallowedBy(n, adm) || Patched(n, adm)
  {
    if SwallowedBy(n, adm) {
      var j :| 0 <= j < |adm| && SubnetOf(n, adm[j]);
      SubnetIffContained(n, adm[j]);
    }
    if WhollyAdministrative(n, adm) && !SwallowedBy(n, adm) {
      hide Aligned, Inside, SubnetOf;
      forall a: nat | Inside(n.version, a, n) ensures PatchedAt(n, adm, a) {
        assert Administrative(adm, n.version, a);
        var j :| 0 <= j < |adm| && Inside(n.version, a, adm[j]);
        assert Aligned(adm[j]);
        NestedOrDisjoint(n, adm[j]);
        SubnetOfItself(n);
      }
    }
  }

  lemma SubnetOfItself(n: Net)
    ensures SubnetOf(n, n)
  {
  }

  // ---- when the verdict is right ----------------------------------------------------------------------------------

  function Lower(n: Net): Net
    requires n.bits > 0
  {
    n.(bits := n.bits - 1)
  }

  function Upper(n: Net): Net
    requires n.bits > 0
  {
    Net(n.version, n.base + Pow2(n.bits - 1), n.bits - 1)
  }

  /** One administration network contains `n`, or the two halves of `n` are covered each in its own way. */
  predicate CoveredByParts(n: Net, adm: seq<Net>)
    decreases n.bits
  {
    SwallowedBy(n, adm) || (n.bits > 0 && CoveredByParts(Lower(n), adm) && CoveredByParts(Upper(n), adm))
  }

  lemma Halves(n: Net)
    requires Aligned(n) && n.bits > 0
    ensures Aligned(Lower(n)) && Aligned(Upper(n))
    ensures forall a: nat :: Inside(n.version, a, n) <==> Inside(n.version, a, Lower(n)) || Inside(n.version, a, Upper(n))
  {
    var m := Pow2(n.bits - 1);
    assert Pow2(n.bits) == 2 * m;
    TopFits(Width(n.version), n.bits, n.base);
    HalfBases(n.base, m);
    hide Pow2, Width;
  }

  lemma HalfBases(base: nat, m: nat)
    requires m > 0 && base % (2 * m) == 0
    ensures base % m == 0 && (base + m) % m == 0
  {
    var q := base / (2 * m);
    assert base == (2 * m) * q;
    assert (2 * m) * q == m * (2 * q) && m * (2 * q + 1) == m * (2 * q) + m;
    ModUnique(base, m, 2 * q, 0);
    ModUnique(base + m, m, 2 * q + 1, 0);
  }

  lemma NextMultiple(m: nat, q: int, t: int)
    requires m > 0 && m * q < m * t
    ensures m * q + m <= m * t
  {
    MulOrder(m, t - q);
    assert m * (t - q) == m * t - m * q;
  }

  /** A block that starts below the end of the address space ends there at the latest. */
  lemma TopFits(w: nat, bits: nat, base: nat)
    requires bits <= w && base % Pow2(bits) == 0 && base < Pow2(w)
    ensures base + Pow2(bits) <= Pow2(w)
  {
    assert Pow2(w) % Pow2(bits) == 0 by { Pow2Divides(bits, w); }
    hide Pow2;
    var m, top := Pow2(bits), Pow2(w);
    assert base == m * (base / m) && top == m * (top / m);
    NextMultiple(m, base / m, top / m);
  }

  /** Networks are covered by whole networks: to be wholly administrative and to be covered by parts is the same. */
  lemma {:induction false} CoveredIff(n: Net, adm: seq<Net>)
    requires Aligned(n) && AllAligned(adm)
    ensures WhollyAdministrative(n, adm) <==> CoveredByParts(n, adm)
    decreases n.bits
  {
    WhollyAdministrativeIff(n, adm);
    if n.bits > 0 {
      Halves(n);
      CoveredIff(Lower(n), adm);
      CoveredIff(Upper(n), adm);
      hide Aligned, Inside, SwallowedBy, AllAligned, Administrative;
    } else {
      PointIsNotPatched(n, adm);
    }
  }

  lemma PointIsNotPatched(n: Net, adm: seq<Net>)
    requires n.bits == 0 && AllAligned(adm)
    ensures !Patched(n, adm)
  {
    assert Pow2(0) == 1;
    assert Inside(n.version, n.base, n);
    if PatchedAt(n, adm, n.base) {
      var j :| 0 <= j < |adm| && Inside(n.version, n.base, adm[j]) && SubnetOf(adm[j], n) && adm[j] != n;
      SizeIsOne(adm[j].bits);
      assert false;
    }
  }

  lemma SizeIsOne(bits: nat)
    ensures Pow2(bits) == 1 <==> bits == 0
  {
  }

  ghost predicate SomeWholly(app: seq<Net>, adm: seq<Net>) {
    exists i | 0 <= i < |app| :: WhollyAdministrative(app[i], adm)
  }

  /** Read of each network by itself, a verdict of inexpressible is right if some application network is wholly
      administrative. The verdict is then the right one exactly if some application network is swallowed by a single
      administration network, or none is covered by several; both can be read off the declarations. */
  lemma VerdictIsRightIff(application: seq<Entry>, administration: seq<Entry>)
    requires ContractIsExpressible(application, administration) in {Expressible, Swallowed}
    ensures var app, adm := Nets(application).value, Nets(administration).value;
      (ContractIsExpressible(application, administration) == Swallowed <==> SomeWholly(app, adm))
      <==> SomeSwallowed(app, adm) || forall i | 0 <= i < |app| :: !CoveredByParts(app[i], adm)
  {
    var app, adm := Nets(application).value, Nets(administration).value;
    NetsAligned(application);
    NetsAligned(administration);
    forall i | 0 <= i < |app| ensures WhollyAdministrative(app[i], adm) <==> CoveredByParts(app[i], adm) {
      assert Aligned(app[i]);
      CoveredIff(app[i], adm);
    }
    hide NetOf, SubnetOf, Inside, Aligned, WhollyAdministrative, Nets;
    if i, j :| 0 <= i < |app| && 0 <= j < |adm| && SubnetOf(app[i], adm[j]) {
      assert CoveredByParts(app[i], adm);
      assert WhollyAdministrative(app[i], adm);
    }
  }

  /** The other reading of the documentation, that the application networks lie in the administration networks all of them
      together: then the verdict is the right one exactly if some network is swallowed and every one is covered, or none is
      swallowed and one is not covered. */
  lemma VerdictIsRightForAllIff(application: seq<Entry>, administration: seq<Entry>)
    requires ContractIsExpressible(application, administration) in {Expressible, Swallowed}
    ensures var app, adm := Nets(application).value, Nets(administration).value;
      (ContractIsExpressible(application, administration) == Swallowed
       <==> forall i | 0 <= i < |app| :: WhollyAdministrative(app[i], adm))
      <==> (SomeSwallowed(app, adm) <==> forall i | 0 <= i < |app| :: CoveredByParts(app[i], adm))
  {
    var app, adm := Nets(application).value, Nets(administration).value;
    NetsAligned(application);
    NetsAligned(administration);
    forall i | 0 <= i < |app| ensures WhollyAdministrative(app[i], adm) <==> CoveredByParts(app[i], adm) {
      assert Aligned(app[i]);
      CoveredIff(app[i], adm);
    }
    hide NetOf, SubnetOf, Inside, Aligned, WhollyAdministrative, Nets, SomeSwallowed, CoveredByParts;
  }

  /** Where the condition fails: an application network of two addresses, and the administration declared as its two
      halves. The declarations are called expressible although every application address may administer. */
  lemma HalvesAreMissed(base: nat)
    requires base % 2 == 0 && base + 1 < Pow2(32)
    ensures var app, lower, upper := Address(V4, base, 31), Address(V4, base, 32), Address(V4, base + 1, 32);
      ContractIsExpressible([app], [lower, upper]) == Expressible
      && NetOf(app, false) == Some(Net(V4, base, 1))
      && WhollyAdministrative(Net(V4, base, 1), Nets([lower, upper]).value)
  {
    HalfNets(base);
    MissedIn(Address(V4, base, 31), Address(V4, base, 32), Address(V4, base + 1, 32),
             Net(V4, base, 1), Net(V4, base, 0), Net(V4, base + 1, 0));
    hide Pow2, NetOf, SubnetOf, Inside, WhollyAdministrative, Nets, ContractIsExpressible;
  }

  lemma MissedIn(app: Entry, lower: Entry, upper: Entry, n: Net, l: Net, u: Net)
    requires NetOf(app, false) == Some(n) && NetOf(lower, false) == Some(l) && NetOf(upper, false) == Some(u)
    requires l.version == u.version == n.version && !SubnetOf(n, l) && !SubnetOf(n, u)
    requires forall a: nat :: Inside(n.version, a, n) ==> Inside(n.version, a, l) || Inside(n.version, a, u)
    ensures ContractIsExpressible([app], [lower, upper]) == Expressible
    ensures WhollyAdministrative(n, Nets([lower, upper]).value)
  {
    NetsOfTwo(lower, upper, l, u);
    NetsOfOne(app, n);
    HalvesCover(n, l, u);
    hide NetOf, SubnetOf, Inside, WhollyAdministrative, Nets;
    assert !Mixed([n], [l, u]) && !SomeSwallowed([n], [l, u]);
  }

  lemma NetsOfOne(a: Entry, n: Net)
    requires NetOf(a, false) == Some(n)
    ensures Nets([a]) == Some([n])
  {
    hide NetOf;
    assert [a][1..] == [] && Nets([]) == Some([]);
    assert [n] + [] == [n];
  }

  lemma NetsOfTwo(a: Entry, b: Entry, l: Net, u: Net)
    requires NetOf(a, false) == Some(l) && NetOf(b, false) == Some(u)
    ensures Nets([a, b]) == Some([l, u])
  {
    NetsOfOne(b, u);
    hide NetOf;
    assert [a, b][1..] == [b] && [l] + [u] == [l, u];
  }

  lemma HalvesCover(n: Net, l: Net, u: Net)
    requires l.version == u.version == n.version
    requires forall a: nat :: Inside(n.version, a, n) ==> Inside(n.version, a, l) || Inside(n.version, a, u)
    ensures WhollyAdministrative(n, [l, u])
  {
    hide Inside;
    forall a: nat | Inside(n.version, a, n) ensures Administrative([l, u], n.version, a) {
      assert [l, u][0] == l && [l, u][1] == u;
    }
  }

  lemma HalfNets(base: nat)
    requires base % 2 == 0 && base + 1 < Pow2(32)
    ensures NetOf(Address(V4, base, 31), false) == Some(Net(V4, base, 1))
    ensures NetOf(Address(V4, base, 32), false) == Some(Net(V4, base, 0))
    ensures NetOf(Address(V4, base + 1, 32), false) == Some(Net(V4, base + 1, 0))
    ensures !SubnetOf(Net(V4, base, 1), Net(V4, base, 0)) && !SubnetOf(Net(V4, base, 1), Net(V4, base + 1, 0))
    ensures forall a: nat | Inside(V4, a, Net(V4, base, 1)) ::
              Inside(V4, a, Net(V4, base, 0)) || Inside(V4, a, Net(V4, base + 1, 0))
  {
    assert Pow2(0) == 1 && Pow2(1) == 2;
  }
}
