/** One secret: exactly when redaction can leave it in the text. */
module RedactorExact {
  import opened Redactor

  predicate Occurs(t: string, s: Secret, j: nat) { j <= |t| && s <= t[j..] }

  /** The secret agrees with the marker from its position `k` on. */
  predicate StartsInMarker(s: Secret, k: nat) {
    k < |MARKER| && forall i | 0 <= i < |s| && i + k < |MARKER| :: s[i] == MARKER[i + k]
  }

  /** The secret agrees with a marker that begins after `n` of its characters, and those characters followed by the secret
      do not spell it any earlier: else the greedy replacement would have taken that. */
  predicate StartsBeforeMarker(s: Secret, n: nat) {
    0 < n < |s| && (forall i | n <= i < |s| && i - n < |MARKER| :: s[i] == MARKER[i - n])
    && forall j | 0 <= j < n :: !Occurs(s[..n] + s, s, j)
  }

  predicate CanLeak(s: Secret) {
    (exists k | 0 <= k < |MARKER| :: StartsInMarker(s, k)) || (exists n | 0 <= n < |s| :: StartsBeforeMarker(s, n))
  }

  lemma ReplaceFirst(s: Secret, b: string)
    ensures Replace(s + b, s) == MARKER + Replace(b, s)
  {
    ReplaceStep(s + b, s);
    assert (s + b)[|s|..] == b;
  }

  lemma LeaksFromMarker(s: Secret, k: nat) returns (t: string)
    requires StartsInMarker(s, k)
    ensures Contains(Replace(t, s), s)
  {
    var v := if k + |s| <= |MARKER| then "" else s[|MARKER| - k..];
    t := s + v;
    ReplaceFirst(s, v);
    ReplaceStep(v, s);
    var r := MARKER + v;
    assert forall i | 0 <= i < |s| :: s[i] == r[k..][i];
    assert s <= r[k..];
  }

  lemma NoEarlier(v: string, s: Secret, b: string, k: nat)
    requires k < |v| && !Occurs(v + s, s, k)
    ensures !(s <= v[k..] + (s + b))
  {
    assert (v + s)[k..] == v[k..] + s;
    assert v[k..] + (s + b) == v[k..] + s + b;
    assert (v[k..] + s + b)[..|s|] == (v[k..] + s)[..|s|];
  }

  lemma LeaksIntoMarker(s: Secret, n: nat) returns (t: string)
    requires StartsBeforeMarker(s, n)
    ensures Contains(Replace(t, s), s)
  {
    hide Replace;
    var v := s[..n];
    var b := if |s| <= n + |MARKER| then "" else s[n + |MARKER|..];
    t := v + (s + b);
    forall k | 0 <= k < |v| ensures !(s <= v[k..] + (s + b)) {
      assert !Occurs(v + s, s, k);
      NoEarlier(v, s, b, k);
    }
    Skip(v, s + b, s);
    ReplaceFirst(s, b);
    ReplaceStep(b, s);
    var r := v + (MARKER + b);
    assert forall i | 0 <= i < |s| :: s[i] == r[i];
    assert r[0..] == r;
  }

  /** The first place where the secret occurs. */
  lemma FirstAt(t: string, s: Secret) returns (n: nat)
    requires Contains(t, s)
    ensures Occurs(t, s, n) && forall j | 0 <= j < n :: !Occurs(t, s, j)
  {
    var k :| 0 <= k <= |t| && s <= t[k..];
    n := 0;
    while !Occurs(t, s, n)
      invariant n <= k && forall j | 0 <= j < n :: !Occurs(t, s, j)
      decreases k - n
    {
      assert n != k;
      n := n + 1;
    }
  }

  /** Up to the first occurrence the text is kept, the occurrence is the marker. */
  lemma FirstOccurrence(t: string, s: Secret, n: nat) returns (rest: string)
    requires Occurs(t, s, n) && forall j | 0 <= j < n :: !Occurs(t, s, j)
    ensures Replace(t, s) == t[..n] + (MARKER + rest)
  {
    hide Replace;
    var m, x := t[..n], t[n..];
    assert t == m + x;
    forall k | 0 <= k < |m| ensures !(s <= m[k..] + x) {
      assert m[k..] + x == t[k..];
      assert !Occurs(t, s, k);
    }
    Skip(m, x, s);
    ReplaceStep(x, s);
    rest := Replace(x[|s|..], s);
  }

  /** A secret at the front of the result that was not at the front of the text runs into a marker. */
  lemma FrontLeak(t: string, s: Secret)
    requires s <= Replace(t, s) && !(s <= t)
    ensures CanLeak(s)
  {
    hide Replace;
    if Contains(t, s) {
      var n := FirstAt(t, s);
      var rest := FirstOccurrence(t, s, n);
      IntoMarker(t, s, n, rest);
    } else {
      ReplaceAbsent(t, s);
    }
  }

  lemma IntoMarker(t: string, s: Secret, n: nat, rest: string)
    requires Occurs(t, s, n) && (forall j | 0 <= j < n :: !Occurs(t, s, j)) && !(s <= t)
    requires s <= t[..n] + (MARKER + rest)
    ensures StartsBeforeMarker(s, n)
  {
    var r := t[..n] + (MARKER + rest);
    assert t[0..] == t;
    assert forall i | 0 <= i < n && i < |s| :: s[i] == r[i] == t[i];
    assert n < |s|;
    assert s[..n] == t[..n];
    forall i | n <= i < |s| && i - n < |MARKER| ensures s[i] == MARKER[i - n] { assert s[i] == r[i]; }
    assert n > 0;
    forall j | 0 <= j < n ensures !Occurs(s[..n] + s, s, j) {
      assert !Occurs(t, s, j);
      SameStart(t, s, n, j);
    }
  }

  /** Where the first occurrence is known, the text before it and the occurrence are all that an earlier one could use. */
  lemma SameStart(t: string, s: Secret, n: nat, j: nat)
    requires Occurs(t, s, n) && j < n < |s| && s[..n] == t[..n]
    ensures Occurs(s[..n] + s, s, j) ==> Occurs(t, s, j)
  {
    var u := s[..n] + s;
    forall i | 0 <= i < |u| ensures u[i] == t[i] {
      if i < n { assert u[i] == s[..n][i] == t[..n][i]; } else { assert u[i] == s[i - n] == t[n..][i - n]; }
    }
    if Occurs(u, s, j) {
      assert forall i | 0 <= i < |s| :: s[i] == u[j..][i] == t[j..][i];
    }
  }

  lemma {:induction false} LeakHasShape(t: string, s: Secret, p: nat)
    requires Occurs(Replace(t, s), s, p)
    ensures CanLeak(s)
    decreases |t|
  {
    hide Replace;
    var r := Replace(t, s);
    ReplaceStep(t, s);
    if s <= t {
      var rest := Replace(t[|s|..], s);
      if p < |MARKER| {
        assert r[p..] == MARKER[p..] + rest;
        forall i | 0 <= i < |s| && i + p < |MARKER| ensures s[i] == MARKER[i + p] { assert s[i] == r[p..][i]; }
        assert StartsInMarker(s, p);
      } else {
        assert r[p..] == rest[p - |MARKER|..];
        LeakHasShape(t[|s|..], s, p - |MARKER|);
      }
    } else if p == 0 {
      assert r[0..] == r;
      FrontLeak(t, s);
    } else if |t| >= |s| {
      assert r[p..] == Replace(t[1..], s)[p - 1..];
      LeakHasShape(t[1..], s, p - 1);
    }
  }

  /** A redactor with one secret leaves it in some text if and only if the secret has such a shape. */
  lemma SingleSecretExact(s: Secret)
    ensures (exists t: string :: Contains(Redact([s], t), s)) <==> CanLeak(s)
  {
    hide Replace;
    forall t: string ensures Redact([s], t) == Replace(t, s) { assert [s][1..] == []; }
    if CanLeak(s) {
      var t;
      if k :| 0 <= k < |MARKER| && StartsInMarker(s, k) {
        t := LeaksFromMarker(s, k);
      } else {
        var n :| 0 <= n < |s| && StartsBeforeMarker(s, n);
        t := LeaksIntoMarker(s, n);
      }
      assert Contains(Redact([s], t), s);
    }
    forall t: string | Contains(Redact([s], t), s) ensures CanLeak(s) {
      var p :| 0 <= p <= |Replace(t, s)| && s <= Replace(t, s)[p..];
      LeakHasShape(t, s, p);
    }
  }

  /** The exact condition is a special case of a clash. */
  lemma ShapeIsClash(s: Secret)
    ensures CanLeak(s) ==> Clashes(s)
  {
    if k :| 0 <= k < |MARKER| && StartsInMarker(s, k) {
      assert Agree(s, k);
    } else if n :| 0 <= n < |s| && StartsBeforeMarker(s, n) {
      var d: int := 0;
      d := d - n;
      assert Agree(s, d);
    }
  }

  /** And a proper one: this secret ends as the marker begins, and is never left. */
  lemma NotEveryClashLeaks()
    ensures Clashes("[x[") && !CanLeak("[x[")
  {
    var s: Secret := "[x[";
    assert Agree(s, -2);
    assert Occurs(s[..2] + s, s, 0) by { assert (s[..2] + s)[0..] == "[x[x["; }
    assert !StartsBeforeMarker(s, 2);
    assert !StartsBeforeMarker(s, 1) by { assert s[1] != MARKER[0]; }
    forall k | 0 <= k < |MARKER| ensures !StartsInMarker(s, k) {
      if k == 0 { assert s[1] != MARKER[1]; } else { assert s[0] != MARKER[k]; }
    }
  }
}
