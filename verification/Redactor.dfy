/** Secret redaction: sequential replacement, longest secret first, and the argv guard of the command runner. */
module Redactor {

  const MARKER := "[REDACTED]"

  /** The redactor drops empty values. */
  type Secret = s: string | s != "" witness "x"

  /** `str.replace`: greedy, left to right, without overlap. */
  function Replace(t: string, s: Secret): string
  {
    if |t| < |s| then t
    else if s <= t then MARKER + Replace(t[|s|..], s)
    else [t[0]] + Replace(t[1..], s)
  }

  predicate Contains(t: string, s: string) { exists k | 0 <= k <= |t| :: s <= t[k..] }

  function Redact(secrets: seq<Secret>, t: string): string
  {
    if secrets == [] then t else Redact(secrets[1..], Replace(t, secrets[0]))
  }

  predicate LongestFirst(secrets: seq<Secret>) {
    forall i, j | 0 <= i < j < |secrets| :: |secrets[i]| >= |secrets[j]|
  }

  /** Some shift lays the secret over the marker so that they agree wherever they meet: a border, or one inside the other. */
  ghost predicate Clashes(s: string) {
    exists d: int | -|s| < d < |MARKER| :: Agree(s, d)
  }

  ghost predicate Agree(s: string, d: int) {
    forall i | 0 <= i < |s| && 0 <= i + d < |MARKER| :: s[i] == MARKER[i + d]
  }

  // ---- text as a sequence of original characters and markers ------------------------------------------------------

  datatype Token = Ch(c: char) | Mark

  function Flat(ts: seq<Token>): string {
    if ts == [] then "" else (if ts[0].Ch? then [ts[0].c] else MARKER) + Flat(ts[1..])
  }

  function Plain(t: string): (ts: seq<Token>)
    ensures Flat(ts) == t
  {
    if t == "" then [] else
      var ts := [Ch(t[0])] + Plain(t[1..]);
      assert ts[1..] == Plain(t[1..]);
      ts
  }

  /** The next characters of the text spell the secret, with no marker among them. */
  predicate Spells(ts: seq<Token>, s: string) {
    |s| <= |ts| && forall i | 0 <= i < |s| :: ts[i] == Ch(s[i])
  }

  function ReplaceTokens(ts: seq<Token>, s: Secret): seq<Token>
  {
    if |ts| < |s| then ts
    else if Spells(ts, s) then [Mark] + ReplaceTokens(ts[|s|..], s)
    else [ts[0]] + ReplaceTokens(ts[1..], s)
  }

  ghost predicate SpelledIn(ts: seq<Token>, s: string) { exists k | 0 <= k <= |ts| :: Spells(ts[k..], s) }

  // ---- a secret that does not clash with the marker occurs only among original characters -------------------------

  lemma {:induction false} OccursAsTokens(ts: seq<Token>, s: string, j: nat)
    requires j <= |s| && s[j..] <= Flat(ts) && !Clashes(s)
    ensures Spells(ts, s[j..])
    decreases |s| - j
  {
    if j < |s| {
      assert s[j] == s[j..][0] == Flat(ts)[0];
      if ts[0].Mark? {
        assert Flat(ts) == MARKER + Flat(ts[1..]);
        forall i | 0 <= i < |s| && 0 <= i - j < |MARKER| ensures s[i] == MARKER[i - j] {
          assert s[i] == s[j..][i - j] == Flat(ts)[i - j];
        }
        var d: int := 0;
        d := d - j;
        assert Agree(s, d);
      } else {
        assert Flat(ts)[1..] == Flat(ts[1..]);
        assert s[j..][1..] == s[j + 1..];
        OccursAsTokens(ts[1..], s, j + 1);
        forall i | 0 <= i < |s[j..]| ensures i < |ts| && ts[i] == Ch(s[j..][i]) {
          if i > 0 { assert ts[i] == ts[1..][i - 1] && s[j..][i] == s[j + 1..][i - 1]; }
        }
      }
    }
  }

  lemma OccurrenceClashes(x: string, s: Secret, k: nat)
    requires k < |MARKER| && s <= MARKER[k..] + x
    ensures Clashes(s)
  {
    forall i | 0 <= i < |s| && 0 <= i + k < |MARKER| ensures s[i] == MARKER[i + k] {
      assert s[i] == (MARKER[k..] + x)[i] == MARKER[k..][i];
    }
    assert Agree(s, k);
  }

  /** No occurrence starts inside a marker. */
  lemma NotInMarker(x: string, s: Secret, k: nat)
    requires k < |MARKER| && !Clashes(s)
    ensures !(s <= MARKER[k..] + x)
  {
    hide Clashes;
    if s <= MARKER[k..] + x { OccurrenceClashes(x, s, k); }
  }

  lemma ReplaceStep(t: string, s: Secret)
    ensures |t| < |s| ==> Replace(t, s) == t
    ensures |t| >= |s| && !(s <= t) ==> Replace(t, s) == [t[0]] + Replace(t[1..], s)
    ensures s <= t ==> Replace(t, s) == MARKER + Replace(t[|s|..], s)
  {
  }

  /** What stands before the first place where the secret can start is kept. */
  lemma {:induction false} Skip(m: string, x: string, s: Secret)
    requires forall k | 0 <= k < |m| :: !(s <= m[k..] + x)
    ensures Replace(m + x, s) == m + Replace(x, s)
    decreases |m|
  {
    hide Replace;
    var t, r := m + x, Replace(x, s);
    ReplaceStep(t, s);
    ReplaceStep(x, s);
    if m == "" {
      assert t == x;
    } else {
      var rest := m[1..];
      assert m[0..] == m && t[1..] == rest + x && t[0] == m[0];
      if |t| >= |s| {
        forall k | 0 <= k < |rest| ensures !(s <= rest[k..] + x) { assert rest[k..] == m[k + 1..]; }
        Skip(rest, x, s);
        assert [m[0]] + (rest + r) == m + r;
      }
    }
  }

  lemma {:induction false} FlatDrop(ts: seq<Token>, s: string)
    requires Spells(ts, s)
    ensures s <= Flat(ts) && Flat(ts)[|s|..] == Flat(ts[|s|..])
  {
    if s != "" {
      assert ts[0] == Ch(s[0]) && Flat(ts) == [s[0]] + Flat(ts[1..]);
      assert forall i | 0 <= i < |s[1..]| :: ts[1..][i] == ts[i + 1] && s[1..][i] == s[i + 1];
      FlatDrop(ts[1..], s[1..]);
      assert ts[1..][|s[1..]|..] == ts[|s|..];
      assert s == [s[0]] + s[1..];
      assert Flat(ts)[|s|..] == Flat(ts)[1..][|s| - 1..];
    } else {
      assert ts[0..] == ts && Flat(ts)[0..] == Flat(ts);
    }
  }

  /** Replacing in the text is replacing among the tokens. */
  lemma {:induction false} ReplaceIsTokens(ts: seq<Token>, s: Secret)
    requires !Clashes(s)
    ensures Replace(Flat(ts), s) == Flat(ReplaceTokens(ts, s))
    decreases |ts|
  {
    var t := Flat(ts);
    if s <= t {
      assert s[0..] == s;
      OccursAsTokens(ts, s, 0);
      FlatDrop(ts, s);
      ReplaceIsTokens(ts[|s|..], s);
      assert ([Mark] + ReplaceTokens(ts[|s|..], s))[1..] == ReplaceTokens(ts[|s|..], s);
    } else if ts != [] {
      if Spells(ts, s) { FlatDrop(ts, s); }
      ReplaceIsTokens(ts[1..], s);
      var rest := ReplaceTokens(ts[1..], s);
      assert ([ts[0]] + rest)[1..] == rest;
      ShortTokens(ts, s);
      if ts[0].Mark? {
        forall k | 0 <= k < |MARKER| ensures !(s <= MARKER[k..] + Flat(ts[1..])) { NotInMarker(Flat(ts[1..]), s, k); }
        Skip(MARKER, Flat(ts[1..]), s);
      } else {
        assert t[1..] == Flat(ts[1..]);
        if |t| < |s| { assert Replace(t[1..], s) == t[1..]; }
      }
    }
  }

  /** Fewer tokens than the secret has characters: nothing to replace, now or one token later. */
  lemma ShortTokens(ts: seq<Token>, s: Secret)
    requires ts != [] && !Spells(ts, s)
    ensures ReplaceTokens(ts, s) == [ts[0]] + ReplaceTokens(ts[1..], s)
  {
    if |ts| < |s| { assert ts == [ts[0]] + ts[1..]; }
  }

  // ---- no replacement spells a secret anew ------------------------------------------------------------------------

  /** Characters at the front of the result were at the front before. */
  lemma {:induction false} FrontKept(ts: seq<Token>, s: Secret, q: string)
    requires Spells(ReplaceTokens(ts, s), q)
    ensures Spells(ts, q)
    decreases |ts|
  {
    if q != "" && |ts| >= |s| {
      var r := ReplaceTokens(ts, s);
      assert r[0] == Ch(q[0]);
      assert !Spells(ts, s);
      assert r[1..] == ReplaceTokens(ts[1..], s);
      assert Spells(r[1..], q[1..]);
      FrontKept(ts[1..], s, q[1..]);
      forall i | 0 <= i < |q| ensures i < |ts| && ts[i] == Ch(q[i]) {
        if i > 0 { assert ts[i] == ts[1..][i - 1] && q[i] == q[1..][i - 1]; }
      }
    }
  }

  function Taken(ts: seq<Token>, s: Secret): nat { if Spells(ts, s) then |s| else 1 }

  lemma TokensStep(ts: seq<Token>, s: Secret)
    requires |ts| >= |s|
    ensures Taken(ts, s) <= |ts|
    ensures var r := ReplaceTokens(ts, s); r != [] && r[1..] == ReplaceTokens(ts[Taken(ts, s)..], s)
    ensures Spells(ts, s) ==> ReplaceTokens(ts, s)[0].Mark?
  {
  }

  lemma SpelledLater(ts: seq<Token>, q: string, n: nat)
    requires n <= |ts| && SpelledIn(ts[n..], q)
    ensures SpelledIn(ts, q)
  {
    var j :| 0 <= j <= |ts[n..]| && Spells(ts[n..][j..], q);
    assert ts[n..][j..] == ts[n + j..];
  }

  /** What is spelled after a replacement was spelled before, and it is not the secret just replaced. */
  lemma {:induction false} NothingNew(ts: seq<Token>, s: Secret, q: Secret, k: nat)
    requires k <= |ReplaceTokens(ts, s)| && Spells(ReplaceTokens(ts, s)[k..], q)
    ensures SpelledIn(ts, q) && q != s
    decreases |ts|
  {
    var r := ReplaceTokens(ts, s);
    if |ts| < |s| {
      assert Spells(ts[k..], q);
    } else {
      TokensStep(ts, s);
      if k == 0 {
        assert r[0..] == r && ts[0..] == ts;
        FrontKept(ts, s, q);
        assert r[0] == Ch(q[0]);
      } else {
        hide ReplaceTokens, Spells, SpelledIn;
        var n := Taken(ts, s);
        assert r[k..] == r[1..][k - 1..];
        NothingNew(ts[n..], s, q, k - 1);
        SpelledLater(ts, q, n);
      }
    }
  }

  lemma ReplacedIsGone(ts: seq<Token>, s: Secret)
    ensures !SpelledIn(ReplaceTokens(ts, s), s)
    ensures forall q: Secret | !SpelledIn(ts, q) :: !SpelledIn(ReplaceTokens(ts, s), q)
  {
    var r := ReplaceTokens(ts, s);
    forall q: Secret | SpelledIn(r, q) ensures SpelledIn(ts, q) && q != s {
      var k :| 0 <= k <= |r| && Spells(r[k..], q);
      NothingNew(ts, s, q, k);
    }
  }

  /** A secret that is not spelled by original characters is not in the text at all. */
  lemma {:induction false} NotSpelledNotContained(ts: seq<Token>, s: Secret, k: nat)
    requires !Clashes(s) && k <= |Flat(ts)| && s <= Flat(ts)[k..]
    ensures SpelledIn(ts, s)
    decreases |ts|
  {
    if ts != [] && ts[0].Mark? {
      var x := Flat(ts[1..]);
      if k < |MARKER| {
        assert Flat(ts)[k..] == MARKER[k..] + x;
        NotInMarker(x, s, k);
      } else {
        assert Flat(ts)[k..] == x[k - |MARKER|..];
        NotSpelledNotContained(ts[1..], s, k - |MARKER|);
        LaterToo(ts, s);
      }
    } else if k == 0 {
      assert s[0..] == s && Flat(ts)[0..] == Flat(ts) && ts[0..] == ts;
      OccursAsTokens(ts, s, 0);
      assert Spells(ts[0..], s);
    } else if ts != [] {
      assert Flat(ts)[k..] == Flat(ts[1..])[k - 1..];
      NotSpelledNotContained(ts[1..], s, k - 1);
      LaterToo(ts, s);
    }
  }

  lemma LaterToo(ts: seq<Token>, s: string)
    requires ts != [] && SpelledIn(ts[1..], s)
    ensures SpelledIn(ts, s)
  {
    var k :| 0 <= k <= |ts[1..]| && Spells(ts[1..][k..], s);
    assert ts[1..][k..] == ts[k + 1..];
  }

  // ---- the whole redaction ----------------------------------------------------------------------------------------

  function RedactTokens(secrets: seq<Secret>, ts: seq<Token>): seq<Token>
  {
    if secrets == [] then ts else RedactTokens(secrets[1..], ReplaceTokens(ts, secrets[0]))
  }

  lemma {:induction false} RedactIsTokens(secrets: seq<Secret>, ts: seq<Token>)
    requires forall s | s in secrets :: !Clashes(s)
    ensures Redact(secrets, Flat(ts)) == Flat(RedactTokens(secrets, ts))
    ensures forall q: Secret | q in secrets || !SpelledIn(ts, q) :: !SpelledIn(RedactTokens(secrets, ts), q)
    decreases |secrets|
  {
    if secrets != [] {
      var next := ReplaceTokens(ts, secrets[0]);
      ReplaceIsTokens(ts, secrets[0]);
      ReplacedIsGone(ts, secrets[0]);
      RedactIsTokens(secrets[1..], next);
      assert forall q :: q in secrets <==> q == secrets[0] || q in secrets[1..];
    }
  }

  /** If no secret clashes with the marker, redacted text contains no secret. */
  lemma RedactedHasNoSecret(secrets: seq<Secret>, t: string)
    requires forall s | s in secrets :: !Clashes(s)
    ensures forall s | s in secrets :: !Contains(Redact(secrets, t), s)
  {
    RedactIsTokens(secrets, Plain(t));
    var ts := RedactTokens(secrets, Plain(t));
    forall s | s in secrets ensures !Contains(Flat(ts), s) {
      if Contains(Flat(ts), s) {
        var k :| 0 <= k <= |Flat(ts)| && s <= Flat(ts)[k..];
        NotSpelledNotContained(ts, s, k);
      }
    }
  }

  lemma {:induction false} ReplaceAbsent(t: string, s: Secret)
    requires !Contains(t, s)
    ensures Replace(t, s) == t
  {
    if |t| >= |s| {
      assert t[0..] == t;
      forall k | 0 <= k <= |t[1..]| ensures !(s <= t[1..][k..]) { assert t[1..][k..] == t[k + 1..]; }
      ReplaceAbsent(t[1..], s);
    }
  }

  /** The first occurrence. */
  ghost predicate FirstAt(t: string, s: string, k: nat) {
    k <= |t| && s <= t[k..] && forall i | 0 <= i < k :: !(s <= t[i..])
  }

  /** `str.replace` on the text: up to the first occurrence all is kept, that one becomes the marker, and so on behind it. */
  lemma ReplaceFirst(t: string, s: Secret, k: nat)
    requires FirstAt(t, s, k)
    ensures k + |s| <= |t| && Replace(t, s) == t[..k] + ("[REDACTED]" + Replace(t[k + |s|..], s))
  {
    hide FirstAt, Replace;
    NotBefore(t, s, k);
    ReplaceStep(t[k..], s);
  }

  lemma NotBefore(t: string, s: Secret, k: nat)
    requires FirstAt(t, s, k)
    ensures k + |s| <= |t| && s <= t[k..] && t[k..][|s|..] == t[k + |s|..]
    ensures Replace(t, s) == t[..k] + Replace(t[k..], s)
  {
    forall i | 0 <= i < |t[..k]| ensures !(s <= t[..k][i..] + t[k..]) { assert t[..k][i..] + t[k..] == t[i..]; }
    assert t[..k] + t[k..] == t;
    hide Replace;
    Skip(t[..k], t[k..], s);
  }

  /** Text without secrets is left alone. */
  lemma {:induction false} CleanTextUnchanged(secrets: seq<Secret>, t: string)
    requires forall s | s in secrets :: !Contains(t, s)
    ensures Redact(secrets, t) == t
    decreases |secrets|
  {
    if secrets != [] {
      assert secrets[0] in secrets;
      ReplaceAbsent(t, secrets[0]);
      CleanTextUnchanged(secrets[1..], t);
    }
  }

  lemma RedactionIsIdempotent(secrets: seq<Secret>, t: string)
    requires forall s | s in secrets :: !Clashes(s)
    ensures Redact(secrets, Redact(secrets, t)) == Redact(secrets, t)
  {
    RedactedHasNoSecret(secrets, t);
    CleanTextUnchanged(secrets, Redact(secrets, t));
  }

  lemma NoClashNotInMarker(s: Secret)
    requires !Clashes(s)
    ensures !Contains(MARKER, s)
  {
    forall k | 0 <= k <= |MARKER| ensures !(s <= MARKER[k..]) {
      if k < |MARKER| {
        NotInMarker("", s, k);
        assert MARKER[k..] + "" == MARKER[k..];
      }
    }
  }

  /** Longest first is what makes a secret disappear whole, even if it contains another one. */
  lemma {:induction false} SecretVanishesWhole(secrets: seq<Secret>, s: Secret)
    requires LongestFirst(secrets) && s in secrets && forall q | q in secrets :: !Clashes(q)
    ensures Redact(secrets, s) == MARKER
    decreases |secrets|
  {
    var q := secrets[0];
    if q == s {
      assert s[|s|..] == "" && Replace("", s) == "" && MARKER + "" == MARKER;
      forall x | x in secrets[1..] ensures !Contains(MARKER, x) { assert x in secrets; NoClashNotInMarker(x); }
      CleanTextUnchanged(secrets[1..], MARKER);
    } else {
      var i :| 0 <= i < |secrets| && secrets[i] == s;
      assert |q| >= |s| && !(q <= s);
      assert Replace(s, q) == s by {
        if |s| == |q| { assert Replace(s[1..], q) == s[1..]; }
      }
      SecretVanishesWhole(secrets[1..], s);
    }
  }

  /** Without the condition a secret can appear that was not there: these two, and this text. */
  lemma ClashingSecretAppears()
    ensures var secrets, t := ["]z", "k"], "kz";
      LongestFirst(secrets) && !Contains(t, "]z") && Contains(Redact(secrets, t), "]z")
  {
    var secrets, t := ["]z", "k"], "kz";
    assert Replace("kz", "]z") == "kz" by {
      assert "kz"[0] != "]z"[0] && "kz"[1..] == "z";
      assert Replace("z", "]z") == "z";
      assert ['k'] + "z" == "kz";
    }
    assert Replace("kz", "k") == MARKER + "z" by {
      assert "k" <= "kz" && "kz"[1..] == "z" && !("k" <= "z") && Replace("", "k") == "";
      assert "z"[1..] == "";
    }
    assert secrets[1..] == ["k"] && ["k"][1..] == [];
    assert Redact(secrets, t) == Redact(["k"], "kz") == Redact([], MARKER + "z") == MARKER + "z";
    assert (MARKER + "z")[9..] == "]z";
    forall k | 0 <= k <= |t| ensures !("]z" <= t[k..]) {
      assert k == 0 ==> t[k..] == "kz";
    }
  }

  // ---- the program ------------------------------------------------------------------------------------------------

  /** `sorted(key=len, reverse=True)`: a stable insertion. */
  function Insert(s: Secret, sorted: seq<Secret>): (r: seq<Secret>)
    requires LongestFirst(sorted)
    ensures LongestFirst(r) && |r| == |sorted| + 1
    ensures forall q :: q in r <==> q == s || q in sorted
  {
    if sorted == [] || |s| >= |sorted[0]| then [s] + sorted
    else
      var rest := Insert(s, sorted[1..]);
      assert forall q :: q in sorted <==> q == sorted[0] || q in sorted[1..];
      assert forall q | q in sorted[1..] :: |q| <= |sorted[0]|;
      assert forall i | 0 <= i < |rest| :: rest[i] in rest;
      [sorted[0]] + rest
  }

  function Sorted(values: seq<string>): (r: seq<Secret>)
    ensures LongestFirst(r)
    ensures forall s :: s in r <==> s in values && s != ""
  {
    if values == [] then []
    else
      var rest := Sorted(values[1..]);
      assert forall s :: s in values <==> s == values[0] || s in values[1..];
      if values[0] == "" then rest else Insert(values[0], rest)
  }

  function OfLength(values: seq<string>, n: nat): seq<string> {
    if values == [] then [] else (if |values[0]| == n then [values[0]] else []) + OfLength(values[1..], n)
  }

  lemma {:induction false} InsertStable(s: Secret, sorted: seq<Secret>, n: nat)
    requires LongestFirst(sorted)
    ensures OfLength(Insert(s, sorted), n) == (if |s| == n then [s] else []) + OfLength(sorted, n)
  {
    if sorted == [] || |s| >= |sorted[0]| {
      assert ([s] + sorted)[1..] == sorted;
    } else {
      var rest := Insert(s, sorted[1..]);
      InsertStable(s, sorted[1..], n);
      assert ([sorted[0]] + rest)[1..] == rest;
      hide LongestFirst;
    }
  }

  /** Secrets of one length stay in the order in which they came. */
  lemma {:induction false} SortedIsStable(values: seq<string>, n: nat)
    requires n > 0
    ensures OfLength(Sorted(values), n) == OfLength(values, n)
  {
    if values != [] {
      SortedIsStable(values[1..], n);
      if values[0] != "" { InsertStable(values[0], Sorted(values[1..]), n); }
    }
  }

  class SecretRedactor {
    const secretValues: seq<Secret>

    constructor (values: seq<string>)
      ensures LongestFirst(secretValues) && forall s :: s in secretValues <==> s in values && s != ""
      ensures forall n | n > 0 :: OfLength(secretValues, n) == OfLength(values, n)
    {
      secretValues := Sorted(values);
      forall n | n > 0 ensures OfLength(Sorted(values), n) == OfLength(values, n) { SortedIsStable(values, n); }
    }

    method RedactText(text: string) returns (res: string)
      ensures res == Redact(secretValues, text)
      ensures (forall s | s in secretValues :: !Clashes(s)) ==> forall s | s in secretValues :: !Contains(res, s)
    {
      res := text;
      for i := 0 to |secretValues|
        invariant Redact(secretValues, text) == Redact(secretValues[i..], res)
      {
        assert secretValues[i..][1..] == secretValues[i + 1..];
        res := Replace(res, secretValues[i]);
      }
      if forall s | s in secretValues :: !Clashes(s) { RedactedHasNoSecret(secretValues, text); }
    }
  }

  /** The guard before a process is created: rejected exactly when some argument contains some secret. */
  method ArgvRejected(cmd: seq<string>, secretValues: seq<string>) returns (rejected: bool)
    ensures rejected <==> exists i, j | 0 <= i < |cmd| && 0 <= j < |secretValues| ::
                            secretValues[j] != "" && Contains(cmd[i], secretValues[j])
  {
    for i := 0 to |cmd|
      invariant forall k, j | 0 <= k < i && 0 <= j < |secretValues| ::
                  secretValues[j] == "" || !Contains(cmd[k], secretValues[j])
    {
      for j := 0 to |secretValues|
        invariant forall m | 0 <= m < j :: secretValues[m] == "" || !Contains(cmd[i], secretValues[m])
      {
        if secretValues[j] != "" && Contains(cmd[i], secretValues[j]) { return true; }
      }
    }
    return false;
  }
}
