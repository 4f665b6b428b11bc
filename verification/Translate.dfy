/**
 From ExternalDNS endpoints to Record resources (internal/externaldns): names,
 zones, MX targets and the Record built for one target of an endpoint.
 */
module Translate {
  import opened Options
  import opened Text

  // ---------- names ----------

  function LowerChar(c: char): char {
    if 'A' <= c <= 'Z' then c - 'A' + 'a' else c
  }

  function UpperChar(c: char): char {
    if 'a' <= c <= 'z' then c - 'a' + 'A' else c
  }

  function ToLower(s: string): string {
    seq(|s|, i requires 0 <= i < |s| => LowerChar(s[i]))
  }

  function ToUpper(s: string): string {
    seq(|s|, i requires 0 <= i < |s| => UpperChar(s[i]))
  }

  /** normalizeName. */
  function Normalize(s: string): string {
    TrimRight(ToLower(TrimSpace(s)), IsDot)
  }

  /** Trimming on the left takes off the longest prefix to be cut. */
  lemma {:induction false} TrimLeftCut(s: string, cut: char -> bool) returns (n: nat)
    ensures n <= |s| && TrimLeft(s, cut) == s[n..] && (forall i :: 0 <= i < n ==> cut(s[i])) && (n < |s| ==> !cut(s[n]))
  {
    n := 0;
    if s != [] && cut(s[0]) {
      var m := TrimLeftCut(s[1..], cut);
      n := m + 1;
      assert s[1..][m..] == s[n..];
      assert forall i :: 1 <= i < |s| ==> s[i] == s[1..][i - 1];
    }
  }

  lemma {:induction false} TrimRightCut(s: string, cut: char -> bool) returns (n: nat)
    ensures n <= |s| && TrimRight(s, cut) == s[..n] && (forall i :: n <= i < |s| ==> cut(s[i])) && (n > 0 ==> !cut(s[n - 1]))
  {
    n := |s|;
    if s != [] && cut(s[|s| - 1]) {
      n := TrimRightCut(s[..|s| - 1], cut);
    }
  }

  /** s is space, a core, dots and space, in this order, and the core is as large as it can be. */
  predicate Layout(s: string, i: nat, j: nat, k: nat) {
    && i <= j <= k <= |s|
    && (forall n :: 0 <= n < i ==> IsSpace(s[n])) && (forall n :: k <= n < |s| ==> IsSpace(s[n]))
    && (forall n :: j <= n < k ==> s[n] == '.')
    && (i < k ==> !IsSpace(s[i]) && !IsSpace(s[k - 1]))
    && (i < j ==> s[j - 1] != '.')
  }

  /** A normalized name is that core in lower case. */
  lemma NormalizeMeans(s: string) returns (i: nat, j: nat, k: nat)
    ensures Layout(s, i, j, k) && |Normalize(s)| == j - i
    ensures forall n :: 0 <= n < j - i ==>
      Normalize(s)[n] == if 'A' <= s[i + n] <= 'Z' then s[i + n] - 'A' + 'a' else s[i + n]
  {
    i := TrimLeftCut(s, IsSpace);
    var rest := s[i..];
    var m := TrimRightCut(rest, IsSpace);
    k := i + m;
    assert rest[..m] == s[i..k];
    var low := ToLower(s[i..k]);
    var d := TrimRightCut(low, IsDot);
    j := i + d;
    assert forall n :: 0 <= n < |low| ==> low[n] == LowerChar(s[i + n]);
    assert forall n :: k <= n < |s| ==> s[n] == rest[n - i];
    forall n | j <= n < k ensures s[n] == '.' {
      assert IsDot(low[n - i]);
    }
  }

  predicate SameLetters(a: string, b: string) {
    |a| == |b| && forall i :: 0 <= i < |a| ==> LowerChar(a[i]) == LowerChar(b[i])
  }

  lemma {:induction false} TrimLeftSame(a: string, b: string)
    requires SameLetters(a, b)
    ensures SameLetters(TrimLeft(a, IsSpace), TrimLeft(b, IsSpace))
  {
    if a != [] && IsSpace(a[0]) {
      assert a[0] == b[0];
      TrimLeftSame(a[1..], b[1..]);
    }
  }

  lemma {:induction false} TrimRightSame(a: string, b: string)
    requires SameLetters(a, b)
    ensures SameLetters(TrimRight(a, IsSpace), TrimRight(b, IsSpace))
  {
    if a != [] && IsSpace(a[|a| - 1]) {
      var m := |a| - 1;
      assert a[m] == b[m];
      TrimRightSame(a[..m], b[..m]);
    }
  }

  lemma UpperIgnoresCase(s: string)
    ensures ToUpper(ToUpper(s)) == ToUpper(s) && ToUpper(ToLower(s)) == ToUpper(s)
  {
  }

  lemma NormalizeIgnoresCase(a: string, b: string)
    requires SameLetters(a, b)
    ensures Normalize(a) == Normalize(b)
  {
    TrimLeftSame(a, b);
    TrimRightSame(TrimLeft(a, IsSpace), TrimLeft(b, IsSpace));
    assert ToLower(TrimSpace(a)) == ToLower(TrimSpace(b));
  }

  /** One pass of normalization does not always reach a fixed point. */
  lemma NormalizeNotIdempotent()
    ensures Normalize("a .") == "a " && Normalize("a ") == "a"
  {
    assert TrimLeft("a .", IsSpace) == "a ." && TrimRight("a .", IsSpace) == "a .";
    assert ToLower("a .") == "a .";
    assert "a ."[..2] == "a ";
    assert TrimRight("a .", IsDot) == TrimRight("a ", IsDot) == "a ";
    assert TrimLeft("a ", IsSpace) == "a ";
    assert "a "[..1] == "a";
    assert TrimRight("a ", IsSpace) == TrimRight("a", IsSpace) == "a";
    assert ToLower("a") == "a";
  }

  lemma {:induction false} TrimRightEnds(s: string, cut: char -> bool)
    ensures var t := TrimRight(s, cut); |t| <= |s| && t == s[..|t|] && (t != [] ==> !cut(t[|t| - 1]))
  {
    if s != [] && cut(s[|s| - 1]) {
      TrimRightEnds(s[..|s| - 1], cut);
    }
  }

  lemma {:induction false} TrimLeftEnds(s: string, cut: char -> bool)
    ensures var t := TrimLeft(s, cut); t != [] ==> !cut(t[0])
  {
    if s != [] && cut(s[0]) {
      TrimLeftEnds(s[1..], cut);
    }
  }

  lemma {:induction false} LowerKeepsDots(s: string)
    ensures TrimRight(ToLower(s), IsDot) == ToLower(TrimRight(s, IsDot))
  {
    if s != [] {
      var m := |s| - 1;
      assert ToLower(s)[..m] == ToLower(s[..m]);
      LowerKeepsDots(s[..m]);
    }
  }

  /**
   Normalizing is idempotent exactly on names that do not end, once surrounding
   space and then trailing dots are taken off, in space again.
   */
  lemma NormalizeIdempotentExactly(s: string)
    ensures var core := TrimRight(TrimSpace(s), IsDot);
      Normalize(Normalize(s)) == Normalize(s) <==> core == [] || !IsSpace(core[|core| - 1])
  {
    LowerKeepsDots(TrimSpace(s));
    FixedPoint(s);
  }

  lemma FixedPoint(s: string)
    ensures var t := Normalize(s); Normalize(t) == t <==> (t == [] || !IsSpace(t[|t| - 1]))
  {
    var u := TrimSpace(s);
    var low := ToLower(u);
    var t := Normalize(s);
    TrimLeftEnds(s, IsSpace);
    TrimRightEnds(TrimLeft(s, IsSpace), IsSpace);
    TrimRightEnds(low, IsDot);
    assert t != [] ==> t[0] == low[0] == LowerChar(u[0]) && !IsSpace(t[0]);
    assert TrimLeft(t, IsSpace) == t;
    assert ToLower(t) == t;
    TrimRightEnds(t, IsSpace);
    if t == [] || !IsSpace(t[|t| - 1]) {
      assert TrimSpace(t) == t;
    } else {
      var v := TrimRight(t, IsSpace);
      assert v != t;
      TrimRightEnds(ToLower(v), IsDot);
      assert |Normalize(t)| <= |v| < |t|;
    }
  }

  // ---------- record object names ----------

  const NUL: char := '\0'

  function Encode(fields: seq<string>): string {
    if fields == [] then "" else fields[0] + [NUL] + Encode(fields[1..])
  }

  predicate NulFree(fields: seq<string>) {
    forall i :: 0 <= i < |fields| ==> Without(fields[i], NUL)
  }

  /** An encoding holds a NUL for every field, and no other NUL exactly if the fields are NUL-free. */
  lemma {:induction false} EncodeNuls(fields: seq<string>)
    ensures multiset(Encode(fields))[NUL] >= |fields|
    ensures multiset(Encode(fields))[NUL] == |fields| <==> NulFree(fields)
  {
    if fields != [] {
      var f, rest := fields[0], fields[1..];
      EncodeNuls(rest);
      assert multiset(Encode(fields)) == multiset(f) + multiset([NUL]) + multiset(Encode(rest));
      assert multiset(f)[NUL] == 0 <==> Without(f, NUL);
      assert forall i :: 1 <= i < |fields| ==> fields[i] == rest[i - 1];
      assert NulFree(fields) <==> Without(f, NUL) && NulFree(rest);
    }
  }

  /** The encoding hashed into a name determines NUL-free fields among all field lists of the same length. */
  lemma EncodeInjective(a: seq<string>, b: seq<string>)
    requires |a| == |b| && NulFree(a) && Encode(a) == Encode(b)
    ensures a == b
  {
    EncodeNuls(a);
    EncodeNuls(b);
    NulFreeInjective(a, b);
  }

  lemma {:induction false} NulFreeInjective(a: seq<string>, b: seq<string>)
    requires |a| == |b| && NulFree(a) && NulFree(b) && Encode(a) == Encode(b)
    ensures a == b
    decreases |a|
  {
    if a != [] {
      IndexOfFirst(a[0], NUL, Encode(a[1..]));
      IndexOfFirst(b[0], NUL, Encode(b[1..]));
      assert a[0] == Encode(a)[..|a[0]|] == b[0];
      assert Encode(a[1..]) == Encode(a)[|a[0]| + 1..] == Encode(b[1..]);
      NulFreeInjective(a[1..], b[1..]);
      assert a == [a[0]] + a[1..] && b == [b[0]] + b[1..];
    }
  }

  lemma {:induction false} EncodeAppend(a: seq<string>, b: seq<string>)
    ensures Encode(a + b) == Encode(a) + Encode(b)
    decreases |a|
  {
    if a == [] {
      assert a + b == b;
    } else {
      EncodeAppend(a[1..], b);
      assert (a + b)[1..] == a[1..] + b;
    }
  }

  /** The boundary between two neighbouring fields may lie at either of two NULs. */
  lemma EncodeBoundary(x: string, y: string, z: string)
    ensures Encode([x + [NUL] + y, z]) == Encode([x, y + [NUL] + z])
  {
    assert Encode([z]) == z + [NUL] && Encode([y + [NUL] + z]) == y + [NUL] + z + [NUL];
    assert [x + [NUL] + y, z][1..] == [z] && [x, y + [NUL] + z][1..] == [y + [NUL] + z];
  }

  lemma EncodePair(before: seq<string>, p: seq<string>, q: seq<string>, after: seq<string>)
    requires Encode(p) == Encode(q)
    ensures Encode(before + p + after) == Encode(before + q + after)
  {
    EncodeAppend(before + p, after);
    EncodeAppend(before, p);
    EncodeAppend(before + q, after);
    EncodeAppend(before, q);
  }

  /** With a NUL inside a field, other fields have the same encoding: move the boundary to a neighbour. */
  lemma EncodeCollides(a: seq<string>, i: nat) returns (b: seq<string>)
    requires i < |a| && |a| >= 2 && !Without(a[i], NUL)
    ensures |b| == |a| && b != a && Encode(b) == Encode(a)
    ensures i + 1 < |a| ==> forall k :: 0 <= k < |a| && k != i && k != i + 1 ==> b[k] == a[k]
    ensures i + 1 == |a| ==> forall k :: 0 <= k < |a| && k != i && k != i - 1 ==> b[k] == a[k]
  {
    var n := IndexOf(a[i], NUL);
    var x, y := a[i][..n], a[i][n + 1..];
    assert a[i] == x + [NUL] + y;
    if i + 1 < |a| {
      var p, q := [a[i], a[i + 1]], [x, y + [NUL] + a[i + 1]];
      EncodeBoundary(x, y, a[i + 1]);
      EncodePair(a[..i], p, q, a[i + 2..]);
      b := a[..i] + q + a[i + 2..];
      assert a == a[..i] + p + a[i + 2..];
      assert |b[i]| < |a[i]|;
    } else {
      var p, q := [a[i - 1], a[i]], [a[i - 1] + [NUL] + x, y];
      EncodeBoundary(a[i - 1], x, y);
      EncodePair(a[..i - 1], q, p, []);
      b := a[..i - 1] + q + [];
      assert a == a[..i - 1] + p + [];
      assert |b[i]| < |a[i]|;
    }
  }

  /** The encoding determines the fields exactly if none of them holds a NUL. */
  lemma EncodeExactly(a: seq<string>)
    requires |a| >= 2
    ensures NulFree(a) <==> forall b :: |b| == |a| && Encode(b) == Encode(a) ==> b == a
  {
    if NulFree(a) {
      forall b | |b| == |a| && Encode(b) == Encode(a) ensures b == a {
        EncodeInjective(a, b);
      }
    } else {
      var i :| 0 <= i < |a| && !Without(a[i], NUL);
      var b := EncodeCollides(a, i);
    }
  }

  /** The digest, of which only the first 16 bytes in hex are kept, is a parameter. */
  datatype Translator = Translator(serverRef: string, owner: string, zones: seq<string>, digest: string -> string)

  function RecordName(t: Translator, dnsName: string, recordType: string, target: string, setId: string): string {
    "edns-" + t.digest(Encode([t.owner, Normalize(dnsName), ToUpper(recordType), target, setId]))
  }

  // ---------- zones ----------

  /** name lies in zone z, on a label boundary. */
  predicate InZone(name: string, z: string) {
    name == z || HasSuffix(name, "." + z)
  }

  function LongestZone(zones: seq<string>, name: string, best: string): string {
    if zones == [] then best
    else
      var z := Normalize(zones[0]);
      LongestZone(zones[1..], name, if InZone(name, z) && |z| > |best| then z else best)
  }

  /** ZoneFor; "" when there is none. */
  function ZoneOf(t: Translator, dnsName: string): string {
    LongestZone(t.zones, Normalize(dnsName), "")
  }

  /** ZoneFor as the loop it is. */
  method ZoneFor(t: Translator, dnsName: string) returns (zone: string, ok: bool)
    ensures zone == ZoneOf(t, dnsName) && ok == (zone != "")
    ensures IsBest(t.zones, Normalize(dnsName), zone)
  {
    var name := Normalize(dnsName);
    zone := "";
    for i := 0 to |t.zones|
      invariant LongestZone(t.zones, name, "") == LongestZone(t.zones[i..], name, zone)
    {
      var z := Normalize(t.zones[i]);
      if InZone(name, z) && |z| > |zone| {
        zone := z;
      }
    }
    ok := zone != "";
    LongestIsBest(t.zones, name, "");
  }

  /** best is a configured zone containing name and none is longer; "" when no non-empty zone contains it. */
  predicate IsBest(zones: seq<string>, name: string, best: string) {
    && (best != "" ==> InZone(name, best) && exists i :: 0 <= i < |zones| && Normalize(zones[i]) == best)
    && (forall i :: 0 <= i < |zones| && InZone(name, Normalize(zones[i])) ==> |Normalize(zones[i])| <= |best|)
  }

  lemma {:induction false} LongestIsBest(zones: seq<string>, name: string, best: string)
    ensures var r := LongestZone(zones, name, best);
      && |r| >= |best|
      && (r == best || (r != "" && InZone(name, r) && exists i :: 0 <= i < |zones| && Normalize(zones[i]) == r))
      && (forall i :: 0 <= i < |zones| && InZone(name, Normalize(zones[i])) ==> |Normalize(zones[i])| <= |r|)
    decreases |zones|
  {
    if zones != [] {
      var z := Normalize(zones[0]);
      var best' := if InZone(name, z) && |z| > |best| then z else best;
      LongestIsBest(zones[1..], name, best');
      var r := LongestZone(zones, name, best);
      if r == best' {
        assert r != best ==> Normalize(zones[0]) == r;
      } else {
        var i :| 0 <= i < |zones[1..]| && Normalize(zones[1..][i]) == r;
        assert Normalize(zones[i + 1]) == r;
      }
      forall i | 0 <= i < |zones| && InZone(name, Normalize(zones[i])) ensures |Normalize(zones[i])| <= |r| {
        if i > 0 {
          assert zones[i] == zones[1..][i - 1];
        }
      }
    }
  }

  lemma SameLengthZones(name: string, y: string, z: string)
    requires InZone(name, y) && InZone(name, z) && |y| == |z|
    ensures y == z
  {
    if name != y && name != z {
      assert y == name[|name| - |y|..];
      assert z == name[|name| - |z|..];
    }
  }

  /** The chosen zone depends on which zones are configured, not on their order or repetition. */
  lemma ZoneOrderIrrelevant(name: string, zones: seq<string>, others: seq<string>, y: string, z: string)
    requires forall x :: x in zones <==> x in others
    requires IsBest(zones, name, y) && IsBest(others, name, z)
    ensures y == z
  {
    assert |y| <= |z| by {
      if y != "" {
        var i :| 0 <= i < |zones| && Normalize(zones[i]) == y;
        assert zones[i] in others;
        var j :| 0 <= j < |others| && others[j] == zones[i];
      }
    }
    assert |z| <= |y| by {
      if z != "" {
        var i :| 0 <= i < |others| && Normalize(others[i]) == z;
        assert others[i] in zones;
        var j :| 0 <= j < |zones| && zones[j] == others[i];
      }
    }
    if y != "" {
      SameLengthZones(name, y, z);
    }
  }

  // ---------- MX targets ----------

  function SpaceRun(s: string, space: bool): (n: nat)
    ensures n <= |s|
    ensures forall i :: 0 <= i < n ==> IsSpace(s[i]) == space
    ensures n < |s| ==> IsSpace(s[n]) != space
  {
    if s == [] || IsSpace(s[0]) != space then 0 else 1 + SpaceRun(s[1..], space)
  }

  /** strings.Fields. */
  function Fields(s: string): seq<string>
    decreases |s|
  {
    var t := s[SpaceRun(s, true)..];
    if t == [] then [] else [t[..SpaceRun(t, false)]] + Fields(t[SpaceRun(t, false)..])
  }

  datatype Mx = Mx(preference: nat, host: string)

  /** ParseMX. */
  function ParseMX(target: string): (r: Option<Mx>)
    ensures r.Some? ==> r.value.preference <= MAX_UINT16
  {
    var f := Fields(target);
    if |f| != 2 then None
    else
      match ParseDecimal(f[0], MAX_UINT16)
      case None => None
      case Some(p) => Some(Mx(p, f[1]))
  }

  function PrintMX(mx: Mx): string {
    Decimal(mx.preference) + " " + mx.host
  }

  predicate Solid(s: string) {
    s != [] && forall i :: 0 <= i < |s| ==> !IsSpace(s[i])
  }

  lemma SolidRun(a: string, rest: string)
    requires Solid(a) && (rest == [] || IsSpace(rest[0]))
    ensures SpaceRun(a + rest, true) == 0 && SpaceRun(a + rest, false) == |a|
  {
    var s := a + rest;
    assert s[0] == a[0];
    assert forall i :: 0 <= i < |a| ==> s[i] == a[i];
    assert rest != [] ==> s[|a|] == rest[0];
  }

  lemma FieldsOfOne(a: string)
    requires Solid(a)
    ensures Fields(a) == [a]
  {
    SolidRun(a, "");
    assert a + "" == a && a[0..] == a && a[|a|..] == [] && a[..|a|] == a;
    assert Fields("") == [];
  }

  /** A canonical MX target parses back to what it prints. */
  lemma ParsePrintedMX(mx: Mx)
    requires mx.preference <= MAX_UINT16 && Solid(mx.host)
    ensures ParseMX(PrintMX(mx)) == Some(mx)
  {
    assert Solid(Decimal(mx.preference));
    FieldsOfTwo(Decimal(mx.preference), mx.host);
    DecimalParses(mx.preference, MAX_UINT16);
  }

  lemma FieldsOfTwo(a: string, b: string)
    requires Solid(a) && Solid(b)
    ensures Fields(a + " " + b) == [a, b]
  {
    var s, rest := a + " " + b, " " + b;
    assert s == a + rest && rest[0] == ' ';
    SolidRun(a, rest);
    assert s[0..] == s && s[..|a|] == a && s[|a|..] == rest;
    FieldsSkipSpace(b);
    assert Fields(s) == [a] + Fields(rest);
  }

  lemma FieldsSkipSpace(b: string)
    requires Solid(b)
    ensures Fields(" " + b) == [b]
  {
    var rest := " " + b;
    assert rest[1..] == b;
    SolidRun(b, "");
    assert b + "" == b;
    assert SpaceRun(rest, true) == 1;
    FieldsOfOne(b);
    assert Fields(rest) == Fields(b);
  }

  // ---------- exactly which targets parse ----------

  predicate Blank(s: string) {
    forall i :: 0 <= i < |s| ==> IsSpace(s[i])
  }

  lemma BlankRun(p: string, x: string)
    requires Blank(p) && (x == [] || !IsSpace(x[0]))
    ensures SpaceRun(p + x, true) == |p|
  {
    var s := p + x;
    assert forall i :: 0 <= i < |p| ==> s[i] == p[i];
    assert x != [] ==> s[|p|] == x[0];
  }

  lemma FieldsBlank(p: string)
    requires Blank(p)
    ensures Fields(p) == []
  {
    BlankRun(p, "");
    assert p + "" == p && p[|p|..] == [];
  }

  /** One field off the front. */
  lemma FieldsFront(p: string, a: string, rest: string)
    requires Blank(p) && Solid(a) && (rest == [] || IsSpace(rest[0]))
    ensures Fields(p + (a + rest)) == [a] + Fields(rest)
  {
    var x := a + rest;
    var s := p + x;
    assert x[0] == a[0];
    BlankRun(p, x);
    SolidRun(a, rest);
    assert s[|p|..] == x && x[..|a|] == a && x[|a|..] == rest;
  }

  /** Two fields with space between them, and perhaps around them. */
  predicate TwoFields(s: string, p: string, a: string, q: string, b: string, r: string) {
    s == p + (a + (q + (b + r))) && Blank(p) && Solid(a) && Blank(q) && q != [] && Solid(b) && Blank(r)
  }

  lemma TwoFieldsAre(s: string, p: string, a: string, q: string, b: string, r: string)
    requires TwoFields(s, p, a, q, b, r)
    ensures Fields(s) == [a, b]
  {
    var rest := q + (b + r);
    assert rest[0] == q[0];
    FieldsFront(p, a, rest);
    FieldsFront(q, b, r);
    FieldsBlank(r);
  }

  /** Cut a string with a field in it at both ends of the first one. */
  lemma CutFront(s: string) returns (p: string, a: string, rest: string)
    requires Fields(s) != []
    ensures s == p + (a + rest) && Blank(p) && Solid(a) && (rest == [] || IsSpace(rest[0]))
    ensures Fields(s) == [a] + Fields(rest)
  {
    var n := SpaceRun(s, true);
    p := s[..n];
    var t := s[n..];
    assert t != [];
    assert t[0] == s[n];
    a, rest := t[..SpaceRun(t, false)], t[SpaceRun(t, false)..];
    assert t == a + rest && s == p + t;
  }

  lemma NoFields(s: string)
    requires Fields(s) == []
    ensures Blank(s)
  {
    assert s[SpaceRun(s, true)..] == [];
  }

  lemma CutTwo(s: string) returns (p: string, a: string, q: string, b: string, r: string)
    requires |Fields(s)| == 2
    ensures TwoFields(s, p, a, q, b, r) && Fields(s) == [a, b]
  {
    var rest;
    p, a, rest := CutFront(s);
    q, b, r := CutFront(rest);
    NoFields(r);
    assert q != [] by {
      assert rest[0] == (q + (b + r))[0];
    }
  }

  /** A numeral of at most 65535 and a host, with space between them and perhaps around them. */
  ghost predicate ReadsMX(target: string, mx: Mx) {
    exists p, a, q, r :: TwoFields(target, p, a, q, mx.host, r) && ReadsPreference(a, mx.preference)
  }

  predicate ReadsPreference(a: string, n: nat) {
    AllDigits(a) && NumeralValue(a) == n <= MAX_UINT16
  }

  lemma FieldsParseMX(target: string, a: string, mx: Mx)
    requires Fields(target) == [a, mx.host] && a != []
    ensures ParseMX(target) == Some(mx) <==> ReadsPreference(a, mx.preference)
  {
  }

  /** An MX target parses exactly if it has that form, and as that. */
  lemma ParseMXExactly(target: string, mx: Mx)
    ensures ParseMX(target) == Some(mx) <==> ReadsMX(target, mx)
  {
    if ParseMX(target) == Some(mx) {
      var p, a, q, b, r := CutTwo(target);
      assert b == mx.host;
      FieldsParseMX(target, a, mx);
    }
    if ReadsMX(target, mx) {
      var p, a, q, r :| TwoFields(target, p, a, q, mx.host, r) && ReadsPreference(a, mx.preference);
      TwoFieldsAre(target, p, a, q, mx.host, r);
      FieldsParseMX(target, a, mx);
    }
  }
}
