/** Optional values, used for Go's nil pointers, absent map entries and (value, ok) pairs. */
module Options {
  datatype Option<+T> = None | Some(value: T)
}

/**
 The parts of Go's strings and strconv packages the operator relies on, as
 functions on sequences of characters, with the laws the other modules use:
 decimal numerals are injective and parse back, joining inverts splitting, and
 string comparison is a strict total order.
 */
module Text {
  import opened Options

  // ---------- characters ----------

  predicate IsDigit(c: char) {
    '0' <= c <= '9'
  }

  /** unicode.IsSpace. */
  predicate IsSpace(c: char) {
    || '\t' <= c <= '\r'
    || c == ' ' || c == '\U{0085}' || c == '\U{00A0}' || c == '\U{1680}'
    || '\U{2000}' <= c <= '\U{200a}'
    || c == '\U{2028}' || c == '\U{2029}' || c == '\U{202f}' || c == '\U{205f}' || c == '\U{3000}'
  }

  predicate IsDot(c: char) {
    c == '.'
  }

  predicate Without(s: string, c: char) {
    c !in s
  }

  /** Go's map[string]struct{} filled from a slice. */
  function SetOf(s: seq<string>): set<string> {
    set x | x in s
  }

  predicate AllDigits(s: string) {
    forall i :: 0 <= i < |s| ==> IsDigit(s[i])
  }

  // ---------- trimming, searching ----------

  function TrimLeft(s: string, cut: char -> bool): string {
    if s != [] && cut(s[0]) then TrimLeft(s[1..], cut) else s
  }

  function TrimRight(s: string, cut: char -> bool): string {
    if s != [] && cut(s[|s| - 1]) then TrimRight(s[..|s| - 1], cut) else s
  }

  /** strings.TrimSpace. */
  function TrimSpace(s: string): string {
    TrimRight(TrimLeft(s, IsSpace), IsSpace)
  }

  predicate HasPrefix(s: string, p: string) {
    |p| <= |s| && s[..|p|] == p
  }

  predicate HasSuffix(s: string, p: string) {
    |p| <= |s| && s[|s| - |p|..] == p
  }

  /** The index of the first c, or the length of s when there is none. */
  function IndexOf(s: string, c: char): (i: nat)
    ensures i <= |s|
    ensures c !in s[..i]
    ensures i < |s| ==> s[i] == c
  {
    if s == [] || s[0] == c then 0 else 1 + IndexOf(s[1..], c)
  }

  /** One past the index of the last c, or 0 when there is none. */
  function AfterLast(s: string, c: char): (i: nat)
    ensures i <= |s|
    ensures c !in s[i..]
    ensures i > 0 ==> s[i - 1] == c
  {
    if s == [] then 0
    else if s[|s| - 1] == c then |s|
    else
      var i := AfterLast(s[..|s| - 1], c);
      assert s[i..] == s[..|s| - 1][i..] + [s[|s| - 1]];
      i
  }

  lemma IndexOfFirst(p: string, c: char, rest: string)
    requires Without(p, c)
    ensures IndexOf(p + [c] + rest, c) == |p|
    ensures IndexOf(p, c) == |p|
  {
    var s := p + [c] + rest;
    assert s[|p|] == c;
  }

  lemma AfterLastOf(p: string, c: char, rest: string)
    requires Without(rest, c)
    requires p == [] || p[|p| - 1] == c
    ensures AfterLast(p + rest, c) == |p|
  {
    var s := p + rest;
    var i := AfterLast(s, c);
    assert s[..|p|] == p && s[|p|..] == rest;
    assert forall j :: i <= j < |s| ==> s[j] in s[i..];
  }

  /** Trimming leaves a string alone that starts and ends with kept characters, up to a trimmed tail. */
  lemma {:induction false} TrimRightTail(a: string, tail: string, cut: char -> bool)
    requires a == [] || !cut(a[|a| - 1])
    ensures exists k :: 0 <= k <= |tail| && TrimRight(a + tail, cut) == a + tail[..k]
    decreases |tail|
  {
    if tail == [] {
      assert a + tail == a;
      assert TrimRight(a + tail, cut) == a + tail[..0];
    } else if cut(tail[|tail| - 1]) {
      var shorter := tail[..|tail| - 1];
      assert (a + tail)[..|a + tail| - 1] == a + shorter;
      TrimRightTail(a, shorter, cut);
      var k :| 0 <= k <= |shorter| && TrimRight(a + shorter, cut) == a + shorter[..k];
      assert shorter[..k] == tail[..k];
    } else {
      assert tail[..|tail|] == tail;
      assert TrimRight(a + tail, cut) == a + tail[..|tail|];
    }
  }

  // ---------- decimal numerals ----------

  function DigitChar(d: nat): (c: char)
    requires d < 10
    ensures IsDigit(c) && DigitValue(c) == d
  {
    '0' + d as char
  }

  function DigitValue(c: char): (d: nat)
    requires IsDigit(c)
    ensures d < 10
  {
    c as int - '0' as int
  }

  /** fmt's %d of a non-negative integer. */
  function Decimal(n: nat): (s: string)
    ensures s != [] && AllDigits(s)
  {
    if n < 10 then [DigitChar(n)] else Decimal(n / 10) + [DigitChar(n % 10)]
  }

  function NumeralValue(s: string): nat
    requires AllDigits(s)
  {
    if s == [] then 0 else NumeralValue(s[..|s| - 1]) * 10 + DigitValue(s[|s| - 1])
  }

  const MAX_INT64: nat := 0x7FFF_FFFF_FFFF_FFFF
  const MAX_UINT16: nat := 0xFFFF

  /** strconv's unsigned decimal parse: digits only, at least one, at most max. */
  function ParseDecimal(s: string, max: nat): (r: Option<nat>)
    ensures r.Some? ==> r.value <= max
  {
    if s == [] || !AllDigits(s) || NumeralValue(s) > max then None else Some(NumeralValue(s))
  }

  lemma {:induction false} DecimalValue(n: nat)
    ensures NumeralValue(Decimal(n)) == n
  {
    if n >= 10 {
      DecimalValue(n / 10);
      var s := Decimal(n);
      assert s[..|s| - 1] == Decimal(n / 10);
    }
  }

  lemma DecimalInjective(m: nat, n: nat)
    requires Decimal(m) == Decimal(n)
    ensures m == n
  {
    DecimalValue(m);
    DecimalValue(n);
  }

  lemma DecimalParses(n: nat, max: nat)
    requires n <= max
    ensures ParseDecimal(Decimal(n), max) == Some(n)
  {
    DecimalValue(n);
  }

  // ---------- splitting and joining ----------

  /** strings.Split with a one-character separator. */
  function Split(s: string, c: char): (parts: seq<string>)
    ensures |parts| >= 1
    decreases |s|
  {
    var i := IndexOf(s, c);
    if i == |s| then [s] else [s[..i]] + Split(s[i + 1..], c)
  }

  /** strings.Join with a one-character separator. */
  function Join(parts: seq<string>, c: char): string {
    if parts == [] then ""
    else if |parts| == 1 then parts[0]
    else parts[0] + [c] + Join(parts[1..], c)
  }

  lemma {:induction false} SplitJoin(parts: seq<string>, c: char)
    requires parts != []
    requires forall i :: 0 <= i < |parts| ==> Without(parts[i], c)
    ensures Split(Join(parts, c), c) == parts
    decreases |parts|
  {
    if |parts| == 1 {
      IndexOfFirst(parts[0], c, "");
    } else {
      SplitFirst(parts[0], c, Join(parts[1..], c));
      SplitJoin(parts[1..], c);
    }
  }

  /** Joining what was split gives the string back. */
  lemma {:induction false} JoinSplit(s: string, c: char)
    ensures Join(Split(s, c), c) == s
    decreases |s|
  {
    var i := IndexOf(s, c);
    if i < |s| {
      var tail := s[i + 1..];
      JoinSplit(tail, c);
      JoinCons(s[..i], Split(tail, c), c);
      CutAt(s, i);
    }
  }

  lemma CutAt(s: string, i: nat)
    requires i < |s|
    ensures s == s[..i] + [s[i]] + s[i + 1..]
  {
  }

  lemma JoinCons(first: string, rest: seq<string>, c: char)
    requires rest != []
    ensures Join([first] + rest, c) == first + [c] + Join(rest, c)
  {
    assert ([first] + rest)[1..] == rest;
  }

  lemma SplitFirst(p: string, c: char, rest: string)
    requires Without(p, c)
    ensures Split(p + [c] + rest, c) == [p] + Split(rest, c)
  {
    var s := p + [c] + rest;
    IndexOfFirst(p, c, rest);
    assert s[..|p|] == p && s[|p| + 1..] == rest;
  }

  // ---------- comparison ----------

  /** strings.Compare(a, b) < 0. */
  predicate Less(a: string, b: string) {
    b != [] && (a == [] || a[0] < b[0] || (a[0] == b[0] && Less(a[1..], b[1..])))
  }

  lemma {:induction false} LessTotal(a: string, b: string)
    ensures Less(a, b) || Less(b, a) || a == b
    ensures !(Less(a, b) && Less(b, a))
    ensures !Less(a, a)
    decreases |a|
  {
    if a != [] && b != [] {
      LessTotal(a[1..], b[1..]);
      assert a == [a[0]] + a[1..] && b == [b[0]] + b[1..];
    }
    if a != [] {
      LessTotal(a[1..], a[1..]);
    }
  }

  lemma {:induction false} LessTransitive(a: string, b: string, c: string)
    requires Less(a, b) && Less(b, c)
    ensures Less(a, c)
    decreases |a|
  {
    if a != [] && a[0] == b[0] == c[0] {
      LessTransitive(a[1..], b[1..], c[1..]);
    }
  }
}
