/**
 Technitium versions (internal/technitium/version.go): parsing a dotted numeric
 version, finding it inside a container image reference, and ordering.
 */
module Versions {
  import opened Options
  import opened Text

  /** Components are Go ints, 64 bits wide. */
  datatype Version = Version(major: int, minor: int, patch: int)

  predicate Representable(v: Version) {
    0 <= v.major <= MAX_INT64 && 0 <= v.minor <= MAX_INT64 && 0 <= v.patch <= MAX_INT64
  }

  // ---------- parsing ----------

  predicate IsNumeric(c: char) {
    c == '.' || IsDigit(c)
  }

  /** The length of the longest prefix of digits and dots. */
  function NumericEnd(s: string): (n: nat)
    ensures n <= |s|
    ensures forall i :: 0 <= i < n ==> IsNumeric(s[i])
    ensures n < |s| ==> !IsNumeric(s[n])
  {
    if s == [] || !IsNumeric(s[0]) then 0 else 1 + NumericEnd(s[1..])
  }

  predicate HasDoubleDot(s: string) {
    exists i :: 0 <= i < |s| - 1 && s[i] == '.' && s[i + 1] == '.'
  }

  function TrimV(s: string): string {
    if HasPrefix(s, "v") then s[1..] else s
  }

  function TrimDots(s: string): string {
    TrimRight(TrimLeft(s, IsDot), IsDot)
  }

  function Component(parts: seq<string>, i: nat): Option<nat> {
    if i < |parts| then ParseDecimal(parts[i], MAX_INT64) else Some(0)
  }

  /** What ParseVersion returns, None standing for its error. */
  function Parsed(s: string): (r: Option<Version>)
    ensures r.Some? ==> Representable(r.value)
  {
    var t := TrimV(TrimSpace(s));
    var numeric := t[..NumericEnd(t)];
    if HasPrefix(t, ".") || HasDoubleDot(numeric) then None else FromParts(Split(TrimDots(numeric), '.'))
  }

  /** One to three numerals, missing ones counting as 0. */
  function FromParts(parts: seq<string>): (r: Option<Version>)
    requires |parts| >= 1
    ensures r.Some? ==> Representable(r.value)
  {
    if parts[0] == "" || |parts| > 3 then None
    else
      var c0, c1, c2 := Component(parts, 0), Component(parts, 1), Component(parts, 2);
      if c0.None? || c1.None? || c2.None? then None
      else Some(Version(c0.value, c1.value, c2.value))
  }

  /** ParseVersion: scan the numeric prefix, split it, fill three components. */
  method ParseVersion(s: string) returns (r: Option<Version>)
    ensures r == Parsed(s)
  {
    var t := TrimV(TrimSpace(s));
    var end := 0;
    while end < |t| && IsNumeric(t[end])
      invariant end <= |t|
      invariant forall i :: 0 <= i < end ==> IsNumeric(t[i])
    {
      end := end + 1;
    }
    assert end == NumericEnd(t);
    var parts := Split(TrimDots(t[..end]), '.');
    if parts[0] == "" || |parts| > 3 || HasPrefix(t, ".") || HasDoubleDot(t[..end]) {
      return None;
    }
    var nums := new int[3](_ => 0);
    for i := 0 to |parts|
      invariant forall k :: 0 <= k < i ==> Component(parts, k) == Some(nums[k])
      invariant forall k :: i <= k < 3 ==> nums[k] == 0
    {
      var n := ParseDecimal(parts[i], MAX_INT64);
      if n.None? {
        assert Component(parts, i).None?;
        return None;
      }
      nums[i] := n.value;
    }
    return Some(Version(nums[0], nums[1], nums[2]));
  }

  function Undigested(image: string): string {
    image[..IndexOf(image, '@')]
  }

  function LastSegment(image: string): string {
    image[AfterLast(image, '/')..]
  }

  /** strings.Cut at the first colon: the part after it, if there is one. */
  function Tag(name: string): Option<string> {
    var colon := IndexOf(name, ':');
    if colon == |name| then None else Some(name[colon + 1..])
  }

  /** ParseImageVersion: drop the digest, keep the last path segment, take its tag. */
  function ParsedImage(image: string): (r: Option<Version>)
    ensures r.Some? ==> Representable(r.value)
  {
    match Tag(LastSegment(Undigested(image)))
    case None => None
    case Some(tag) => Parsed(tag)
  }

  // ---------- printing ----------

  function Printed(v: Version): string
    requires Representable(v)
  {
    Decimal(v.major) + "." + Decimal(v.minor) + "." + Decimal(v.patch)
  }

  /** A tag carrying v: an optional "v" before it, anything not numeric after it. */
  function VersionTag(v: Version, prefixed: bool, suffix: string): string
    requires Representable(v)
  {
    (if prefixed then "v" else "") + Printed(v) + suffix
  }

  predicate StartsOther(suffix: string) {
    suffix == [] || !IsNumeric(suffix[0])
  }

  lemma NumericEndIs(a: string, rest: string)
    requires forall i :: 0 <= i < |a| ==> IsNumeric(a[i])
    requires StartsOther(rest)
    ensures NumericEnd(a + rest) == |a|
  {
    var s := a + rest;
    var n := NumericEnd(s);
    assert forall i :: 0 <= i < |a| ==> IsNumeric(s[i]);
    assert rest != [] ==> s[|a|] == rest[0];
  }

  /** What the proofs below need of a printed version: three non-empty numerals joined by dots. */
  predicate Dotted(a: string, x: string, y: string, z: string) {
    && x != [] && y != [] && z != [] && AllDigits(x) && AllDigits(y) && AllDigits(z)
    && a == x + ("." + (y + ("." + z)))
  }

  lemma DottedSplit(a: string, x: string, y: string, z: string)
    requires Dotted(a, x, y, z)
    ensures Split(a, '.') == [x, y, z]
  {
    var parts := [x, y, z];
    assert Join([z], '.') == z;
    assert [y, z][1..] == [z];
    assert Join([y, z], '.') == y + "." + z == y + ("." + z);
    assert parts[1..] == [y, z];
    assert Join(parts, '.') == x + "." + (y + ("." + z)) == a;
    SplitJoin(parts, '.');
  }

  lemma DottedShape(a: string, x: string, y: string, z: string)
    requires Dotted(a, x, y, z)
    ensures a != [] && IsDigit(a[0]) && IsDigit(a[|a| - 1])
    ensures forall i :: 0 <= i < |a| ==> IsNumeric(a[i])
    ensures !HasDoubleDot(a)
    ensures TrimDots(a) == a
  {
    assert a[0] == x[0];
    assert a[|a| - 1] == z[|z| - 1];
    assert forall i :: 0 <= i < |a| ==> (a[i] == '.' <==> i == |x| || i == |x| + 1 + |y|);
  }

  lemma PrintedDotted(v: Version)
    requires Representable(v)
    ensures Dotted(Printed(v), Decimal(v.major), Decimal(v.minor), Decimal(v.patch))
  {
    var x, y, z := Decimal(v.major), Decimal(v.minor), Decimal(v.patch);
    assert x + "." + y + "." + z == x + ("." + (y + ("." + z)));
  }

  /** Trimming space and the "v" leaves the number and part of what follows it. */
  lemma Trimmed(a: string, prefixed: bool, suffix: string) returns (rest: string)
    requires a != [] && IsDigit(a[0]) && IsDigit(a[|a| - 1])
    requires StartsOther(suffix)
    ensures TrimV(TrimSpace((if prefixed then "v" else "") + a + suffix)) == a + rest
    ensures StartsOther(rest)
  {
    var head := (if prefixed then "v" else "") + a;
    assert head[|head| - 1] == a[|a| - 1];
    rest := TrimmedTail(head, suffix);
    PrefixDropped(a, prefixed, rest);
  }

  lemma TrimmedTail(head: string, suffix: string) returns (rest: string)
    requires head != [] && !IsSpace(head[0]) && !IsSpace(head[|head| - 1]) && StartsOther(suffix)
    ensures TrimSpace(head + suffix) == head + rest && StartsOther(rest)
  {
    var s := head + suffix;
    assert s[0] == head[0];
    assert TrimLeft(s, IsSpace) == s;
    TrimRightTail(head, suffix, IsSpace);
    var k :| 0 <= k <= |suffix| && TrimRight(s, IsSpace) == head + suffix[..k];
    rest := suffix[..k];
  }

  lemma PrefixDropped(a: string, prefixed: bool, rest: string)
    requires a != [] && IsDigit(a[0])
    ensures TrimV((if prefixed then "v" else "") + a + rest) == a + rest
  {
    if prefixed {
      var s := "v" + a + rest;
      assert s[..1] == "v" && s[1..] == a + rest;
    } else {
      assert "" + a + rest == a + rest && (a + rest)[0] == a[0];
    }
  }

  /**
   Parsing a printed version gives it back, with or without the "v" prefix and
   whatever follows the number, as long as that starts with neither a digit nor
   a dot.
   */
  lemma ParsePrinted(v: Version, prefixed: bool, suffix: string)
    requires Representable(v)
    requires StartsOther(suffix)
    ensures Parsed(VersionTag(v, prefixed, suffix)) == Some(v)
  {
    var a := Printed(v);
    var x, y, z := Decimal(v.major), Decimal(v.minor), Decimal(v.patch);
    PrintedDotted(v);
    DottedShape(a, x, y, z);
    var rest := Trimmed(a, prefixed, suffix);
    ParseDotted((if prefixed then "v" else "") + a + suffix, v, rest);
  }

  lemma ParseDotted(s: string, v: Version, rest: string)
    requires Representable(v) && StartsOther(rest)
    requires TrimV(TrimSpace(s)) == Printed(v) + rest
    ensures Parsed(s) == Some(v)
  {
    var a := Printed(v);
    var x, y, z := Decimal(v.major), Decimal(v.minor), Decimal(v.patch);
    PrintedDotted(v);
    DottedShape(a, x, y, z);
    NumericEndIs(a, rest);
    assert (a + rest)[..|a|] == a && (a + rest)[0] == a[0];
    DottedSplit(a, x, y, z);
    PartsOfPrinted(v);
  }

  lemma PartsOfPrinted(v: Version)
    requires Representable(v)
    ensures FromParts([Decimal(v.major), Decimal(v.minor), Decimal(v.patch)]) == Some(v)
  {
    DecimalParses(v.major, MAX_INT64);
    DecimalParses(v.minor, MAX_INT64);
    DecimalParses(v.patch, MAX_INT64);
  }

  // ---------- exactly what parses ----------

  predicate Numeral(s: string) {
    s != [] && AllDigits(s) && NumeralValue(s) <= MAX_INT64
  }

  /** One to three numerals with dots between them, perhaps one more dot, and then something else. */
  predicate ReadsAs(t: string, parts: seq<string>, dot: bool, rest: string) {
    && 1 <= |parts| <= 3 && (forall i :: 0 <= i < |parts| ==> Numeral(parts[i]))
    && t == Join(parts, '.') + (if dot then "." else "") + rest
    && StartsOther(rest)
  }

  function ValueAt(parts: seq<string>, i: nat): nat
    requires forall k :: 0 <= k < |parts| ==> Numeral(parts[k])
  {
    if i < |parts| then assert Numeral(parts[i]); NumeralValue(parts[i]) else 0
  }

  lemma {:induction false} JoinedShape(parts: seq<string>)
    requires parts != [] && forall i :: 0 <= i < |parts| ==> Numeral(parts[i])
    ensures var a := Join(parts, '.');
      && a != [] && IsDigit(a[0]) && IsDigit(a[|a| - 1])
      && (forall i :: 0 <= i < |a| ==> IsNumeric(a[i]))
      && !HasDoubleDot(a)
    decreases |parts|
  {
    if |parts| > 1 {
      var x, rest := parts[0], Join(parts[1..], '.');
      JoinedShape(parts[1..]);
      var a := x + "." + rest;
      assert a[0] == x[0] && a[|a| - 1] == rest[|rest| - 1];
      assert forall i :: 0 <= i < |x| ==> a[i] == x[i];
      assert forall i :: |x| < i < |a| ==> a[i] == rest[i - |x| - 1];
    }
  }

  lemma TrimOneDot(a: string, dot: bool)
    requires a != [] && IsDigit(a[0]) && IsDigit(a[|a| - 1])
    ensures TrimDots(a + (if dot then "." else "")) == a
  {
    var s := a + (if dot then "." else "");
    assert s[0] == a[0];
    assert TrimLeft(s, IsDot) == s;
    assert TrimRight(a, IsDot) == a;
    if dot {
      assert s[..|s| - 1] == a;
      assert TrimRight(s, IsDot) == TrimRight(a, IsDot);
    } else {
      assert s == a;
    }
  }

  /** A string of that form has the version of its numerals, missing ones counting as 0. */
  lemma ReadsAsParses(s: string, parts: seq<string>, dot: bool, rest: string)
    requires ReadsAs(TrimV(TrimSpace(s)), parts, dot, rest)
    ensures Parsed(s) == Some(Version(ValueAt(parts, 0), ValueAt(parts, 1), ValueAt(parts, 2)))
  {
    var numeric := Join(parts, '.') + (if dot then "." else "");
    NumericPart(parts, dot);
    NumericEndIs(numeric, rest);
    PartsParse(parts);
    var t := TrimV(TrimSpace(s));
    assert t[..|numeric|] == numeric && t[0] == numeric[0];
  }

  lemma NumericPart(parts: seq<string>, dot: bool)
    requires parts != [] && forall i :: 0 <= i < |parts| ==> Numeral(parts[i])
    ensures var numeric := Join(parts, '.') + (if dot then "." else "");
      && numeric != [] && IsDigit(numeric[0]) && !HasDoubleDot(numeric)
      && (forall i :: 0 <= i < |numeric| ==> IsNumeric(numeric[i]))
      && Split(TrimDots(numeric), '.') == parts
  {
    JoinedShape(parts);
    DotAppended(Join(parts, '.'), dot);
    forall i | 0 <= i < |parts| ensures Without(parts[i], '.') {
      assert Numeral(parts[i]);
    }
    SplitJoin(parts, '.');
  }

  lemma DotAppended(a: string, dot: bool)
    requires a != [] && IsDigit(a[0]) && IsDigit(a[|a| - 1]) && !HasDoubleDot(a)
    requires forall i :: 0 <= i < |a| ==> IsNumeric(a[i])
    ensures var numeric := a + (if dot then "." else "");
      && numeric[0] == a[0] && !HasDoubleDot(numeric) && TrimDots(numeric) == a
      && forall i :: 0 <= i < |numeric| ==> IsNumeric(numeric[i])
  {
    TrimOneDot(a, dot);
  }

  lemma PartsParse(parts: seq<string>)
    requires 1 <= |parts| <= 3 && forall i :: 0 <= i < |parts| ==> Numeral(parts[i])
    ensures FromParts(parts) == Some(Version(ValueAt(parts, 0), ValueAt(parts, 1), ValueAt(parts, 2)))
  {
  }

  /** Nothing else parses. */
  lemma ParsesReadsAs(s: string) returns (parts: seq<string>, dot: bool, rest: string)
    requires Parsed(s).Some?
    ensures ReadsAs(TrimV(TrimSpace(s)), parts, dot, rest)
  {
    var t := TrimV(TrimSpace(s));
    var numeric := t[..NumericEnd(t)];
    rest := t[NumericEnd(t)..];
    assert t == numeric + rest && StartsOther(rest);
    assert t != [] ==> t[..1] == [t[0]];
    parts, dot := NumericReads(numeric);
  }

  lemma NumericReads(numeric: string) returns (parts: seq<string>, dot: bool)
    requires (numeric != [] ==> numeric[0] != '.') && !HasDoubleDot(numeric)
    requires FromParts(Split(TrimDots(numeric), '.')).Some?
    ensures 1 <= |parts| <= 3 && (forall i :: 0 <= i < |parts| ==> Numeral(parts[i]))
    ensures numeric == Join(parts, '.') + (if dot then "." else "")
  {
    var trimmed := TrimDots(numeric);
    parts := Split(trimmed, '.');
    JoinSplit(trimmed, '.');
    assert numeric == [] ==> parts == [""];
    PartsAreNumerals(parts);
    assert Numeral(parts[0]);
    dot := OneDotAtMost(numeric);
  }

  lemma PartsAreNumerals(parts: seq<string>)
    requires |parts| >= 1 && FromParts(parts).Some?
    ensures |parts| <= 3 && forall i :: 0 <= i < |parts| ==> Numeral(parts[i])
  {
    forall i | 0 <= i < |parts| ensures Numeral(parts[i]) {
      assert Component(parts, i).Some?;
    }
  }

  /** Without two dots in a row, and none in front, trimming takes at most one dot off the end. */
  lemma OneDotAtMost(numeric: string) returns (dot: bool)
    requires numeric != [] && numeric[0] != '.' && !HasDoubleDot(numeric)
    ensures numeric == TrimDots(numeric) + (if dot then "." else "")
  {
    assert TrimLeft(numeric, IsDot) == numeric;
    var m := |numeric| - 1;
    dot := numeric[m] == '.';
    if dot {
      var front := numeric[..m];
      assert front[m - 1] != '.' by {
        if numeric[m - 1] == '.' {
          assert HasDoubleDot(numeric);
        }
      }
      assert TrimRight(front, IsDot) == front;
      assert numeric == front + ".";
    }
  }

  /** A string parses exactly if it has that form, once space around it and a leading "v" are taken off. */
  lemma ParsedExactly(s: string)
    ensures Parsed(s).Some? <==> exists parts, dot, rest :: ReadsAs(TrimV(TrimSpace(s)), parts, dot, rest)
  {
    if Parsed(s).Some? {
      var parts, dot, rest := ParsesReadsAs(s);
    }
    if parts, dot, rest :| ReadsAs(TrimV(TrimSpace(s)), parts, dot, rest) {
      ReadsAsParses(s, parts, dot, rest);
    }
  }

  /** Versions of fewer than three components. */
  lemma ParseShort(a: nat, b: nat, prefixed: bool, suffix: string)
    requires a <= MAX_INT64 && b <= MAX_INT64 && StartsOther(suffix)
    ensures Parsed((if prefixed then "v" else "") + Decimal(a) + suffix) == Some(Version(a, 0, 0))
    ensures Parsed((if prefixed then "v" else "") + (Decimal(a) + "." + Decimal(b)) + suffix) == Some(Version(a, b, 0))
  {
    var x, y := Decimal(a), Decimal(b);
    DecimalValue(a);
    DecimalValue(b);
    ParseJoined([x], prefixed, suffix);
    assert Join([x, y], '.') == x + "." + y by {
      assert [x, y][1..] == [y];
    }
    ParseJoined([x, y], prefixed, suffix);
  }

  lemma JoinedReads(parts: seq<string>, rest: string)
    requires 1 <= |parts| <= 3 && (forall i :: 0 <= i < |parts| ==> Numeral(parts[i])) && StartsOther(rest)
    ensures ReadsAs(Join(parts, '.') + rest, parts, false, rest)
  {
    assert Join(parts, '.') + "" == Join(parts, '.');
  }

  lemma ParseJoined(parts: seq<string>, prefixed: bool, suffix: string)
    requires 1 <= |parts| <= 3 && (forall i :: 0 <= i < |parts| ==> Numeral(parts[i])) && StartsOther(suffix)
    ensures Parsed((if prefixed then "v" else "") + Join(parts, '.') + suffix) ==
      Some(Version(ValueAt(parts, 0), ValueAt(parts, 1), ValueAt(parts, 2)))
  {
    var a := Join(parts, '.');
    JoinedShape(parts);
    var rest := Trimmed(a, prefixed, suffix);
    JoinedReads(parts, rest);
    ReadsAsParses((if prefixed then "v" else "") + a + suffix, parts, false, rest);
  }

  /** Printing what was parsed and parsing again changes nothing. */
  lemma ParsedIsCanonical(s: string)
    requires Parsed(s).Some?
    ensures Parsed(Printed(Parsed(s).value)) == Parsed(s)
  {
    PrintedParses(Parsed(s).value);
  }

  lemma PrintedParses(v: Version)
    requires Representable(v)
    ensures Parsed(Printed(v)) == Some(v)
  {
    ParsePrinted(v, false, "");
    PlainTag(v);
  }

  lemma PlainTag(v: Version)
    requires Representable(v)
    ensures VersionTag(v, false, "") == Printed(v)
  {
  }

  /**
   The version is found inside any image reference: an optional registry (with a
   port) and path, a repository name, the tag and an optional digest.
   */
  lemma ParsePrintedImage(path: string, name: string, v: Version, prefixed: bool, suffix: string, digest: string)
    requires Representable(v)
    requires Without(path, '@') && (path == [] || path[|path| - 1] == '/')
    requires Without(name, '@') && Without(name, '/') && Without(name, ':')
    requires StartsOther(suffix) && Without(suffix, '@') && Without(suffix, '/')
    requires digest == [] || digest[0] == '@'
    ensures ParsedImage(path + (name + [':'] + VersionTag(v, prefixed, suffix)) + digest) == Some(v)
  {
    var tag := VersionTag(v, prefixed, suffix);
    TagClean(v, prefixed, suffix);
    ParsePrinted(v, prefixed, suffix);
    var last := name + [':'] + tag;
    DigestDropped(path + last, digest);
    PathDropped(path, last);
    TagTaken(name, tag);
  }

  lemma TagClean(v: Version, prefixed: bool, suffix: string)
    requires Representable(v)
    requires Without(suffix, '@') && Without(suffix, '/')
    ensures var tag := VersionTag(v, prefixed, suffix); Without(tag, '@') && Without(tag, '/')
  {
    PrintedDotted(v);
    DottedShape(Printed(v), Decimal(v.major), Decimal(v.minor), Decimal(v.patch));
  }

  lemma DigestDropped(body: string, digest: string)
    requires Without(body, '@')
    requires digest == [] || digest[0] == '@'
    ensures Undigested(body + digest) == body
  {
    if digest == [] {
      IndexOfFirst(body, '@', "");
      assert body + digest == body;
    } else {
      IndexOfFirst(body, '@', digest[1..]);
      assert body + digest == body + ['@'] + digest[1..];
    }
  }

  lemma PathDropped(path: string, last: string)
    requires path == [] || path[|path| - 1] == '/'
    requires Without(last, '/')
    ensures LastSegment(path + last) == last
  {
    AfterLastOf(path, '/', last);
  }

  lemma TagTaken(name: string, tag: string)
    requires Without(name, ':')
    ensures Tag(name + [':'] + tag) == Some(tag)
  {
    IndexOfFirst(name, ':', tag);
    assert (name + [':'] + tag)[|name| + 1..] == tag;
  }

  /** path, repository name, tag and digest of an image reference. */
  predicate Reference(image: string, path: string, name: string, tag: string, digest: string) {
    && image == path + (name + [':'] + tag) + digest
    && Without(path, '@') && (path == [] || path[|path| - 1] == '/')
    && Without(name, '@') && Without(name, '/') && Without(name, ':')
    && Without(tag, '@') && Without(tag, '/')
    && (digest == [] || digest[0] == '@')
  }

  /** An image has a version exactly if it has a tag that parses, and it is the tag's. */
  lemma ImageExactly(image: string, v: Version)
    ensures ParsedImage(image) == Some(v) <==>
      exists path, name, tag, digest :: Reference(image, path, name, tag, digest) && Parsed(tag) == Some(v)
  {
    if ParsedImage(image) == Some(v) {
      var path, name, tag, digest := Dissect(image);
    }
    if path, name, tag, digest :| Reference(image, path, name, tag, digest) && Parsed(tag) == Some(v) {
      DigestDropped(path + (name + [':'] + tag), digest);
      PathDropped(path, name + [':'] + tag);
      TagTaken(name, tag);
    }
  }

  lemma Dissect(image: string) returns (path: string, name: string, tag: string, digest: string)
    requires Tag(LastSegment(Undigested(image))).Some?
    ensures Reference(image, path, name, tag, digest) && Tag(LastSegment(Undigested(image))) == Some(tag)
  {
    var body := Undigested(image);
    digest := image[IndexOf(image, '@')..];
    assert image == body + digest;
    path, name, tag := DissectBody(body);
    WithoutParts(path, name + [':'] + tag, '@');
    WithoutParts(name + [':'], tag, '@');
    WithoutParts(name, [':'], '@');
  }

  lemma DissectBody(body: string) returns (path: string, name: string, tag: string)
    requires Tag(LastSegment(body)).Some?
    ensures body == path + (name + [':'] + tag) && (path == [] || path[|path| - 1] == '/')
    ensures Without(name, '/') && Without(name, ':') && Without(tag, '/') && Tag(LastSegment(body)) == Some(tag)
  {
    var last := LastSegment(body);
    path := body[..AfterLast(body, '/')];
    name, tag := DissectTag(last);
    assert body == path + last;
    WithoutParts(name + [':'], tag, '/');
    WithoutParts(name, [':'], '/');
  }

  lemma WithoutParts(a: string, b: string, c: char)
    ensures Without(a + b, c) <==> Without(a, c) && Without(b, c)
  {
  }

  lemma DissectTag(last: string) returns (name: string, tag: string)
    requires Tag(last).Some?
    ensures last == name + [':'] + tag && Without(name, ':') && Tag(last) == Some(tag)
  {
    var colon := IndexOf(last, ':');
    name, tag := last[..colon], last[colon + 1..];
  }

  // ---------- ordering ----------

  /** Two's complement 64-bit wrap-around of Go's int arithmetic. */
  function Wrap64(x: int): int {
    (x + 0x8000_0000_0000_0000) % 0x1_0000_0000_0000_0000 - 0x8000_0000_0000_0000
  }

  /** The intended order: lexicographic on the components. */
  predicate Older(v: Version, o: Version) {
    || v.major < o.major
    || (v.major == o.major && v.minor < o.minor)
    || (v.major == o.major && v.minor == o.minor && v.patch < o.patch)
  }

  /** Compare, on wrapping subtractions: for parsed versions none of them overflows. */
  method Compare(v: Version, o: Version) returns (r: int)
    requires Representable(v) && Representable(o)
    ensures r == CompareSign(v, o)
    ensures r < 0 <==> Older(v, o)
    ensures r > 0 <==> Older(o, v)
    ensures r == 0 <==> v == o
  {
    var diffs := [Wrap64(v.major - o.major), Wrap64(v.minor - o.minor), Wrap64(v.patch - o.patch)];
    assert diffs == [v.major - o.major, v.minor - o.minor, v.patch - o.patch];
    for i := 0 to |diffs|
      invariant forall k :: 0 <= k < i ==> diffs[k] == 0
    {
      assert i > 0 ==> diffs[0] == 0;
      assert i > 1 ==> diffs[1] == 0;
      if diffs[i] < 0 {
        return -1;
      } else if diffs[i] > 0 {
        return 1;
      }
    }
    assert diffs[0] == 0 && diffs[1] == 0 && diffs[2] == 0;
    return 0;
  }

  function CompareSign(v: Version, o: Version): int {
    if Older(v, o) then -1 else if Older(o, v) then 1 else 0
  }
}
