/**
 The two version orders of the repository: CompareVersions of
 entrypoint/internal/state/state.go, which decides whether an image may start
 a volume, and version_key of scripts/watch.py, which decides what is newer.
 */
module Versions {
  import opened Text

  /** The largest int of a 64-bit Go program. */
  const MAX_INT := 0x7FFF_FFFF_FFFF_FFFF

  predicate IsDigit(c: char) {
    '0' <= c <= '9'
  }

  predicate AllDigits(s: string) {
    forall i :: 0 <= i < |s| ==> IsDigit(s[i])
  }

  /** The number a run of decimal digits stands for. */
  function Number(s: string): nat
    requires AllDigits(s)
  {
    if s == "" then 0 else 10 * Number(s[..|s| - 1]) + (s[|s| - 1] - '0') as int
  }

  // ----- the entrypoint's parser

  function ParsePart(p: string): Option<nat> {
    if p == "" || !AllDigits(p) || Number(p) > MAX_INT then None else Some(Number(p))
  }

  function Parts(v: string): seq<string> {
    SplitOn(Trim(v), '.')
  }

  predicate Valid(v: string) {
    |Parts(v)| == 3 && forall i :: 0 <= i < 3 ==> ParsePart(Parts(v)[i]).Some?
  }

  /** The three components of a valid version. */
  function Triple(v: string): (t: seq<nat>)
    requires Valid(v)
    ensures |t| == 3
  {
    var p := Parts(v);
    [ParsePart(p[0]).value, ParsePart(p[1]).value, ParsePart(p[2]).value]
  }

  method ParseVersion(v: string) returns (r: Option<seq<nat>>)
    ensures r == if Valid(v) then Some(Triple(v)) else None
  {
    var parts := SplitOn(Trim(v), '.');
    if |parts| != 3 {
      return None;
    }
    var out := new nat[3](_ => 0);
    for i := 0 to 3
      invariant forall k :: 0 <= k < i ==> ParsePart(parts[k]) == Some(out[k])
    {
      var n := ParsePart(parts[i]);
      if n.None? {
        return None;
      }
      out[i] := n.value;
    }
    assert out[..] == [out[0], out[1], out[2]];
    return Some(out[..]);
  }

  /** -1, 0 or 1 for lists of numbers compared from the front; a proper prefix comes first. */
  function Order(a: seq<nat>, b: seq<nat>): int {
    if a == [] && b == [] then 0
    else if a == [] then -1
    else if b == [] then 1
    else if a[0] < b[0] then -1
    else if a[0] > b[0] then 1
    else Order(a[1..], b[1..])
  }

  function Compare(a: string, b: string): Option<int> {
    if Valid(a) && Valid(b) then Some(Order(Triple(a), Triple(b))) else None
  }

  method CompareVersions(a: string, b: string) returns (r: Option<int>)
    ensures r == Compare(a, b)
  {
    var av := ParseVersion(a);
    if av.None? {
      return None;
    }
    var bv := ParseVersion(b);
    if bv.None? {
      return None;
    }
    for i := 0 to 3
      invariant Order(av.value, bv.value) == Order(av.value[i..], bv.value[i..])
    {
      var x, y := av.value[i..], bv.value[i..];
      assert x[1..] == av.value[i + 1..] && y[1..] == bv.value[i + 1..];
      if av.value[i] < bv.value[i] {
        return Some(-1);
      } else if av.value[i] > bv.value[i] {
        return Some(1);
      }
    }
    return Some(0);
  }

  // ----- the watcher's key

  function DigitRun(s: string): (n: nat)
    ensures n <= |s| && AllDigits(s[..n])
  {
    if s == "" || !IsDigit(s[0]) then 0
    else
      assert forall i :: 0 < i < DigitRun(s[1..]) + 1 ==> s[i] == s[1..][i - 1];
      1 + DigitRun(s[1..])
  }

  /** The leading digits of a chunk as a number, 0 when there are none. */
  function ChunkKey(chunk: string): nat {
    Number(chunk[..DigitRun(chunk)])
  }

  function ChunkKeys(chunks: seq<string>): seq<nat> {
    if chunks == [] then [] else [ChunkKey(chunks[0])] + ChunkKeys(chunks[1..])
  }

  function VersionKey(v: string): seq<nat> {
    ChunkKeys(SplitOn(v, '.'))
  }

  method ComputeVersionKey(version: string) returns (parts: seq<nat>)
    ensures parts == VersionKey(version)
  {
    var chunks := SplitOn(version, '.');
    parts := [];
    for i := 0 to |chunks|
      invariant VersionKey(version) == parts + ChunkKeys(chunks[i..])
    {
      assert chunks[i..][0] == chunks[i] && chunks[i..][1..] == chunks[i + 1..];
      parts := parts + [ChunkKey(chunks[i])];
    }
    assert chunks[|chunks|..] == [] && parts + [] == parts;
  }

  predicate Newer(a: string, b: string) {
    Order(VersionKey(a), VersionKey(b)) > 0
  }

  // ----- the order

  lemma {:induction false} OrderTotal(a: seq<nat>, b: seq<nat>)
    ensures Order(a, b) == -Order(b, a) && -1 <= Order(a, b) <= 1
    ensures Order(a, b) == 0 <==> a == b
  {
    if a != [] && b != [] && a[0] == b[0] {
      OrderTotal(a[1..], b[1..]);
      assert a == [a[0]] + a[1..] && b == [b[0]] + b[1..];
    }
  }

  lemma {:induction false} OrderTransitive(a: seq<nat>, b: seq<nat>, c: seq<nat>)
    requires Order(a, b) <= 0 && Order(b, c) <= 0
    ensures Order(a, c) <= 0
    ensures Order(a, b) < 0 || Order(b, c) < 0 ==> Order(a, c) < 0
  {
    if a != [] && b != [] && c != [] && a[0] == b[0] == c[0] {
      OrderTransitive(a[1..], b[1..], c[1..]);
    }
  }

  /** On versions that parse, CompareVersions is a total preorder. */
  lemma CompareIsPreorder(a: string, b: string, c: string)
    requires Valid(a) && Valid(b) && Valid(c)
    ensures Compare(a, a) == Some(0)
    ensures Compare(a, b).value == -Compare(b, a).value
    ensures Compare(a, b).value <= 0 && Compare(b, c).value <= 0 ==> Compare(a, c).value <= 0
    ensures Compare(a, b).value == 0 ==> Compare(a, c) == Compare(b, c)
  {
    OrderTotal(Triple(a), Triple(a));
    OrderTotal(Triple(a), Triple(b));
    if Compare(a, b).value <= 0 && Compare(b, c).value <= 0 {
      OrderTransitive(Triple(a), Triple(b), Triple(c));
    }
  }

  // ----- what a version is

  const DIGITS := "0123456789"

  /** A run of decimal digits that fits the machine's integers. */
  predicate Numeric(p: string) {
    p != "" && (forall c :: c in p ==> c in DIGITS) && AllDigits(p) && Number(p) <= 9_223_372_036_854_775_807
  }

  lemma AllDigitsIff(p: string)
    ensures AllDigits(p) <==> forall c :: c in p ==> c in DIGITS
  {
    forall c: char
      ensures IsDigit(c) <==> c in DIGITS
    {
      assert IsDigit(c) ==> c == DIGITS[(c - '0') as int];
    }
  }

  /** A version is three numbers of the machine between two dots, white space around it or not. */
  lemma ValidIff(v: string, a: string, b: string, c: string)
    ensures Numeric(a) && Numeric(b) && Numeric(c) && Trim(v) == a + "." + b + "." + c ==>
              Valid(v) && Triple(v) == [Number(a), Number(b), Number(c)]
    ensures Valid(v) ==> var p := Parts(v);
              |p| == 3 && Numeric(p[0]) && Numeric(p[1]) && Numeric(p[2]) && Trim(v) == p[0] + "." + p[1] + "." + p[2]
  {
    hide Trim, Number;
    forall p: string
      ensures AllDigits(p) <==> forall c :: c in p ==> c in DIGITS
    {
      AllDigitsIff(p);
    }
    if Numeric(a) && Numeric(b) && Numeric(c) && Trim(v) == a + "." + b + "." + c {
      assert '.' !in a && '.' !in b && '.' !in c;
      SplitJoin([a, b, c], '.');
      JoinDots(a, b, c);
    }
    if Valid(v) {
      var p := Parts(v);
      assert ParsePart(p[0]).Some? && ParsePart(p[1]).Some? && ParsePart(p[2]).Some?;
      assert p == [p[0], p[1], p[2]];
      JoinSplit(Trim(v), '.');
      JoinDots(p[0], p[1], p[2]);
    }
  }

  // ----- what the order is

  /** Two lists agree up to i, where the first one ends or has the smaller number. */
  predicate SmallerAt(a: seq<nat>, b: seq<nat>, i: nat) {
    && i <= |a| && i < |b| && a[..i] == b[..i]
    && (i == |a| || a[i] < b[i])
  }

  lemma SameHead(a: seq<nat>, b: seq<nat>, i: nat)
    requires SmallerAt(a, b, i) && i > 0
    ensures a != [] && b != [] && a[0] == b[0]
  {
    assert a[..i][0] == b[..i][0];
  }

  /** The first difference decides. */
  lemma {:induction false} FirstDifference(a: seq<nat>, b: seq<nat>)
    ensures Order(a, b) < 0 <==> exists i: nat :: SmallerAt(a, b, i)
  {
    if a == [] || b == [] || a[0] != b[0] {
      assert Order(a, b) < 0 ==> SmallerAt(a, b, 0);
      if i: nat :| SmallerAt(a, b, i) {
        if i > 0 { SameHead(a, b, i); }
      }
    } else {
      FirstDifference(a[1..], b[1..]);
      assert a == [a[0]] + a[1..] && b == [b[0]] + b[1..];
      if i: nat :| SmallerAt(a[1..], b[1..], i) {
        assert a[..i + 1] == [a[0]] + a[1..][..i] && b[..i + 1] == [b[0]] + b[1..][..i];
        assert SmallerAt(a, b, i + 1);
      }
      if i: nat :| SmallerAt(a, b, i) {
        assert i > 0;
        assert a[1..][..i - 1] == a[..i][1..] && b[1..][..i - 1] == b[..i][1..];
        assert SmallerAt(a[1..], b[1..], i - 1);
      }
    }
  }

  /** Major before minor before patch. */
  predicate Before(x: seq<nat>, y: seq<nat>)
    requires |x| == |y| == 3
  {
    x[0] < y[0] || (x[0] == y[0] && (x[1] < y[1] || (x[1] == y[1] && x[2] < y[2])))
  }

  lemma OrderOfTriples(x: seq<nat>, y: seq<nat>)
    requires |x| == |y| == 3
    ensures Order(x, y) < 0 <==> Before(x, y)
    ensures Order(x, y) > 0 <==> Before(y, x)
    ensures Order(x, y) in {-1, 0, 1}
  {
    OrderTotal(x, y);
    TripleDifference(x, y);
    TripleDifference(y, x);
  }

  lemma TripleDifference(x: seq<nat>, y: seq<nat>)
    requires |x| == |y| == 3
    ensures Order(x, y) < 0 <==> Before(x, y)
  {
    FirstDifference(x, y);
    if i: nat :| SmallerAt(x, y, i) {
      assert i < 3;
      assert forall k :: 0 <= k < i ==> x[..i][k] == y[..i][k];
    }
    if Before(x, y) {
      var i := if x[0] < y[0] then 0 else if x[1] < y[1] then 1 else 2;
      assert SmallerAt(x, y, i);
    }
  }

  /** CompareVersions compares numbers, major first. */
  lemma CompareIsNumeric(a: string, b: string)
    requires Valid(a) && Valid(b)
    ensures Compare(a, b).value == if Before(Triple(a), Triple(b)) then -1 else if Before(Triple(b), Triple(a)) then 1 else 0
    ensures Compare(a, b).value == 0 <==> Triple(a) == Triple(b)
  {
    hide Valid, Triple;
    OrderOfTriples(Triple(a), Triple(b));
    OrderTotal(Triple(a), Triple(b));
  }

  // ----- numerals

  function Digit(d: nat): char
    requires d < 10
  {
    '0' + d as char
  }

  /** A number as it is written. */
  function Numeral(n: nat): (s: string)
    ensures s != "" && AllDigits(s)
  {
    if n < 10 then [Digit(n)] else Numeral(n / 10) + [Digit(n % 10)]
  }

  /** A numeral is read as the number it was written for, leading zeros or not. */
  lemma {:induction false} NumberOfNumeral(n: nat)
    ensures Number(Numeral(n)) == n
  {
    var s := Numeral(n);
    if n < 10 {
      assert s[..0] == "";
    } else {
      NumberOfNumeral(n / 10);
      assert s[..|s| - 1] == Numeral(n / 10);
    }
  }

  lemma {:induction false} LeadingZero(s: string)
    requires AllDigits(s)
    ensures AllDigits("0" + s) && Number("0" + s) == Number(s)
    decreases |s|
  {
    if s == "" {
      assert "0" + s == "0" && "0"[..0] == "";
    } else {
      LeadingZero(s[..|s| - 1]);
      assert ("0" + s)[..|"0" + s| - 1] == "0" + s[..|s| - 1];
    }
  }

  /** A release as it is written. */
  function VersionText(major: nat, minor: nat, patch: nat): string {
    Numeral(major) + "." + Numeral(minor) + "." + Numeral(patch)
  }

  lemma SpacelessTrims(s: string)
    requires forall i :: 0 <= i < |s| ==> !IsSpace(s[i])
    ensures Trim(s) == s
  {
  }

  lemma NumeralPart(n: nat)
    requires n <= MAX_INT
    ensures ParsePart(Numeral(n)) == Some(n) && '.' !in Numeral(n)
    ensures forall i :: 0 <= i < |Numeral(n)| ==> !IsSpace(Numeral(n)[i])
  {
    NumberOfNumeral(n);
    hide Numeral, Number;
    var s := Numeral(n);
    assert forall i :: 0 <= i < |s| ==> IsDigit(s[i]);
  }

  /** Every release that is written with numbers of the machine is read as those numbers, by both orders. */
  lemma WrittenIsRead(major: nat, minor: nat, patch: nat)
    requires major <= MAX_INT && minor <= MAX_INT && patch <= MAX_INT
    ensures var v := VersionText(major, minor, patch);
            Plain(v) && Triple(v) == [major, minor, patch] && VersionKey(v) == [major, minor, patch]
  {
    hide Numeral, Number, VersionKey, Trim;
    var a, b, c, v := Numeral(major), Numeral(minor), Numeral(patch), VersionText(major, minor, patch);
    NumeralPart(major);
    NumeralPart(minor);
    NumeralPart(patch);
    JoinDots(a, b, c);
    SplitJoin([a, b, c], '.');
    SpacelessTrims(v);
    assert Parts(v) == [a, b, c];
    assert v[0] == a[0];
    KeysAgreeIff(v);
  }

  /** Written releases compare as their numbers do, whatever the length of the numerals: 4.24.10 comes after 4.24.9. */
  lemma WrittenCompare(x: seq<nat>, y: seq<nat>)
    requires |x| == |y| == 3
    requires forall i :: 0 <= i < 3 ==> x[i] <= MAX_INT && y[i] <= MAX_INT
    ensures var v, w := VersionText(x[0], x[1], x[2]), VersionText(y[0], y[1], y[2]);
            && Compare(v, w) == Some(if Before(x, y) then -1 else if Before(y, x) then 1 else 0)
            && (Newer(w, v) <==> Before(x, y))
  {
    hide VersionText, VersionKey, Number;
    WrittenIsRead(x[0], x[1], x[2]);
    WrittenIsRead(y[0], y[1], y[2]);
    assert x == [x[0], x[1], x[2]] && y == [y[0], y[1], y[2]];
    CompareIsNumeric(VersionText(x[0], x[1], x[2]), VersionText(y[0], y[1], y[2]));
    OrderOfTriples(y, x);
  }

  /** The key of any text, chunk by chunk: the number that its leading digits write, 0 when there are none. */
  lemma {:induction false} KeyAt(chunks: seq<string>, i: nat, digits: string, rest: string)
    requires i < |chunks| && chunks[i] == digits + rest
    requires AllDigits(digits) && (rest == "" || !IsDigit(rest[0]))
    ensures |ChunkKeys(chunks)| == |chunks| && ChunkKeys(chunks)[i] == Number(digits)
  {
    hide Number;
    KeysLength(chunks);
    if i == 0 {
      DigitRunOf(digits, rest);
      assert chunks[0][..|digits|] == digits;
    } else {
      KeyAt(chunks[1..], i - 1, digits, rest);
    }
  }

  lemma {:induction false} KeysLength(chunks: seq<string>)
    ensures |ChunkKeys(chunks)| == |chunks|
  {
    if chunks != [] { KeysLength(chunks[1..]); }
  }

  // ----- the two orders agree

  lemma {:induction false} DigitRunOf(w: string, rest: string)
    requires AllDigits(w) && (rest == "" || !IsDigit(rest[0]))
    ensures DigitRun(w + rest) == |w|
  {
    if w == "" {
      assert w + rest == rest;
    } else {
      assert (w + rest)[1..] == w[1..] + rest;
      DigitRunOf(w[1..], rest);
    }
  }

  lemma {:induction false} TrimLeftSplits(s: string) returns (l: string)
    ensures s == l + TrimLeft(s) && forall i :: 0 <= i < |l| ==> IsSpace(l[i])
    ensures l == "" <==> s == "" || !IsSpace(s[0])
  {
    hide IsSpace;
    if s != "" && IsSpace(s[0]) {
      l := TrimLeftSplits(s[1..]);
      l := [s[0]] + l;
      assert s == [s[0]] + s[1..];
    } else {
      l := "";
    }
  }

  lemma {:induction false} TrimRightSplits(s: string) returns (r: string)
    ensures s == TrimRight(s) + r && forall i :: 0 <= i < |r| ==> IsSpace(r[i])
    decreases |s|
  {
    hide IsSpace;
    if s != "" && IsSpace(s[|s| - 1]) {
      var init, last := s[..|s| - 1], s[|s| - 1];
      var rest := TrimRightSplits(init);
      r := rest + [last];
      assert TrimRight(s) == TrimRight(init);
      assert s == init + [last] == TrimRight(init) + rest + [last];
    } else {
      r := "";
      assert TrimRight(s) == s;
    }
  }

  /** Surrounding white space stays with the outermost of the three parts. */
  lemma SplitPadded(l: string, t: string, r: string)
    requires '.' !in l && '.' !in r && |SplitOn(t, '.')| == 3
    ensures var p := SplitOn(t, '.'); SplitOn(l + t + r, '.') == [l + p[0], p[1], p[2] + r]
  {
    hide SplitOn, Join;
    var p := SplitOn(t, '.');
    JoinSplit(t, '.');
    SplitOnParts(t, '.');
    assert p == [p[0], p[1], p[2]];
    JoinDots(p[0], p[1], p[2]);
    JoinDots(l + p[0], p[1], p[2] + r);
    Padding(l, p[0], p[1], p[2], r);
    SplitJoin([l + p[0], p[1], p[2] + r], '.');
  }

  lemma Padding(l: string, a: string, b: string, c: string, r: string)
    ensures l + (a + "." + b + "." + c) + r == (l + a) + "." + b + "." + (c + r)
  {
  }

  lemma JoinDots(a: string, b: string, c: string)
    ensures Join([a, b, c], ['.']) == a + "." + b + "." + c
  {
    assert [a, b, c][1..] == [b, c] && [b, c][1..] == [c];
    assert Join([b, c], ['.']) == b + "." + c;
    assert a + "." + (b + "." + c) == a + "." + b + "." + c;
  }

  lemma PaddedKeys(l: string, p: string, r: string)
    requires ParsePart(p).Some?
    requires forall i :: 0 <= i < |l| ==> IsSpace(l[i])
    requires forall i :: 0 <= i < |r| ==> IsSpace(r[i])
    ensures ChunkKey(l + p) == if l == "" then Number(p) else 0
    ensures ChunkKey(p + r) == Number(p)
  {
    DigitRunOf(p, r);
    assert (p + r)[..|p|] == p;
    if l == "" {
      assert l + p == p == p + "";
      DigitRunOf(p, "");
      assert p[..|p|] == p;
    } else {
      assert (l + p)[0] == l[0] && !IsDigit(l[0]);
      assert (l + p)[..0] == "";
    }
  }

  /**
   On a version the entrypoint accepts, the watcher's key is the same triple,
   except that the entrypoint trims leading white space and the watcher does
   not: with leading white space the watcher reads the major number as 0.
   */
  lemma KeysAgreeIff(v: string)
    requires Valid(v)
    ensures VersionKey(v) == Triple(v) <==> !IsSpace(v[0]) || Triple(v)[0] == 0
    ensures |VersionKey(v)| == 3 && VersionKey(v)[1..] == Triple(v)[1..]
  {
    var l := TrimLeftSplits(v);
    var r := TrimRightSplits(TrimLeft(v));
    var t := Trim(v);
    assert v == l + t + r;
    NoDot(l);
    NoDot(r);
    SplitPadded(l, t, r);
    var p := Parts(v);
    PaddedKeys(l, p[0], "");
    PaddedKeys("", p[1], "");
    PaddedKeys("", p[2], r);
    assert p[1] + "" == p[1];
    ThreeKeys(l + p[0], p[1], p[2] + r);
  }

  lemma NoDot(s: string)
    requires forall i :: 0 <= i < |s| ==> IsSpace(s[i])
    ensures '.' !in s
  {
  }

  lemma ThreeKeys(a: string, b: string, c: string)
    ensures ChunkKeys([a, b, c]) == [ChunkKey(a), ChunkKey(b), ChunkKey(c)]
  {
    assert [a, b, c][1..] == [b, c] && [b, c][1..] == [c] && [c][1..] == [];
    assert ChunkKeys([c]) == [ChunkKey(c)];
    assert ChunkKeys([b, c]) == [ChunkKey(b)] + ChunkKeys([c]);
  }

  /** A version as a catalog holds it: three decimal numbers, no white space. */
  predicate Plain(v: string) {
    Valid(v) && !IsSpace(v[0])
  }

  /** One order end to end: what the watcher calls newer is what the entrypoint calls newer. */
  lemma OneOrder(a: string, b: string)
    requires Plain(a) && Plain(b)
    ensures Newer(a, b) <==> Compare(a, b).value > 0
    ensures Compare(a, b).value == 0 <==> VersionKey(a) == VersionKey(b)
  {
    KeysAgreeIff(a);
    KeysAgreeIff(b);
    OrderTotal(VersionKey(a), VersionKey(b));
  }
}
