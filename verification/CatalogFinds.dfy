/**
 Which keys of versions.yaml an edit can find. YAML reads a branch's keys
 wherever they stand; the writer looks for them in a block that any line
 indented two spaces or less ends, a comment included.
 */
module CatalogFinds {
  import opened Text
  import opened Catalog
  import opened CatalogEdits

  // ----- declared once

  lemma {:induction false} SeenAt(decode: string -> Option<string>, lines: seq<string>, i: nat)
    requires i < |lines| && Load(decode, lines).Some? && AddressAt(lines, i).Some?
    ensures AddressAt(lines, i).value in Load(decode, lines).value.seen
    decreases |lines|
  {
    hide RowOf, Next, Walk;
    var n := |lines| - 1;
    LoadUnfold(decode, lines);
    if i < n {
      assert lines[..n][..i] == lines[..i];
      assert AddressAt(lines[..n], i) == AddressAt(lines, i);
      SeenAt(decode, lines[..n], i);
    }
  }

  lemma {:induction false} LoadPrefix(decode: string -> Option<string>, lines: seq<string>, n: nat)
    requires n <= |lines| && Load(decode, lines).Some?
    ensures Load(decode, lines[..n]).Some?
    decreases |lines|
  {
    hide RowOf, Next, Walk, Read;
    if n < |lines| {
      var m := |lines| - 1;
      LoadUnfold(decode, lines);
      assert lines[..m][..n] == lines[..n];
      LoadPrefix(decode, lines[..m], n);
    } else {
      assert lines[..n] == lines;
    }
  }

  /** In a file that reads, nothing is declared twice. */
  lemma DeclaredOnce(decode: string -> Option<string>, lines: seq<string>, i: nat, j: nat)
    requires Load(decode, lines).Some? && i <= j < |lines|
    requires AddressAt(lines, i).Some? && AddressAt(lines, i) == AddressAt(lines, j)
    ensures i == j
  {
    hide RowOf, Next, Walk, AddressOf;
    if i < j {
      LoadPrefix(decode, lines, j + 1);
      LoadUnfold(decode, lines[..j + 1]);
      assert lines[..j + 1][..j] == lines[..j] && lines[..j][..i] == lines[..i] && lines[..j + 1][..i] == lines[..i];
      assert AddressAt(lines[..j], i) == AddressAt(lines, i);
      SeenAt(decode, lines[..j], i);
      assert false;
    }
  }

  // ----- where a branch's keys stand

  /** Line d declares the key of the branch. */
  predicate Declares(lines: seq<string>, d: nat, branch: string, key: Key) {
    d < |lines| && AddressAt(lines, d) == Some(Pin(branch, key))
  }

  /** The branch's block lies in the `branches` section. */
  predicate InSection(lines: seq<string>, branch: string) {
    BlockOf(lines, branch).Some? && Walk(lines[..BlockOf(lines, branch).value.start]) != Some(Outside)
  }

  /** No line between the branch's own and line d is indented two spaces or less. */
  predicate Clear(lines: seq<string>, start: nat, d: nat)
    requires d <= |lines|
  {
    forall k :: start < k < d ==> !EndsBlock(lines[k])
  }

  predicate InPlace(p: Option<Place>, branch: string) {
    p.Some? && Inside(p.value) && p.value.branch == branch
  }

  /** The line that opened the branch which line n stands in. */
  lemma {:induction false} HeadOf(lines: seq<string>, n: nat, branch: string) returns (h: nat)
    requires n <= |lines| && InPlace(Walk(lines[..n]), branch)
    ensures h < n && AddressAt(lines, h) == Some(BranchAt(branch))
    ensures forall k :: h < k <= n ==> InPlace(Walk(lines[..k]), branch)
    decreases n
  {
    hide RowOf, Walk;
    if n == 0 {
      WalkNothing(lines);
      assert false;
    } else {
      assert lines[..n][..n - 1] == lines[..n - 1];
      WalkStep(lines[..n], n - 1);
      assert lines[..n][..n - 1 + 1] == lines[..n] && lines[..n][n - 1] == lines[n - 1];
      var row := RowOf(lines[n - 1]);
      if row.Head? {
        h := n - 1;
      } else {
        h := HeadOf(lines, n - 1, branch);
      }
    }
  }

  lemma WalkNothing(lines: seq<string>)
    ensures Walk(lines[..0]) == Some(Outside)
  {
    assert lines[..0] == [];
  }

  /** The `base` line above a place below it. */
  lemma {:induction false} BaseOf(lines: seq<string>, n: nat, branch: string) returns (p: nat)
    requires n <= |lines| && Walk(lines[..n]) == Some(BelowBase(branch))
    ensures p < n && RowOf(lines[p]) == Base && InPlace(Walk(lines[..p]), branch)
    ensures forall k :: p < k <= n ==> InPlace(Walk(lines[..k]), branch)
    decreases n
  {
    hide RowOf, Walk;
    if n == 0 {
      WalkNothing(lines);
      assert false;
    } else {
      assert lines[..n][..n - 1] == lines[..n - 1];
      WalkStep(lines[..n], n - 1);
      assert lines[..n][..n - 1 + 1] == lines[..n] && lines[..n][n - 1] == lines[n - 1];
      if RowOf(lines[n - 1]).Base? {
        p := n - 1;
      } else {
        p := BaseOf(lines, n - 1, branch);
      }
    }
  }

  lemma {:induction false} StaysInside(lines: seq<string>, b: Block, branch: string, n: nat)
    requires IsBlock(lines, b, branch) && Walk(lines).Some? && b.start < n <= b.end
    requires Walk(lines[..b.start]) != Some(Outside)
    ensures InPlace(Walk(lines[..n]), branch) && AddressAt(lines, b.start) == Some(BranchAt(branch))
  {
    hide RowOf, Walk, EndsBlock, IsHead, Plain;
    WalkStep(lines, n - 1);
    WalkPrefix(lines, n);
    if n - 1 == b.start {
      HeadRowOf(lines[n - 1], branch);
    } else {
      StaysInside(lines, b, branch, n - 1);
      InnerStays(lines[n - 1], Walk(lines[..n - 1]).value, branch);
    }
  }

  lemma InnerStays(line: string, place: Place, branch: string)
    requires !EndsBlock(line) && Inside(place) && place.branch == branch && Next(place, RowOf(line)).Some?
    ensures InPlace(Next(place, RowOf(line)), branch)
  {
    hide KeyRow, HeadRow;
    TrimLeftShortens(line);
  }

  /** The first line that could open the branch is the one that does, and every key of the branch stands below it. */
  lemma HeadIsStart(decode: string -> Option<string>, lines: seq<string>, branch: string, d: nat, key: Key)
    requires Load(decode, lines).Some? && Plain(branch) && InSection(lines, branch) && Declares(lines, d, branch, key)
    ensures BlockOf(lines, branch).value.start < d
    ensures forall k :: BlockOf(lines, branch).value.start < k <= d ==> InPlace(Walk(lines[..k]), branch)
  {
    hide RowOf, Walk, Load, Plain, BlockOf, IsBlock;
    var b := BlockOf(lines, branch).value;
    BlockIsBlock(lines, branch);
    StaysInside(lines, b, branch, b.start + 1);
    DeclaredInside(lines, d, branch, key);
    var h := HeadOf(lines, d, branch);
    if h <= b.start { DeclaredOnce(decode, lines, h, b.start); } else { DeclaredOnce(decode, lines, b.start, h); }
  }

  lemma DeclaredInside(lines: seq<string>, d: nat, branch: string, key: Key)
    requires Declares(lines, d, branch, key)
    ensures InPlace(Walk(lines[..d]), branch) && RowOf(lines[d]).Entry? && RowOf(lines[d]).key == key
  {
    hide RowOf, Walk;
  }

  // ----- a declared key is a key line

  /** What a key or `base` row looks like. */
  lemma RowLine(line: string)
    ensures var r := RowOf(line);
            && (r.Entry? ==> IsKeyLine(line, KeyIndent(r.key), r.key.name))
            && (r.Base? ==> IsKeyLine(line, 4, "base"))
  {
    hide TrimLeft, CleanTail, Plain, IndexOf;
    var n := Indent(line);
    var s := line[n..];
    if Spaces(n) == line[..n] && (n == 4 || n == 6) {
      CutParts(s, ':');
      if Cut(s, ':').Some? {
        var name, rest := Cut(s, ':').value.0, Cut(s, ':').value.1;
        assert line == line[..n] + s;
        assert line == KeyPrefix(n, name) + rest;
      }
    }
  }

  lemma {:induction false} EndBeyond(lines: seq<string>, from: nat, d: nat)
    requires from <= d < |lines| && forall k :: from <= k <= d ==> !EndsBlock(lines[k])
    ensures d < EndFrom(lines, from)
    decreases |lines| - from
  {
    hide EndsBlock;
    if from < d { EndBeyond(lines, from + 1, d); }
  }

  lemma {:induction false} KeyFromFinds(lines: seq<string>, from: nat, end: nat, n: nat, name: string, d: nat)
    requires from <= d < end <= |lines| && IsKeyLine(lines[d], n, name)
    ensures KeyFrom(lines, from, end, n, name).Some? && KeyFrom(lines, from, end, n, name).value <= d
    decreases d - from
  {
    hide IsKeyLine;
    if from < d { KeyFromFinds(lines, from + 1, end, n, name, d); }
  }

  lemma EntryInBlock(line: string)
    requires RowOf(line).Entry? && Known(RowOf(line).key)
    ensures !EndsBlock(line)
  {
    hide RowOf, EndsBlock, Known, IsKeyLine;
    RowLine(line);
    KeyLineRow(line, RowOf(line).key);
  }

  lemma StartOf(lines: seq<string>, branch: string, d: nat)
    requires BlockOf(lines, branch).Some? && BlockOf(lines, branch).value.start < d < |lines|
    requires Clear(lines, BlockOf(lines, branch).value.start, d) && !EndsBlock(lines[d])
    ensures d < BlockOf(lines, branch).value.end
  {
    hide EndsBlock, HeadFrom, EndFrom;
    EndBeyond(lines, BlockOf(lines, branch).value.start + 1, d);
  }

  /** The `base` line of a key below `base`, inside the branch's block. */
  lemma BaseInBlock(decode: string -> Option<string>, lines: seq<string>, start: nat, d: nat, branch: string, name: string) returns (p: nat)
    requires Load(decode, lines).Some? && start < d && Declares(lines, d, branch, InBase(name))
    requires AddressAt(lines, start) == Some(BranchAt(branch))
    ensures start < p < d && IsKeyLine(lines[p], 4, "base")
  {
    hide RowOf, Walk, IsKeyLine, Load;
    DeclaredInside(lines, d, branch, InBase(name));
    WalkStep(lines, d);
    WalkPrefix(lines, d + 1);
    BelowHere(Walk(lines[..d]).value, RowOf(lines[d]));
    p := BaseOf(lines, d, branch);
    var h := HeadOf(lines, p, branch);
    if h <= start { DeclaredOnce(decode, lines, h, start); } else { DeclaredOnce(decode, lines, start, h); }
    RowLine(lines[p]);
  }

  /** A key in the block is found, one below `base` by way of the `base` line. */
  lemma InBlockIsFound(decode: string -> Option<string>, lines: seq<string>, b: Block, branch: string, d: nat, key: Key)
    requires Load(decode, lines).Some? && b.start < d < b.end <= |lines| && Declares(lines, d, branch, key)
    requires AddressAt(lines, b.start) == Some(BranchAt(branch))
    ensures Locate(lines, b, key).Some?
  {
    hide RowOf, Walk, KeyFrom, IsKeyLine, Load, AddressAt;
    DeclaredRow(lines, d, branch, key);
    RowLine(lines[d]);
    if key.Scalar? {
      KeyFromFinds(lines, b.start, b.end, 4, key.name, d);
    } else {
      var p := BaseInBlock(decode, lines, b.start, d, branch, key.name);
      KeyFromFinds(lines, b.start, b.end, 4, "base", p);
      KeyFromFinds(lines, KeyFrom(lines, b.start, b.end, 4, "base").value + 1, b.end, 6, key.name, d);
    }
  }

  lemma DeclaredRow(lines: seq<string>, d: nat, branch: string, key: Key)
    requires Declares(lines, d, branch, key)
    ensures RowOf(lines[d]).Entry? && RowOf(lines[d]).key == key
  {
    hide RowOf, Walk;
  }

  lemma BelowHere(place: Place, row: Row)
    requires row.Entry? && row.key.InBase? && Inside(place) && Next(place, row).Some?
    ensures place.BelowBase?
  {
  }

  /**
   Exactly when a declared key can be found: when no line between the line that
   opens its branch and its own is indented two spaces or less. YAML reads past
   such a comment; the writer does not.
   */
  lemma FoundIff(decode: string -> Option<string>, lines: seq<string>, branch: string, key: Key, d: nat)
    requires Load(decode, lines).Some? && Plain(branch) && InSection(lines, branch)
    requires Known(key) && Declares(lines, d, branch, key)
    ensures var b := BlockOf(lines, branch).value; var at := Locate(lines, b, key);
            (at.Some? <==> Clear(lines, b.start, d)) && (at.Some? ==> at.value == d)
  {
    hide Load, BlockOf, Plain, Walk, RowOf, IsBlock, Known, Locate, EndsBlock, AddressAt;
    var b := BlockOf(lines, branch).value;
    var at := Locate(lines, b, key);
    BlockIsBlock(lines, branch);
    HeadIsStart(decode, lines, branch, d, key);
    BlockBounds(lines, b, branch);
    StaysInside(lines, b, branch, b.start + 1);
    if at.Some? {
      StaysInside(lines, b, branch, b.end);
      LocatedPins(lines, b, branch, key);
      if at.value <= d { DeclaredOnce(decode, lines, at.value, d); } else { DeclaredOnce(decode, lines, d, at.value); }
    }
    if Clear(lines, b.start, d) {
      DeclaredRow(lines, d, branch, key);
      EntryInBlock(lines[d]);
      StartOf(lines, branch, d);
      InBlockIsFound(decode, lines, b, branch, d, key);
    }
  }

  /** The scalar of a line whose value is replaced. */
  function NewScalar(line: string, p: Pair): string
    requires IsKeyLine(line, KeyIndent(p.key), p.key.name)
  {
    var parts := PartsOf(line, KeyIndent(p.key), p.key.name);
    var m := |KeyPrefix(KeyIndent(p.key), p.key.name)|;
    (if m <= |parts.head| then parts.head[m..] else "") + QuoteOf(parts) + p.value + QuoteOf(parts) + parts.trail
  }

  /** The value does not hold the line's quote character, and the new scalar reads as the value. */
  predicate Takes(decode: string -> Option<string>, line: string, p: Pair) {
    && IsKeyLine(line, KeyIndent(p.key), p.key.name)
    && (var q := QuoteOf(PartsOf(line, KeyIndent(p.key), p.key.name)); q == "" || q[0] !in p.value)
    && decode(NewScalar(line, p)) == Some(p.value)
  }

  lemma TakesIff(decode: string -> Option<string>, line: string, p: Pair)
    requires IsKeyLine(line, KeyIndent(p.key), p.key.name)
    ensures Takes(decode, line, p) <==>
              var y := Substitute(line, KeyIndent(p.key), p.key.name, p.value); y.Some? && decode(RestOf(y.value, p.key)) == Some(p.value)
  {
    hide IsKeyLine, PartsOf, KeyPrefix, KeyIndent;
    var n, name := KeyIndent(p.key), p.key.name;
    HeadBlanks(line, n, name);
    var parts, m := PartsOf(line, n, name), |KeyPrefix(n, name)|;
    var q := QuoteOf(parts);
    var out := parts.head + q + p.value + q + parts.trail;
    assert out[m..] == parts.head[m..] + q + p.value + q + parts.trail;
  }

  /**
   Exactly when one edit of a file that reads is accepted: the key is known, no
   line between the branch's line and the key's is indented two spaces or less,
   and the line takes the value.
   */
  lemma SetOneIff(decode: string -> Option<string>, lines: seq<string>, branch: string, p: Pair, d: nat)
    requires Load(decode, lines).Some? && Plain(branch) && InSection(lines, branch)
    requires Declares(lines, d, branch, p.key)
    ensures SetKeys(decode, lines, branch, [p]).Some? <==>
              Known(p.key) && Clear(lines, BlockOf(lines, branch).value.start, d) && Takes(decode, lines[d], p)
  {
    hide Load, BlockOf, Plain, Walk, RowOf, IsBlock, Known, Locate, EndsBlock, AddressAt, Takes, Substitute, IsKeyLine;
    var b := BlockOf(lines, branch).value;
    BlockIsBlock(lines, branch);
    BlockBounds(lines, b, branch);
    StaysInside(lines, b, branch, b.end);
    AcceptedIff(decode, lines, branch, p);
    if Known(p.key) {
      FoundIff(decode, lines, branch, p.key, d);
      DeclaredRow(lines, d, branch, p.key);
      RowLine(lines[d]);
      TakesIff(decode, lines[d], p);
    }
  }

  /** A key that the branch does not declare is refused, and so is an unknown one. */
  lemma UndeclaredIsRefused(decode: string -> Option<string>, lines: seq<string>, branch: string, p: Pair)
    requires Load(decode, lines).Some? && Plain(branch) && InSection(lines, branch)
    requires !Known(p.key) || forall d :: 0 <= d < |lines| ==> !Declares(lines, d, branch, p.key)
    ensures SetKeys(decode, lines, branch, [p]).None?
  {
    hide Load, BlockOf, Plain, Walk, RowOf, IsBlock, Known, Locate, EndsBlock, AddressAt, Substitute, IsKeyLine;
    var b := BlockOf(lines, branch).value;
    BlockIsBlock(lines, branch);
    BlockBounds(lines, b, branch);
    StaysInside(lines, b, branch, b.end);
    AcceptedIff(decode, lines, branch, p);
    if Known(p.key) && Locate(lines, b, p.key).Some? {
      LocatedPins(lines, b, branch, p.key);
      assert Declares(lines, Locate(lines, b, p.key).value, branch, p.key);
    }
  }

  // ----- a file in which a declared key is not found

  lemma SectionRow(line: string)
    requires line == "branches:"
    ensures RowOf(line) == Top(true)
  {
    IndentOf(line, 0);
    CutAtFirst("branches", ':', "");
    assert line == "branches" + [':'] + "" && line[0..] == line;
  }

  lemma QuotedHead(s: string, branch: string)
    requires Plain(branch) && s == ['"'] + branch + ['"'] + ":"
    ensures HeadRow(s) == Head(branch) && Quoted(s) && NameTail(s[1..], branch)
  {
    hide Plain, IndexOf, TrimLeft;
    QuoteNotPlain(branch);
    assert s[1..] == branch + ['"'] + ":";
    CutAtFirst(branch, '"', ":");
    assert s[|branch| + 2] == ':' && s[|branch| + 3..] == "";
    assert s[1..][..|branch|] == branch && s[1..][|branch|..] == ['"'] + ":" && (['"'] + ":")[1..] == ":";
    ColonOnly();
  }

  lemma ColonOnly()
    ensures ColonTail(":")
  {
    assert ":"[1..] == "" && TrimLeft("") == "";
  }

  lemma BranchRow(line: string, branch: string)
    requires Plain(branch) && line == Spaces(2) + (['"'] + branch + ['"'] + ":")
    ensures RowOf(line) == Head(branch) && IsHead(line, branch)
  {
    hide Plain, TrimLeft, HeadRow, NameTail, KeyRow;
    var s := line[2..];
    assert s == ['"'] + branch + ['"'] + ":" && line[..2] == Spaces(2);
    IndentOf(line, 2);
    QuotedHead(s, branch);
  }

  lemma QuoteNotPlain(s: string)
    requires Plain(s)
    ensures '"' !in s
  {
    forall i | 0 <= i < |s|
      ensures s[i] != '"'
    {
      PlainFacts(s, i);
    }
  }

  lemma ShallowComment(line: string)
    requires line == "  # note"
    ensures RowOf(line) == Skip && EndsBlock(line)
  {
    IndentOf(line, 2);
  }

  lemma RevisionRow(line: string)
    requires line == "    revision: 1"
    ensures RowOf(line) == Entry(Scalar("revision"), " 1")
  {
    hide RowOf;
    assert Spaces(4) == "    " && KeyPrefix(4, "revision") == "    revision:";
    KeyLineRow(line, Scalar("revision"));
  }

  lemma FourRows(decode: string -> Option<string>, lines: seq<string>, branch: string)
    requires |lines| == 4 && decode(" 1") == Some("1")
    requires RowOf(lines[0]) == Top(true) && RowOf(lines[1]) == Head(branch) && RowOf(lines[2]) == Skip
    requires RowOf(lines[3]) == Entry(Scalar("revision"), " 1")
    ensures Load(decode, lines).Some? && Declares(lines, 3, branch, Scalar("revision"))
    ensures Load(decode, lines).value.values == map[Pin(branch, Scalar("revision")) := "1"]
    ensures Walk(lines[..1]) == Some(Branches)
  {
    hide RowOf;
    var a, b, c := lines[..1], lines[..2], lines[..3];
    assert a[..0] == [] && b[..1] == a && c[..2] == b && lines[..3] == c && lines[..4] == lines;
    assert a[0] == lines[0] && b[1] == lines[1] && c[2] == lines[2];
    assert Walk(a) == Some(Branches) && Walk(b) == Some(InBranch(branch)) && Walk(c) == Walk(b);
    assert Load(decode, a) == Some(Reading({} + {Section}, map[]));
    assert Load(decode, b) == Some(Reading({} + {Section} + {BranchAt(branch)}, map[]));
    assert Load(decode, c) == Load(decode, b);
  }

  lemma SecondLineIsStart(lines: seq<string>, branch: string)
    requires |lines| >= 2 && !IsHead(lines[0], branch) && IsHead(lines[1], branch)
    ensures BlockOf(lines, branch).Some? && BlockOf(lines, branch).value.start == 1
  {
    hide IsHead, EndsBlock, EndFrom;
    assert HeadFrom(lines, 1, branch) == 1;
  }

  const CUT_FILE := ["branches:", "  \"4.24\":", "  # note", "    revision: 1"]

  /** The file declares revision 1 of 4.24, below a comment; whatever the value, setting it is refused. */
  lemma CutFileRefuses(decode: string -> Option<string>, lines: seq<string>, branch: string, value: string)
    requires lines == CUT_FILE && branch == "4.24" && decode(" 1") == Some("1")
    ensures Load(decode, lines).Some? && Load(decode, lines).value.values == map[Pin(branch, Scalar("revision")) := "1"]
    ensures SetKeys(decode, lines, branch, [Pair(Scalar("revision"), value)]) == None
  {
    hide RowOf, IsHead, Load, Walk, EndsBlock, BlockOf, SetKeys, AddressAt;
    assert Plain(branch);
    SectionRow(lines[0]);
    assert lines[1] == Spaces(2) + (['"'] + branch + ['"'] + ":") by { assert Spaces(2) == "  "; }
    BranchRow(lines[1], branch);
    ShallowComment(lines[2]);
    RevisionRow(lines[3]);
    FourRows(decode, lines, branch);
    NoHead(lines[0], branch);
    SecondLineIsStart(lines, branch);
    SetOneIff(decode, lines, branch, Pair(Scalar("revision"), value), 3);
  }

  lemma NoHead(line: string, branch: string)
    requires line == "branches:"
    ensures !IsHead(line, branch)
  {
    assert Spaces(2)[0] == ' ';
  }

  // ----- lines by their parts

  predicate BlankText(s: string) {
    forall i :: 0 <= i < |s| ==> s[i] == ' ' || s[i] == '\t'
  }

  predicate SpaceText(s: string) {
    forall i :: 0 <= i < |s| ==> IsSpace(s[i])
  }

  /** White space and then nothing or a comment. */
  lemma OnlyCommentIff(s: string)
    ensures OnlyComment(s) <==> exists n: nat :: n <= |s| && SpaceText(s[..n]) && (n == |s| || s[n] == '#')
  {
    TrimLeftShortens(s);
    var m := |s| - |TrimLeft(s)|;
    assert SpaceText(s[..m]);
    if n: nat :| n <= |s| && SpaceText(s[..n]) && (n == |s| || s[n] == '#') {
      assert forall i :: 0 <= i < n ==> IsSpace(s[..n][i]);
      if n < |s| {
        IndentOf(s, n);
      } else {
        AllSpaceTrims(s);
      }
    }
  }

  lemma {:induction false} AllSpaceTrims(s: string)
    requires forall i :: 0 <= i < |s| ==> IsSpace(s[i])
    ensures TrimLeft(s) == ""
  {
    if s != "" { AllSpaceTrims(s[1..]); }
  }

  predicate OptionalQuote(q: string) {
    q == "" || q == "\"" || q == "'"
  }

  lemma Grouped(a: string, q: string, name: string, r: string, tail: string)
    ensures a + (q + (name + (r + ":" + tail))) == a + q + name + r + ":" + tail
  {
  }

  lemma TailParts(t: string, branch: string) returns (r: string, tail: string)
    requires NameTail(t, branch)
    ensures OptionalQuote(r) && OnlyComment(tail) && t == branch + (r + ":" + tail)
  {
    hide OnlyComment;
    var u := t[|branch|..];
    r := if ColonTail(u) then "" else [u[0]];
    tail := u[|r| + 1..];
    assert u == r + ":" + tail;
  }

  lemma TailFromParts(t: string, branch: string, r: string, tail: string)
    requires OptionalQuote(r) && OnlyComment(tail) && t == branch + (r + ":" + tail)
    ensures NameTail(t, branch)
  {
    hide OnlyComment;
    var u := t[|branch|..];
    assert u == r + ":" + tail;
    var v := u[|r|..];
    assert v == ":" + tail && v[1..] == tail;
  }

  lemma TwoSpaces(line: string)
    ensures Spaces(2) <= line <==> |line| >= 2 && line == "  " + line[2..]
  {
    assert Spaces(2) == "  ";
  }

  /** The line that opens a branch's block: two spaces, the name with or without quotes, a colon, and at most a comment. */
  lemma HeadIff(line: string, branch: string)
    ensures IsHead(line, branch) <==>
              exists q, r, tail {:trigger "  " + q + branch + r + ":" + tail} ::
                OptionalQuote(q) && OptionalQuote(r) && OnlyComment(tail) && line == "  " + q + branch + r + ":" + tail
  {
    hide OnlyComment, NameTail, Spaces;
    TwoSpaces(line);
    if IsHead(line, branch) {
      var s := line[2..];
      var q := if NameTail(s, branch) then "" else [s[0]];
      var t := s[|q|..];
      assert s == q + t;
      var r, tail := TailParts(t, branch);
      Grouped("  ", q, branch, r, tail);
      assert line == "  " + q + branch + r + ":" + tail;
    }
    if q, r, tail :| OptionalQuote(q) && OptionalQuote(r) && OnlyComment(tail) && line == "  " + q + branch + r + ":" + tail {
      Grouped("  ", q, branch, r, tail);
      var t := branch + (r + ":" + tail);
      TailFromParts(t, branch, r, tail);
      assert line[2..] == q + t;
      assert (q + t)[|q|..] == t;
    }
  }

  /** A line that holds a key: its indentation in spaces, the name, a colon, and anything. */
  lemma KeyLineIff(line: string, indent: nat, name: string)
    ensures IsKeyLine(line, indent, name) <==>
              exists gap, rest {:trigger gap + name + ":" + rest} ::
                |gap| == indent && (forall i :: 0 <= i < indent ==> gap[i] == ' ') && line == gap + name + ":" + rest
  {
    if IsKeyLine(line, indent, name) {
      var gap, rest := Spaces(indent), line[|KeyPrefix(indent, name)|..];
      assert line == gap + name + ":" + rest;
    }
    if gap, rest :| |gap| == indent && (forall i :: 0 <= i < indent ==> gap[i] == ' ') && line == gap + name + ":" + rest {
      assert gap == Spaces(indent);
    }
  }

  /** Blanks and then nothing or a comment. */
  ghost predicate BlankTrail(s: string) {
    exists n: nat :: n <= |s| && BlankText(s[..n]) && (n == |s| || s[n] == '#')
  }

  predicate StartsBlank(s: string) {
    s != "" && (s[0] == ' ' || s[0] == '\t')
  }

  /**
   A replaced line is its head and all the blanks after it, the quotes that
   were there around the new value, and the blanks and the comment behind it.
   */
  lemma SubstitutedIs(line: string, indent: nat, name: string, value: string)
    requires IsKeyLine(line, indent, name) && Substitute(line, indent, name, value).Some?
    ensures exists gap, was, q, trail {:trigger KeyPrefix(indent, name) + gap + was + trail, q + value + q} ::
              && BlankText(gap) && OptionalQuote(q) && (q != "" ==> was != "" && [was[0]] == q)
              && !StartsBlank(was + trail) && BlankTrail(trail)
              && line == KeyPrefix(indent, name) + gap + was + trail
              && Substitute(line, indent, name, value).value == KeyPrefix(indent, name) + gap + (q + value + q) + trail
  {
    hide *;
    var p := PartsOf(line, indent, name);
    var prefix, q := KeyPrefix(indent, name), QuoteOf(p);
    var gap := HeadGap(line, indent, name);
    QuoteIs(p);
    SubstituteIs(line, indent, name, value);
    TrailOfLine(line, indent, name);
    TrailSpelledOut(p.trail);
    Regrouped(prefix, gap, q, value, p.trail);
    assert line == prefix + gap + p.value + p.trail;
    assert Substitute(line, indent, name, value).value == prefix + gap + (q + value + q) + p.trail;
  }

  lemma TrailSpelledOut(s: string)
    ensures IsTrail(s) ==> BlankTrail(s)
  {
    var n := BlankRun(s);
    assert BlankText(s[..n]);
  }

  lemma HeadGap(line: string, indent: nat, name: string) returns (gap: string)
    requires IsKeyLine(line, indent, name)
    ensures BlankText(gap) && PartsOf(line, indent, name).head == KeyPrefix(indent, name) + gap
    ensures !StartsBlank(PartsOf(line, indent, name).value + PartsOf(line, indent, name).trail)
  {
    hide KeyPrefix, ValueLength, IsKeyLine;
    var m := |KeyPrefix(indent, name)|;
    PrefixOf(line, indent, name);
    gap := line[m..][..BlankRun(line[m..])];
    assert PartsOf(line, indent, name).value + PartsOf(line, indent, name).trail == line[m + |gap|..];
  }

  lemma PrefixOf(line: string, indent: nat, name: string)
    requires IsKeyLine(line, indent, name)
    ensures |KeyPrefix(indent, name)| <= |line| && line[..|KeyPrefix(indent, name)|] == KeyPrefix(indent, name)
  {
    hide KeyPrefix;
  }

  lemma QuoteIs(p: Parts)
    ensures OptionalQuote(QuoteOf(p)) && (QuoteOf(p) != "" ==> p.value != "" && [p.value[0]] == QuoteOf(p))
  {
  }

  lemma SubstituteIs(line: string, indent: nat, name: string, value: string)
    requires IsKeyLine(line, indent, name) && Substitute(line, indent, name, value).Some?
    ensures var p := PartsOf(line, indent, name);
            Substitute(line, indent, name, value).value == p.head + QuoteOf(p) + value + QuoteOf(p) + p.trail
  {
    hide PartsOf, QuoteOf, KeyPrefix;
  }

  lemma Regrouped(a: string, b: string, q: string, value: string, trail: string)
    ensures a + b + q + value + q + trail == a + b + (q + value + q) + trail
  {
  }

  /** Nothing, or white space and then nothing or a comment. */
  lemma CleanTailIff(s: string)
    ensures CleanTail(s) <==> s == "" || (IsSpace(s[0]) && exists n: nat :: n <= |s| && SpaceText(s[..n]) && (n == |s| || s[n] == '#'))
  {
    OnlyCommentIff(s);
  }

  /** What a branch's line, the line of `base` and the line of the section are when the file is read. */
  lemma RowsSpelledOut(line: string, branch: string)
    ensures RowOf(line) == Head(branch) ==>
              Plain(branch) && exists q, tail {:trigger "  " + q + branch + q + ":" + tail} ::
                (q == "'" || q == "\"") && CleanTail(tail) && line == "  " + q + branch + q + ":" + tail
    ensures RowOf(line) == Base ==> exists tail {:trigger "    base:" + tail} :: CleanTail(tail) && line == "    base:" + tail
    ensures RowOf(line) == Top(true) ==> exists tail {:trigger "branches:" + tail} :: CleanTail(tail) && line == "branches:" + tail
  {
    hide *;
    if RowOf(line) == Head(branch) { HeadSpelledOut(line, branch); }
    if RowOf(line) == Base { BaseSpelledOut(line); }
    if RowOf(line) == Top(true) { SectionSpelledOut(line); }
  }

  lemma RowText(line: string)
    ensures line == line[..Indent(line)] + line[Indent(line)..]
  {
  }

  lemma HeadSpelledOut(line: string, branch: string)
    requires RowOf(line) == Head(branch)
    ensures Plain(branch) && exists q, tail {:trigger "  " + q + branch + q + ":" + tail} ::
              (q == "'" || q == "\"") && CleanTail(tail) && line == "  " + q + branch + q + ":" + tail
  {
    hide CleanTail, Plain, TrimLeft, Spaces, HeadRow, KeyRow, Cut;
    RowText(line);
    TwoSpaces(line);
    QuotedParts(line[2..], branch);
  }

  lemma BaseSpelledOut(line: string)
    requires RowOf(line) == Base
    ensures exists tail {:trigger "    base:" + tail} :: CleanTail(tail) && line == "    base:" + tail
  {
    hide CleanTail, Plain, TrimLeft, Spaces, HeadRow, Cut;
    RowText(line);
    FourSpaces();
    CutParts(line[4..], ':');
    assert line == "    base:" + Cut(line[4..], ':').value.1;
  }

  lemma SectionSpelledOut(line: string)
    requires RowOf(line) == Top(true)
    ensures exists tail {:trigger "branches:" + tail} :: CleanTail(tail) && line == "branches:" + tail
  {
    hide CleanTail, Plain, TrimLeft, Spaces, HeadRow, KeyRow, Cut;
    RowText(line);
    CutParts(line, ':');
    assert line[0..] == line;
    assert line == "branches:" + Cut(line, ':').value.1;
  }

  lemma FourSpaces()
    ensures Spaces(4) == "    "
  {
    assert Spaces(3) == "   ";
  }

  lemma QuotedParts(s: string, branch: string)
    requires HeadRow(s) == Head(branch)
    ensures Plain(branch) && exists q, tail {:trigger "  " + q + branch + q + ":" + tail} ::
              (q == "'" || q == "\"") && CleanTail(tail) && "  " + s == "  " + q + branch + q + ":" + tail
  {
    hide CleanTail, Plain;
    var n := IndexOf(s[1..], s[0]);
    IndexFacts(s[1..], s[0]);
    var q, tail := [s[0]], s[n + 3..];
    assert s[1..][n] == s[n + 1] && s[n + 1] == s[0];
    assert s == q + s[1..][..n] + q + ":" + tail;
    assert "  " + s == "  " + q + branch + q + ":" + tail;
  }

  // ----- several edits

  lemma {:induction false} HeadFromFirst(lines: seq<string>, from: nat, branch: string, i: nat)
    requires from <= i < |lines| && IsHead(lines[i], branch) && forall k :: from <= k < i ==> !IsHead(lines[k], branch)
    ensures HeadFrom(lines, from, branch) == i
    decreases i - from
  {
    hide IsHead;
    if from < i { HeadFromFirst(lines, from + 1, branch, i); }
  }

  lemma {:induction false} NoHeadBefore(lines: seq<string>, from: nat, branch: string)
    requires from <= |lines|
    ensures forall k :: from <= k < HeadFrom(lines, from, branch) ==> !IsHead(lines[k], branch)
    decreases |lines| - from
  {
    hide IsHead;
    if from < |lines| && !IsHead(lines[from], branch) { NoHeadBefore(lines, from + 1, branch); }
  }

  lemma {:induction false} EndFromFirst(lines: seq<string>, from: nat, i: nat)
    requires from <= i <= |lines| && (i < |lines| ==> EndsBlock(lines[i])) && forall k :: from <= k < i ==> !EndsBlock(lines[k])
    ensures EndFrom(lines, from) == i
    decreases i - from
  {
    hide EndsBlock;
    if from < i { EndFromFirst(lines, from + 1, i); }
  }

  lemma {:induction false} EndFromEnds(lines: seq<string>, from: nat)
    requires from <= |lines|
    ensures EndFrom(lines, from) < |lines| ==> EndsBlock(lines[EndFrom(lines, from)])
    decreases |lines| - from
  {
    hide EndsBlock;
    if from < |lines| && !EndsBlock(lines[from]) { EndFromEnds(lines, from + 1); }
  }

  /** An edit of one line leaves the block where it was. */
  lemma BlockStays(lines: seq<string>, branch: string, p: Pair)
    requires Plain(branch) && BlockOf(lines, branch).Some? && EditOne(lines, BlockOf(lines, branch).value, p).Some?
    ensures BlockOf(EditOne(lines, BlockOf(lines, branch).value, p).value, branch) == BlockOf(lines, branch)
  {
    hide IsHead, EndsBlock, Plain, Known, Substitute, Locate, KeyPrefix, IsKeyLine, SameSkeleton;
    var b := BlockOf(lines, branch).value;
    var out := EditOne(lines, b, p).value;
    BlockIsBlock(lines, branch);
    EditOneKeeps(lines, b, branch, p);
    LocatedInside(lines, b, branch, p.key);
    NoHeadBefore(lines, 0, branch);
    EndFromEnds(lines, b.start + 1);
    HeadFromFirst(out, 0, branch, b.start);
    EndFromFirst(out, b.start + 1, b.end);
  }

  /**
   Edits of different keys compose: when one is accepted, and others then are,
   they are accepted together, with the same file as the outcome.
   */
  lemma EditsCompose(decode: string -> Option<string>, lines: seq<string>, branch: string, p: Pair, ps: seq<Pair>)
    requires Plain(branch) && Load(decode, lines).Some? && forall q :: q in ps ==> q.key != p.key
    requires SetKeys(decode, lines, branch, [p]).Some? && SetKeys(decode, SetKeys(decode, lines, branch, [p]).value, branch, ps).Some?
    ensures SetKeys(decode, lines, branch, [p] + ps) == SetKeys(decode, SetKeys(decode, lines, branch, [p]).value, branch, ps)
  {
    hide Load, BlockOf, Plain, EditOne, Updated;
    var b := BlockOf(lines, branch).value;
    var once := SetKeys(decode, lines, branch, [p]).value;
    var out := SetKeys(decode, once, branch, ps).value;
    OnePair(lines, b, p);
    BlockStays(lines, branch, p);
    assert ([p] + ps)[0] == p && ([p] + ps)[1..] == ps && p in [p];
    assert EditAll(lines, b, [p] + ps) == Some(out);
    SetKeysRefinesUpdate(decode, once, branch, ps);
    UpdatedAt(Load(decode, once).value.values, branch, ps, Pin(branch, p.key));
    forall q | q in [p] + ps
      ensures Pin(branch, q.key) in Load(decode, out).value.values && Load(decode, out).value.values[Pin(branch, q.key)] == q.value
    {
    }
  }
}
