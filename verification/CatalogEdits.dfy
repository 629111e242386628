/**
 What an edit of versions.yaml does to the catalog the file reads as, and to
 its text: it is a map update, it touches nothing but the scalars asked for,
 and it is refused only for reasons a caller can see.
 */
module CatalogEdits {
  import opened Text
  import opened Catalog

  // ----- what one line declares

  lemma KnownPlain(key: Key)
    requires Known(key)
    ensures Plain(key.name) && key.name != "base"
  {
  }

  lemma PlainFacts(s: string, i: nat)
    requires Plain(s) && i < |s|
    ensures !IsSpace(s[i]) && !IsQuote(s[i]) && s[i] != ':' && s[i] != '#' && s[i] != ' '
  {
  }

  lemma PlainNoColon(s: string)
    requires Plain(s)
    ensures ':' !in s
  {
    forall i | 0 <= i < |s|
      ensures s[i] != ':'
    {
      PlainFacts(s, i);
    }
  }

  lemma KeyLineParts(line: string, n: nat, name: string)
    requires (n == 4 || n == 6) && Plain(name) && IsKeyLine(line, n, name)
    ensures RowOf(line) == KeyRow(line[n..], n) && Indent(line) == n
    ensures Cut(line[n..], ':') == Some((name, line[|KeyPrefix(n, name)|..]))
    ensures !EndsBlock(line)
  {
    hide Plain, TrimLeft, KeyRow;
    var rest := line[|KeyPrefix(n, name)|..];
    assert line == Spaces(n) + (name + ":" + rest);
    assert line[..n] == Spaces(n) && line[n..] == name + [':'] + rest;
    NonEmpty(name);
    PlainFacts(name, 0);
    assert line[n] == name[0];
    IndentOf(line, n);
    PlainNoColon(name);
    CutAtFirst(name, ':', rest);
  }

  /** A line found for a key declares that key, whatever follows its colon. */
  lemma KeyLineRow(line: string, key: Key)
    requires Known(key) && IsKeyLine(line, KeyIndent(key), key.name)
    ensures RowOf(line) == Entry(key, line[|KeyPrefix(KeyIndent(key), key.name)|..])
    ensures !EndsBlock(line)
  {
    hide Known, RowOf, EndsBlock, IsKeyLine, KeyPrefix, Plain;
    KnownPlain(key);
    KeyLineParts(line, KeyIndent(key), key.name);
  }

  /** A line holds at most one key. */
  lemma OneKeyPerLine(line: string, n: nat, name: string, n': nat, name': string)
    requires (n == 4 || n == 6) && (n' == 4 || n' == 6) && Plain(name) && Plain(name')
    requires IsKeyLine(line, n, name) && IsKeyLine(line, n', name')
    ensures n == n' && name == name'
  {
    hide RowOf, KeyRow, EndsBlock, IsKeyLine, KeyPrefix, Plain;
    KeyLineParts(line, n, name);
    KeyLineParts(line, n', name');
  }

  lemma NonEmpty(name: string)
    requires Plain(name)
    ensures name != ""
  {
  }

  /** The line that opens the block of a branch declares that branch, or does not fit the shape. */
  lemma HeadRowOf(line: string, branch: string)
    requires Plain(branch) && IsHead(line, branch)
    ensures RowOf(line) == Head(branch) || RowOf(line) == Odd
  {
    hide Plain, TrimLeft, OnlyComment, CleanTail;
    NonEmpty(branch);
    PlainFacts(branch, 0);
    var s := line[2..];
    assert line[..2] == Spaces(2) && !IsSpace(s[0]);
    assert forall i :: 0 <= i < 2 ==> line[i] == Spaces(2)[i];
    IndentOf(line, 2);
    if Quoted(s) && HeadRow(s).Head? {
      IndexFacts(s[1..], s[0]);
      SameName(s[1..], branch, HeadRow(s).branch);
    }
  }

  lemma SameName(s: string, a: string, b: string)
    requires Plain(a) && Plain(b) && a <= s && b <= s
    requires |a| < |s| && |b| < |s| && !PlainChar(s[|a|]) && !PlainChar(s[|b|])
    ensures a == b
  {
    hide PlainChar;
    assert forall i :: 0 <= i < |a| ==> PlainChar(s[i]) && s[i] == a[i];
    assert forall i :: 0 <= i < |b| ==> PlainChar(s[i]) && s[i] == b[i];
    assert |a| == |b|;
  }

  // ----- files of one skeleton

  predicate SameKind(a: Row, b: Row) {
    if a.Entry? then b.Entry? && a.key == b.key else a == b
  }

  /** Line for line the same declarations; only scalars may differ. */
  ghost predicate SameSkeleton(a: seq<string>, b: seq<string>) {
    |a| == |b| && forall i :: 0 <= i < |a| ==> SameKind(RowOf(a[i]), RowOf(b[i]))
  }

  /** What line `i` of a file declares. */
  function AddressAt(lines: seq<string>, i: nat): Option<Address>
    requires i < |lines|
  {
    match Walk(lines[..i])
    case None => None
    case Some(place) => AddressOf(place, RowOf(lines[i]))
  }

  lemma SkeletonPrefix(a: seq<string>, b: seq<string>, n: nat)
    requires SameSkeleton(a, b) && n <= |a|
    ensures SameSkeleton(a[..n], b[..n])
  {
    hide SameKind, RowOf;
  }

  lemma {:induction false} SkeletonWalks(a: seq<string>, b: seq<string>)
    requires SameSkeleton(a, b)
    ensures Walk(a) == Walk(b)
    decreases |a|
  {
    hide RowOf;
    if a != [] {
      var n := |a| - 1;
      SkeletonPrefix(a, b, n);
      SkeletonWalks(a[..n], b[..n]);
      assert SameKind(RowOf(a[n]), RowOf(b[n]));
    }
  }

  lemma {:induction false} WalkPrefix(lines: seq<string>, n: nat)
    requires n <= |lines| && Walk(lines).Some?
    ensures Walk(lines[..n]).Some?
    decreases |lines|
  {
    hide RowOf, Next;
    if n < |lines| {
      var m := |lines| - 1;
      assert lines[..m][..n] == lines[..n];
      WalkPrefix(lines[..m], n);
    } else {
      assert lines[..n] == lines;
    }
  }

  lemma WalkStep(lines: seq<string>, n: nat)
    requires n < |lines| && Walk(lines).Some?
    ensures Walk(lines[..n]).Some? && Walk(lines[..n + 1]) == Next(Walk(lines[..n]).value, RowOf(lines[n]))
  {
    hide RowOf, Next;
    WalkPrefix(lines, n);
    assert lines[..n + 1][..n] == lines[..n];
  }

  /**
   The heart of the edit: two files of one skeleton that both read hold the
   same value wherever no differing line declares it.
   */
  lemma {:induction false} SkeletonReads(decode: string -> Option<string>, a: seq<string>, b: seq<string>, address: Address)
    requires SameSkeleton(a, b) && Load(decode, a).Some? && Load(decode, b).Some?
    requires forall i :: 0 <= i < |a| && a[i] != b[i] ==> AddressAt(a, i) != Some(address)
    ensures Load(decode, a).value.seen == Load(decode, b).value.seen
    ensures Load(decode, a).value.values.Keys == Load(decode, b).value.values.Keys
    ensures address in Load(decode, a).value.values ==>
              Load(decode, a).value.values[address] == Load(decode, b).value.values[address]
    decreases |a|
  {
    hide RowOf, Next, AddressOf;
    if a != [] {
      var n := |a| - 1;
      var x, y := a[..n], b[..n];
      SkeletonPrefix(a, b, n);
      SkeletonWalks(x, y);
      forall i | 0 <= i < n && x[i] != y[i]
        ensures AddressAt(x, i) != Some(address)
      {
        assert x[..i] == a[..i];
        assert AddressAt(a, i) == AddressAt(x, i);
      }
      SkeletonReads(decode, x, y, address);
      ReadStep(decode, Load(decode, x).value, Load(decode, y).value, Walk(x).value, RowOf(a[n]), RowOf(b[n]), address,
               a[n] != b[n]);
      assert a[n] != b[n] ==> AddressAt(a, n) != Some(address);
    }
  }

  lemma ReadStep(decode: string -> Option<string>, r: Reading, s: Reading, place: Place, x: Row, y: Row, address: Address, differ: bool)
    requires SameKind(x, y) && (!differ ==> x == y)
    requires Read(decode, r, place, x).Some? && Read(decode, s, place, y).Some?
    requires r.seen == s.seen && r.values.Keys == s.values.Keys
    requires address in r.values ==> r.values[address] == s.values[address]
    requires differ ==> AddressOf(place, x) != Some(address)
    ensures Read(decode, r, place, x).value.seen == Read(decode, s, place, y).value.seen
    ensures Read(decode, r, place, x).value.values.Keys == Read(decode, s, place, y).value.values.Keys
    ensures address in Read(decode, r, place, x).value.values ==>
              Read(decode, r, place, x).value.values[address] == Read(decode, s, place, y).value.values[address]
  {
    assert AddressOf(place, x) == AddressOf(place, y);
  }

  // ----- a branch's block

  /** Lines that open a branch's block and stay in it. */
  ghost predicate IsBlock(lines: seq<string>, b: Block, branch: string) {
    && b.start < b.end <= |lines| && Plain(branch) && IsHead(lines[b.start], branch)
    && forall k :: b.start < k < b.end ==> !EndsBlock(lines[k])
  }

  predicate Within(place: Place, branch: string) {
    place.Outside? || (Inside(place) && place.branch == branch)
  }

  lemma InnerRow(line: string, place: Place, branch: string)
    requires !EndsBlock(line) && Within(place, branch) && Next(place, RowOf(line)).Some?
    ensures Within(Next(place, RowOf(line)).value, branch)
  {
    hide KeyRow, HeadRow;
    TrimLeftShortens(line);
  }

  /** All through a block of a file in shape, the place is in the branch, or the block is in another section. */
  lemma {:induction false} BlockPlaces(lines: seq<string>, b: Block, branch: string, n: nat)
    requires IsBlock(lines, b, branch) && Walk(lines).Some? && b.start < n <= b.end
    ensures Walk(lines[..n]).Some? && Within(Walk(lines[..n]).value, branch)
  {
    hide RowOf, Walk, Next, EndsBlock, IsHead, Plain;
    WalkStep(lines, n - 1);
    WalkPrefix(lines, n);
    if n - 1 == b.start {
      HeadRowOf(lines[n - 1], branch);
      HeadLeads(Walk(lines[..n - 1]).value, RowOf(lines[n - 1]), branch);
    } else {
      BlockPlaces(lines, b, branch, n - 1);
      InnerRow(lines[n - 1], Walk(lines[..n - 1]).value, branch);
    }
  }

  lemma HeadLeads(place: Place, row: Row, branch: string)
    requires row == Head(branch) || row == Odd
    requires Next(place, row).Some?
    ensures Within(Next(place, row).value, branch)
  {
  }

  lemma HeadIsNoKey(line: string, branch: string, indent: nat, name: string)
    requires Plain(branch) && IsHead(line, branch) && indent > 2
    ensures !IsKeyLine(line, indent, name)
  {
    hide Plain, ColonTail, PlainChar;
    NonEmpty(branch);
    PlainFacts(branch, 0);
    var s := line[2..];
    assert line[2] == s[0] && s[0] != ' ';
    assert KeyPrefix(indent, name)[2] == ' ';
  }

  lemma LocatedInside(lines: seq<string>, b: Block, branch: string, key: Key)
    requires IsBlock(lines, b, branch) && Locate(lines, b, key).Some?
    ensures b.start < Locate(lines, b, key).value
  {
    hide Plain, EndsBlock;
    HeadIsNoKey(lines[b.start], branch, KeyIndent(key), key.name);
  }

  /** The line that a key is found at declares that key of that branch, or nothing. */
  lemma LocatedDeclares(lines: seq<string>, b: Block, branch: string, key: Key)
    requires IsBlock(lines, b, branch) && Walk(lines).Some? && Known(key) && Locate(lines, b, key).Some?
    ensures AddressAt(lines, Locate(lines, b, key).value) in {None, Some(Pin(branch, key))}
    ensures RowOf(lines[Locate(lines, b, key).value]).Entry?
  {
    hide RowOf, Walk, Known, IsBlock, IsKeyLine, Next, Locate;
    BlockBounds(lines, b, branch);
    var i := Locate(lines, b, key).value;
    LocatedInside(lines, b, branch, key);
    KeyLineRow(lines[i], key);
    BlockPlaces(lines, b, branch, i);
    WalkStep(lines, i);
  }

  lemma BlockBounds(lines: seq<string>, b: Block, branch: string)
    requires IsBlock(lines, b, branch)
    ensures b.start < b.end <= |lines|
  {
  }

  // ----- what an edit touches

  lemma SkeletonTransitive(a: seq<string>, b: seq<string>, c: seq<string>)
    requires SameSkeleton(a, b) && SameSkeleton(b, c)
    ensures SameSkeleton(a, c)
  {
    hide RowOf;
    forall i | 0 <= i < |a|
      ensures SameKind(RowOf(a[i]), RowOf(c[i]))
    {
      assert SameKind(RowOf(a[i]), RowOf(b[i])) && SameKind(RowOf(b[i]), RowOf(c[i]));
    }
  }

  lemma SkeletonAddress(a: seq<string>, b: seq<string>, i: nat)
    requires SameSkeleton(a, b) && i < |a|
    ensures AddressAt(a, i) == AddressAt(b, i)
  {
    hide RowOf, Walk;
    SkeletonPrefix(a, b, i);
    SkeletonWalks(a[..i], b[..i]);
    assert SameKind(RowOf(a[i]), RowOf(b[i]));
  }

  lemma EditOneKeeps(lines: seq<string>, b: Block, branch: string, p: Pair)
    requires IsBlock(lines, b, branch) && EditOne(lines, b, p).Some?
    ensures SameSkeleton(lines, EditOne(lines, b, p).value)
    ensures IsBlock(EditOne(lines, b, p).value, b, branch)
  {
    hide RowOf, Known, Locate, IsKeyLine, Substitute, KeyPrefix, IsHead, EndsBlock, Plain;
    var out, i := EditOne(lines, b, p).value, Locate(lines, b, p.key).value;
    LocatedInside(lines, b, branch, p.key);
    KeyLineRow(lines[i], p.key);
    KeyLineRow(out[i], p.key);
    forall j | 0 <= j < |lines|
      ensures SameKind(RowOf(lines[j]), RowOf(out[j]))
    {
      if j != i { assert out[j] == lines[j]; }
    }
    assert out[b.start] == lines[b.start];
  }

  /** The line declares nothing that is read, or one of the keys that are set. */
  ghost predicate Targeted(lines: seq<string>, i: nat, branch: string, pairs: seq<Pair>)
    requires i < |lines|
  {
    AddressAt(lines, i).None? || exists p :: p in pairs && AddressAt(lines, i) == Some(Pin(branch, p.key))
  }

  lemma {:induction false} EditAllKeeps(lines: seq<string>, b: Block, branch: string, pairs: seq<Pair>)
    requires IsBlock(lines, b, branch) && EditAll(lines, b, pairs).Some?
    ensures SameSkeleton(lines, EditAll(lines, b, pairs).value)
    ensures Walk(lines).Some? ==>
              forall i :: 0 <= i < |lines| && EditAll(lines, b, pairs).value[i] != lines[i] ==> Targeted(lines, i, branch, pairs)
    decreases |pairs|
  {
    hide RowOf, Walk, AddressAt, Known, Locate, Substitute, Plain, IsHead, EndsBlock;
    if pairs != [] {
      var p, next := pairs[0], EditOne(lines, b, pairs[0]).value;
      var out := EditAll(lines, b, pairs).value;
      EditOneKeeps(lines, b, branch, p);
      EditAllKeeps(next, b, branch, pairs[1..]);
      SkeletonTransitive(lines, next, out);
      SkeletonWalks(lines, next);
      if Walk(lines).Some? {
        forall i | 0 <= i < |lines| && out[i] != lines[i]
          ensures Targeted(lines, i, branch, pairs)
        {
          SkeletonAddress(lines, next, i);
          if out[i] == next[i] {
            LocatedDeclares(lines, b, branch, p.key);
            assert p in pairs;
          }
        }
      }
    }
  }

  // ----- the edit refines a map update

  /** The catalog with the pairs set. */
  function Updated(values: map<Address, string>, branch: string, pairs: seq<Pair>): map<Address, string>
    decreases |pairs|
  {
    if pairs == [] then values
    else
      var n := |pairs| - 1;
      Updated(values, branch, pairs[..n])[Pin(branch, pairs[n].key) := pairs[n].value]
  }

  lemma {:induction false} UpdatedAt(values: map<Address, string>, branch: string, pairs: seq<Pair>, a: Address)
    ensures a in Updated(values, branch, pairs) <==> a in values || exists p :: p in pairs && a == Pin(branch, p.key)
    ensures (exists p :: p in pairs && a == Pin(branch, p.key)) ==>
              exists p :: p in pairs && a == Pin(branch, p.key) && Updated(values, branch, pairs)[a] == p.value
    ensures a in values && !(exists p :: p in pairs && a == Pin(branch, p.key)) ==> Updated(values, branch, pairs)[a] == values[a]
    decreases |pairs|
  {
    if pairs != [] {
      var n := |pairs| - 1;
      assert pairs == pairs[..n] + [pairs[n]];
      UpdatedAt(values, branch, pairs[..n], a);
    }
  }

  lemma HeadPlain(line: string)
    ensures RowOf(line).Head? ==> Plain(RowOf(line).branch)
  {
    hide Plain;
  }

  /** Everything read is a key of a branch with a plain name. */
  lemma {:induction false} LoadedPlain(decode: string -> Option<string>, lines: seq<string>)
    requires Load(decode, lines).Some?
    ensures Inside(Walk(lines).value) ==> Plain(Walk(lines).value.branch)
    ensures forall a :: a in Load(decode, lines).value.values ==> a.Pin? && Plain(a.branch)
    decreases |lines|
  {
    hide RowOf, Plain;
    if lines != [] {
      LoadedPlain(decode, lines[..|lines| - 1]);
      HeadPlain(lines[|lines| - 1]);
    }
  }

  lemma BlockIsBlock(lines: seq<string>, branch: string)
    requires BlockOf(lines, branch).Some? && Plain(branch)
    ensures IsBlock(lines, BlockOf(lines, branch).value, branch)
  {
    hide Plain, IsHead, EndsBlock;
  }

  /**
   A successful edit is a map update: in the catalog that the new file reads
   as, the requested pairs have the requested values and every other pair of
   every branch is as it was.
   */
  lemma SetKeysRefinesUpdate(decode: string -> Option<string>, lines: seq<string>, branch: string, pairs: seq<Pair>)
    requires SetKeys(decode, lines, branch, pairs).Some? && Load(decode, lines).Some?
    ensures Load(decode, SetKeys(decode, lines, branch, pairs).value).Some?
    ensures Load(decode, SetKeys(decode, lines, branch, pairs).value).value.values
         == Updated(Load(decode, lines).value.values, branch, pairs)
  {
    hide Load, BlockOf, EditAll, Plain, Walk, AddressAt, RowOf, IsBlock, Updated;
    var out := SetKeys(decode, lines, branch, pairs).value;
    var before, after := Load(decode, lines).value.values, Load(decode, out).value.values;
    var b := BlockOf(lines, branch).value;
    if pairs == [] {
      NoPairs(lines, b, before, branch);
    } else {
      assert pairs[0] in pairs;
      LoadedPlain(decode, out);
      BlockIsBlock(lines, branch);
      EditAllKeeps(lines, b, branch, pairs);
      forall a
        ensures a in after <==> a in Updated(before, branch, pairs)
        ensures a in after ==> after[a] == Updated(before, branch, pairs)[a]
      {
        UpdatedAt(before, branch, pairs, a);
        UntargetedReads(decode, lines, out, branch, pairs, a);
      }
    }
  }

  lemma NoPairs(lines: seq<string>, b: Block, values: map<Address, string>, branch: string)
    requires b.start < b.end <= |lines|
    ensures EditAll(lines, b, []) == Some(lines) && Updated(values, branch, []) == values
  {
  }

  lemma UntargetedReads(decode: string -> Option<string>, lines: seq<string>, out: seq<string>, branch: string, pairs: seq<Pair>, a: Address)
    requires SameSkeleton(lines, out) && Load(decode, lines).Some? && Load(decode, out).Some?
    requires forall i :: 0 <= i < |lines| && out[i] != lines[i] ==> Targeted(lines, i, branch, pairs)
    ensures Load(decode, out).value.values.Keys == Load(decode, lines).value.values.Keys
    ensures a in Load(decode, lines).value.values && !(exists p :: p in pairs && a == Pin(branch, p.key)) ==>
              Load(decode, out).value.values[a] == Load(decode, lines).value.values[a]
  {
    hide Load, Walk, RowOf, AddressAt;
    SkeletonReads(decode, lines, out, Section) by {
      NoSectionEdited(lines, out, branch, pairs);
    }
    if !(exists p :: p in pairs && a == Pin(branch, p.key)) {
      SkeletonReads(decode, lines, out, a);
    }
  }

  lemma NoSectionEdited(lines: seq<string>, out: seq<string>, branch: string, pairs: seq<Pair>)
    requires |out| == |lines|
    requires forall i :: 0 <= i < |lines| && out[i] != lines[i] ==> Targeted(lines, i, branch, pairs)
    ensures forall i :: 0 <= i < |lines| && lines[i] != out[i] ==> AddressAt(lines, i) != Some(Section)
  {
    hide AddressAt;
  }

  // ----- the edit keeps the text

  lemma BasePlain()
    ensures Plain("base")
  {
  }

  lemma {:induction false} KeyFromStable(lines: seq<string>, i: nat, line: string, from: nat, end: nat, n: nat, name: string)
    requires i < |lines| && from <= end <= |lines|
    requires IsKeyLine(line, n, name) <==> IsKeyLine(lines[i], n, name)
    ensures KeyFrom(lines[i := line], from, end, n, name) == KeyFrom(lines, from, end, n, name)
    decreases end - from
  {
    hide IsKeyLine;
    if from < end { KeyFromStable(lines, i, line, from + 1, end, n, name); }
  }

  /** Replacing a value never changes where another key, or the same one, is found. */
  lemma LocateStable(lines: seq<string>, b: Block, p: Pair, key: Key)
    requires b.start < b.end <= |lines| && EditOne(lines, b, p).Some? && Known(key)
    ensures Locate(EditOne(lines, b, p).value, b, key) == Locate(lines, b, key)
  {
    hide IsKeyLine, Known, Plain, Substitute, KeyFrom, KeyIndent;
    var i, out := Locate(lines, b, p.key).value, EditOne(lines, b, p).value;
    KnownPlain(p.key);
    KnownPlain(key);
    BasePlain();
    KeyIndents(p.key);
    KeyIndents(key);
    SameKeyLine(lines[i], out[i], KeyIndent(p.key), p.key.name, KeyIndent(key), key.name);
    SameKeyLine(lines[i], out[i], KeyIndent(p.key), p.key.name, 4, "base");
    KeyFromStable(lines, i, out[i], b.start, b.end, 4, "base");
    KeyFromStable(lines, i, out[i], b.start, b.end, 4, key.name) by {
      if key.InBase? { SameKeyLine(lines[i], out[i], KeyIndent(p.key), p.key.name, 4, key.name); }
    }
    if key.InBase? && KeyFrom(lines, b.start, b.end, 4, "base").Some? {
      KeyFromStable(lines, i, out[i], KeyFrom(lines, b.start, b.end, 4, "base").value + 1, b.end, 6, key.name);
    }
  }

  lemma KeyIndents(key: Key)
    ensures KeyIndent(key) == if key.Scalar? then 4 else 6
  {
  }

  lemma SameKeyLine(x: string, y: string, n: nat, name: string, n': nat, name': string)
    requires (n == 4 || n == 6) && (n' == 4 || n' == 6) && Plain(name) && Plain(name')
    requires IsKeyLine(x, n, name) && IsKeyLine(y, n, name)
    ensures IsKeyLine(x, n', name') <==> IsKeyLine(y, n', name')
  {
    hide IsKeyLine, Plain;
    if IsKeyLine(x, n', name') { OneKeyPerLine(x, n, name, n', name'); }
    if IsKeyLine(y, n', name') { OneKeyPerLine(y, n, name, n', name'); }
  }

  predicate DistinctKeys(pairs: seq<Pair>) {
    forall i, j :: 0 <= i < j < |pairs| ==> pairs[i].key != pairs[j].key
  }

  /** One line of an edited file: its value replaced when a pair's key is found there, the line itself otherwise. */
  ghost predicate Wrote(lines: seq<string>, out: seq<string>, b: Block, pairs: seq<Pair>, i: nat)
    requires b.start < b.end <= |lines| && |out| == |lines| && i < |lines|
  {
    && (forall p :: p in pairs && Locate(lines, b, p.key) == Some(i) ==>
          Substitute(lines[i], KeyIndent(p.key), p.key.name, p.value) == Some(out[i]))
    && ((forall p :: p in pairs ==> Locate(lines, b, p.key) != Some(i)) ==> out[i] == lines[i])
  }

  /** Every line of an edited file is a requested replacement or the line that was there. */
  lemma {:induction false} EditAllWrites(lines: seq<string>, b: Block, pairs: seq<Pair>, i: nat)
    requires b.start < b.end <= |lines| && i < |lines| && DistinctKeys(pairs) && EditAll(lines, b, pairs).Some?
    ensures Wrote(lines, EditAll(lines, b, pairs).value, b, pairs, i)
    decreases |pairs|
  {
    hide Locate, Substitute, IsKeyLine, KeyIndent, Known;
    if pairs != [] {
      var p, rest, next := pairs[0], pairs[1..], EditOne(lines, b, pairs[0]).value;
      var out := EditAll(lines, b, pairs).value;
      assert pairs == [p] + rest;
      AllKnown(next, b, rest);
      forall q | q in rest
        ensures Locate(next, b, q.key) == Locate(lines, b, q.key)
      {
        LocateStable(lines, b, p, q.key);
      }
      EditAllWrites(next, b, rest, i);
      if Locate(lines, b, p.key) == Some(i) {
        forall q | q in rest
          ensures Locate(lines, b, q.key) != Some(i)
        {
          if Locate(lines, b, q.key) == Some(i) { OneKeyEach(lines, b, p.key, q.key); }
        }
      } else {
        assert next[i] == lines[i];
      }
    }
  }

  lemma OneKeyEach(lines: seq<string>, b: Block, k: Key, l: Key)
    requires b.start < b.end <= |lines| && Known(k) && Known(l)
    requires Locate(lines, b, k).Some? && Locate(lines, b, k) == Locate(lines, b, l)
    ensures k == l
  {
    hide Locate, IsKeyLine, Known, Plain;
    KnownPlain(k);
    KnownPlain(l);
    OneKeyPerLine(lines[Locate(lines, b, k).value], KeyIndent(k), k.name, KeyIndent(l), l.name);
  }

  lemma {:induction false} AllKnown(lines: seq<string>, b: Block, pairs: seq<Pair>)
    requires b.start < b.end <= |lines| && EditAll(lines, b, pairs).Some?
    ensures forall p :: p in pairs ==> Known(p.key)
    decreases |pairs|
  {
    hide Known, Locate, Substitute;
    if pairs != [] {
      assert pairs == [pairs[0]] + pairs[1..];
      AllKnown(EditOne(lines, b, pairs[0]).value, b, pairs[1..]);
    }
  }

  /** Values that stand unquoted for themselves. */
  predicate Tidy(v: string) {
    v != "" && !IsBlank(v[0]) && !IsBlank(v[|v| - 1]) && !Quoted(v) && '#' !in v
  }

  /**
   A replaced line has the indentation, key, quoting and comment of the line it
   replaces and the new value between them.
   */
  lemma SubstituteKeepsRest(line: string, n: nat, name: string, value: string)
    requires IsKeyLine(line, n, name) && Substitute(line, n, name, value).Some?
    requires QuoteOf(PartsOf(line, n, name)) == "" ==> Tidy(value)
    ensures var p, q := PartsOf(line, n, name), QuoteOf(PartsOf(line, n, name));
            PartsOf(Substitute(line, n, name, value).value, n, name) == Parts(p.head, q + value + q, p.trail)
  {
    hide IsKeyLine, IsBlank, IsQuote, Tidy, IsTrail, ValueLength, PartsOf, KeyPrefix;
    var p := PartsOf(line, n, name);
    var q := QuoteOf(p);
    var put := q + value + q;
    HeadBlanks(line, n, name);
    TrailOfLine(line, n, name);
    QuoteIsQuote(p);
    ValueOf(q, value, p.trail);
    FirstWritten(q, value, p.trail);
    assert p.head + q + value + q + p.trail == p.head + put + p.trail;
    assert put + p.trail == q + value + q + p.trail;
    PartsFrom(p.head, put, p.trail, n, name);
  }

  lemma QuoteIsQuote(p: Parts)
    ensures QuoteOf(p) == "" || (|QuoteOf(p)| == 1 && IsQuote(QuoteOf(p)[0]))
  {
  }

  lemma FirstWritten(q: string, value: string, trail: string)
    requires q == "" || (|q| == 1 && IsQuote(q[0]))
    requires q == "" ==> Tidy(value)
    ensures var s := q + value + q + trail; s != "" && !IsBlank(s[0])
  {
    var s := q + value + q + trail;
    if q == "" { assert s[0] == value[0]; } else { assert s[0] == q[0]; }
  }

  lemma PartsFrom(head: string, value: string, trail: string, n: nat, name: string)
    requires IsKeyLine(head, n, name) && forall i :: |KeyPrefix(n, name)| <= i < |head| ==> IsBlank(head[i])
    requires |KeyPrefix(n, name)| <= |head|
    requires value + trail == "" || !IsBlank((value + trail)[0])
    requires ValueLength(value + trail) == |value|
    requires IsKeyLine(head + value + trail, n, name)
    ensures PartsOf(head + value + trail, n, name) == Parts(head, value, trail)
  {
    hide IsKeyLine, IsBlank, ValueLength, KeyPrefix, BlankRun;
    var line, m := head + value + trail, |KeyPrefix(n, name)|;
    BlankRunOf(head[m..], value + trail);
    assert line[m..] == head[m..] + (value + trail);
    assert line[|head|..] == value + trail;
  }

  lemma HeadBlanks(line: string, n: nat, name: string)
    requires IsKeyLine(line, n, name)
    ensures var p, m := PartsOf(line, n, name), |KeyPrefix(n, name)|;
            IsKeyLine(p.head, n, name) && m <= |p.head| && p.head[..m] == KeyPrefix(n, name) && forall i :: m <= i < |p.head| ==> IsBlank(p.head[i])
  {
    hide IsBlank, ValueLength;
  }

  lemma TrailOfLine(line: string, n: nat, name: string)
    requires IsKeyLine(line, n, name)
    ensures IsTrail(PartsOf(line, n, name).trail)
  {
    hide IsTrail, ValueLength, KeyPrefix;
    var p := PartsOf(line, n, name);
    var m := |KeyPrefix(n, name)|;
    var h := m + BlankRun(line[m..]);
    TrailIsTrail(line[h..]);
    assert line[h..][ValueLength(line[h..])..] == p.trail;
  }

  lemma {:induction false} BlankRunOf(blanks: string, s: string)
    requires (forall i :: 0 <= i < |blanks| ==> IsBlank(blanks[i])) && (s == "" || !IsBlank(s[0]))
    ensures BlankRun(blanks + s) == |blanks|
  {
    hide IsBlank;
    if blanks == "" {
      assert blanks + s == s;
    } else {
      assert (blanks + s)[1..] == blanks[1..] + s;
      BlankRunOf(blanks[1..], s);
    }
  }

  lemma TrailIsTrail(s: string)
    ensures IsTrail(s[ValueLength(s)..])
  {
    var h := IndexOf(s, '#');
    IndexFacts(s, '#');
    var bare := TrimBlanks(s[..h]);
    var t := s[bare..];
    assert t == s[bare..h] + s[h..];
    forall i | 0 <= i < |s[bare..h]|
      ensures IsBlank(s[bare..h][i])
    {
      assert s[bare..h][i] == s[..h][bare + i];
    }
    BlankRunOf(s[bare..h], s[h..]);
  }

  /** The scalar of a written text is what was written. */
  lemma ValueOf(q: string, value: string, trail: string)
    requires q == "" || (|q| == 1 && IsQuote(q[0]) && q[0] !in value)
    requires q == "" ==> Tidy(value)
    requires IsTrail(trail)
    ensures ValueLength(q + value + q + trail) == |q + value + q|
  {
    var s := q + value + q + trail;
    if q == "" {
      assert s == value + trail;
      BareLength(value, trail);
    } else {
      assert s[1..] == value + [q[0]] + trail;
      CutAtFirst(value, q[0], trail);
      assert s[|value| + 2..] == trail;
    }
  }

  lemma BareLength(value: string, trail: string)
    requires Tidy(value) && IsTrail(trail)
    ensures TrimBlanks((value + trail)[..IndexOf(value + trail, '#')]) == |value|
  {
    hide TrimBlanks, IndexOf, BlankRun;
    var s, n := value + trail, BlankRun(trail);
    var front := value + trail[..n];
    assert forall i :: 0 <= i < n ==> trail[i] == trail[..n][i] && IsBlank(trail[i]);
    assert '#' !in trail[..n];
    assert s == front + trail[n..];
    if n < |trail| {
      assert s == front + ['#'] + trail[n + 1..];
      CutAtFirst(front, '#', trail[n + 1..]);
    } else {
      assert s == front;
      NoHash(front);
    }
    assert s[..IndexOf(s, '#')] == front;
    TrimBlanksOf(value, trail[..n]);
  }

  lemma {:induction false} NoHash(s: string)
    requires '#' !in s
    ensures IndexOf(s, '#') == |s|
  {
    if s != "" { NoHash(s[1..]); }
  }

  lemma {:induction false} TrimBlanksOf(value: string, blanks: string)
    requires value != "" && !IsBlank(value[|value| - 1]) && forall i :: 0 <= i < |blanks| ==> IsBlank(blanks[i])
    ensures TrimBlanks(value + blanks) == |value|
    decreases |blanks|
  {
    hide IsBlank;
    if blanks == "" {
      assert value + blanks == value;
    } else {
      var n := |blanks| - 1;
      assert (value + blanks)[..|value + blanks| - 1] == value + blanks[..n];
      TrimBlanksOf(value, blanks[..n]);
    }
  }

  /**
   A successful edit rewrites, of every line where one of the keys is found,
   the value; every other line stays as it was.
   */
  lemma SetKeysKeepsText(decode: string -> Option<string>, lines: seq<string>, branch: string, pairs: seq<Pair>, i: nat)
    requires SetKeys(decode, lines, branch, pairs).Some? && DistinctKeys(pairs) && i < |lines|
    ensures |SetKeys(decode, lines, branch, pairs).value| == |lines|
    ensures Wrote(lines, SetKeys(decode, lines, branch, pairs).value, BlockOf(lines, branch).value, pairs, i)
  {
    hide EditAll, Wrote, Load, BlockOf;
    EditAllWrites(lines, BlockOf(lines, branch).value, pairs, i);
  }

  // ----- when an edit is accepted

  /** Whatever the old value: a file of one skeleton reads as far as every differing scalar reads. */
  lemma {:induction false} SkeletonLoads(decode: string -> Option<string>, a: seq<string>, b: seq<string>)
    requires SameSkeleton(a, b) && Load(decode, a).Some?
    requires forall i :: 0 <= i < |a| && a[i] != b[i] ==> RowOf(b[i]).Entry? && decode(RowOf(b[i]).rest).Some?
    ensures Load(decode, b).Some? && Load(decode, b).value.seen == Load(decode, a).value.seen
    decreases |a|
  {
    hide RowOf, Next, AddressOf, Walk;
    if a != [] {
      var n := |a| - 1;
      SkeletonPrefix(a, b, n);
      SkeletonWalks(a, b);
      SkeletonWalks(a[..n], b[..n]);
      SkeletonLoads(decode, a[..n], b[..n]);
      assert SameKind(RowOf(a[n]), RowOf(b[n]));
      LoadUnfold(decode, a);
      LoadUnfold(decode, b);
      ReadSome(decode, Load(decode, a[..n]).value, Load(decode, b[..n]).value, Walk(a[..n]).value, RowOf(a[n]), RowOf(b[n]));
    }
  }

  lemma LoadUnfold(decode: string -> Option<string>, lines: seq<string>)
    requires lines != [] && Walk(lines).Some?
    ensures Walk(lines[..|lines| - 1]).Some?
    ensures Load(decode, lines) == match Load(decode, lines[..|lines| - 1])
                                   case None => None
                                   case Some(r) => Read(decode, r, Walk(lines[..|lines| - 1]).value, RowOf(lines[|lines| - 1]))
  {
    hide RowOf, Read, Next;
  }

  lemma ReadSome(decode: string -> Option<string>, r: Reading, s: Reading, place: Place, x: Row, y: Row)
    requires SameKind(x, y) && r.seen == s.seen && Read(decode, r, place, x).Some?
    requires x == y || (y.Entry? && decode(y.rest).Some?)
    ensures Read(decode, s, place, y).Some? && Read(decode, s, place, y).value.seen == Read(decode, r, place, x).value.seen
  {
    assert AddressOf(place, x) == AddressOf(place, y);
  }

  /** The text after the key's colon. */
  function RestOf(line: string, key: Key): string
    requires IsKeyLine(line, KeyIndent(key), key.name)
  {
    line[|KeyPrefix(KeyIndent(key), key.name)|..]
  }

  /** When one edit of a file that reads is accepted, in terms of where the key is found and what its line becomes. */
  lemma AcceptedIff(decode: string -> Option<string>, lines: seq<string>, branch: string, p: Pair)
    requires Load(decode, lines).Some? && Plain(branch) && BlockOf(lines, branch).Some?
    requires Walk(lines[..BlockOf(lines, branch).value.end]) != Some(Outside)
    ensures SetKeys(decode, lines, branch, [p]).Some? <==>
              && Known(p.key)
              && var at := Locate(lines, BlockOf(lines, branch).value, p.key);
                 && at.Some?
                 && var line := Substitute(lines[at.value], KeyIndent(p.key), p.key.name, p.value);
                    line.Some? && decode(RestOf(line.value, p.key)) == Some(p.value)
  {
    hide Load, BlockOf, Plain, Walk, RowOf, IsBlock, Known, Locate, IsKeyLine, KeyPrefix, KeyIndent, Substitute;
    var b := BlockOf(lines, branch).value;
    BlockIsBlock(lines, branch);
    OnePair(lines, b, p);
    assert [p][0] == p;
    if Known(p.key) && EditOne(lines, b, p).Some? {
      var at, out := Locate(lines, b, p.key).value, EditOne(lines, b, p).value;
      EditOneKeeps(lines, b, branch, p);
      KeyLineRow(out[at], p.key);
      LocatedPins(lines, b, branch, p.key);
      SkeletonAddress(lines, out, at);
      if decode(RestOf(out[at], p.key)).Some? {
        SkeletonLoads(decode, lines, out);
      }
      if Load(decode, out).Some? {
        LoadedAt(decode, out, at);
      }
    }
  }

  lemma OnePair(lines: seq<string>, b: Block, p: Pair)
    requires b.start < b.end <= |lines|
    ensures EditAll(lines, b, [p]) == EditOne(lines, b, p)
  {
    hide EditOne;
    assert [p][1..] == [];
  }

  /** In the `branches` section, the line that a key is found at declares it. */
  lemma LocatedPins(lines: seq<string>, b: Block, branch: string, key: Key)
    requires IsBlock(lines, b, branch) && Walk(lines).Some? && Known(key) && Locate(lines, b, key).Some?
    requires Walk(lines[..b.end]) != Some(Outside)
    ensures AddressAt(lines, Locate(lines, b, key).value) == Some(Pin(branch, key))
  {
    hide RowOf, Walk, Known, IsBlock, IsKeyLine, Next, Locate;
    BlockBounds(lines, b, branch);
    WalkPrefix(lines, b.end);
    var i := Locate(lines, b, key).value;
    LocatedInside(lines, b, branch, key);
    LocatedDeclares(lines, b, branch, key);
    KeyLineRow(lines[i], key);
    BlockPlaces(lines, b, branch, i);
    if Walk(lines[..i]).value.Outside? {
      StaysOutside(lines, b, branch, i);
    }
  }

  lemma {:induction false} StaysOutside(lines: seq<string>, b: Block, branch: string, n: nat)
    requires IsBlock(lines, b, branch) && Walk(lines).Some? && b.start < n <= b.end
    requires Walk(lines[..n]).Some? && Walk(lines[..n]).value.Outside?
    ensures Walk(lines[..b.end]).Some? && Walk(lines[..b.end]).value.Outside?
    decreases b.end - n
  {
    hide RowOf, Walk, EndsBlock, IsHead, Plain;
    if n < b.end {
      WalkStep(lines, n);
      InnerIsNoTop(lines[n]);
      WalkPrefix(lines, n + 1);
      StaysOutside(lines, b, branch, n + 1);
    }
  }

  lemma InnerIsNoTop(line: string)
    requires !EndsBlock(line)
    ensures !RowOf(line).Top?
  {
    hide KeyRow, HeadRow;
    TrimLeftShortens(line);
  }

  /** The value read for what a line declares is that line's scalar. */
  lemma {:induction false} LoadedAt(decode: string -> Option<string>, lines: seq<string>, i: nat)
    requires i < |lines| && Load(decode, lines).Some? && RowOf(lines[i]).Entry? && AddressAt(lines, i).Some?
    ensures AddressAt(lines, i).value in Load(decode, lines).value.seen
    ensures AddressAt(lines, i).value in Load(decode, lines).value.values
    ensures decode(RowOf(lines[i]).rest) == Some(Load(decode, lines).value.values[AddressAt(lines, i).value])
    decreases |lines|
  {
    hide RowOf, Next, Walk;
    var n := |lines| - 1;
    LoadUnfold(decode, lines);
    if i < n {
      assert lines[..n][..i] == lines[..i];
      assert AddressAt(lines[..n], i) == AddressAt(lines, i);
      LoadedAt(decode, lines[..n], i);
    }
  }
}
