/**
 The pin contract of scripts/catalog.py: versions.yaml edited line by line,
 re-read, and rolled back when it does not read back.

 A file is its lines without their line ends. YAML's reading of one scalar,
 given as everything after the key's colon, is an arbitrary function; how
 lines make up sections, branches and keys is read here, for the file's
 standard shape: branches indented by two, their keys by four, the keys under
 `base` by six, no key twice.
 */
module Catalog {
  import opened Text

  // ----- the pieces of a line

  predicate IsBlank(c: char) {
    c == ' ' || c == '\t'
  }

  predicate IsQuote(c: char) {
    c == '"' || c == '\''
  }

  predicate Quoted(s: string) {
    s != "" && IsQuote(s[0])
  }

  /** Names that YAML reads as themselves. */
  predicate Plain(s: string) {
    s != "" && forall i :: 0 <= i < |s| ==> PlainChar(s[i])
  }

  predicate PlainChar(c: char) {
    'a' <= c <= 'z' || 'A' <= c <= 'Z' || '0' <= c <= '9' || c == '.' || c == '_' || c == '-'
  }

  predicate OnlyComment(s: string) {
    var t := TrimLeft(s);
    t == "" || t[0] == '#'
  }

  function BlankRun(s: string): (n: nat)
    ensures n <= |s|
    ensures n < |s| ==> !IsBlank(s[n])
    ensures forall i :: 0 <= i < n ==> IsBlank(s[i])
  {
    if s == "" || !IsBlank(s[0]) then 0 else 1 + BlankRun(s[1..])
  }

  function Spaces(n: nat): (s: string)
    ensures |s| == n && forall i :: 0 <= i < n ==> s[i] == ' '
  {
    if n == 0 then "" else " " + Spaces(n - 1)
  }

  function Indent(line: string): (n: nat)
    ensures n <= |line|
  {
    TrimLeftShortens(line);
    |line| - |TrimLeft(line)|
  }

  lemma {:induction false} TrimLeftShortens(s: string)
    ensures |TrimLeft(s)| <= |s| && TrimLeft(s) == s[|s| - |TrimLeft(s)|..]
    ensures TrimLeft(s) != "" ==> !IsSpace(TrimLeft(s)[0])
    ensures forall i :: 0 <= i < |s| - |TrimLeft(s)| ==> IsSpace(s[i])
  {
    if s != "" && IsSpace(s[0]) {
      hide IsSpace;
      TrimLeftShortens(s[1..]);
      assert s == [s[0]] + s[1..];
    }
  }

  lemma {:induction false} IndentOf(line: string, n: nat)
    requires n < |line| && !IsSpace(line[n]) && forall i :: 0 <= i < n ==> IsSpace(line[i])
    ensures Indent(line) == n && TrimLeft(line) == line[n..]
  {
    if n > 0 {
      IndentOf(line[1..], n - 1);
    }
  }

  // ----- finding a key

  datatype Key = Scalar(name: string) | InBase(name: string)

  const SCALAR_KEYS := {"samba_version", "revision", "tarball_sha256", "pkg_index_hash"}
  const BASE_KEYS := {"builder", "runtime", "gobuild"}

  predicate Known(key: Key) {
    match key
    case Scalar(name) => name in SCALAR_KEYS
    case InBase(name) => name in BASE_KEYS
  }

  function KeyIndent(key: Key): nat {
    if key.Scalar? then 4 else 6
  }

  function KeyPrefix(indent: nat, name: string): string {
    Spaces(indent) + name + ":"
  }

  predicate IsKeyLine(line: string, indent: nat, name: string) {
    KeyPrefix(indent, name) <= line
  }

  predicate ColonTail(s: string) {
    s != "" && s[0] == ':' && OnlyComment(s[1..])
  }

  predicate NameTail(s: string, branch: string) {
    branch <= s && var t := s[|branch|..]; ColonTail(t) || (Quoted(t) && ColonTail(t[1..]))
  }

  /** The line that opens a branch's block, its name quoted or not. */
  predicate IsHead(line: string, branch: string) {
    Spaces(2) <= line && var s := line[2..]; NameTail(s, branch) || (Quoted(s) && NameTail(s[1..], branch))
  }

  /** The first line from `from` on that opens the branch's block. */
  function HeadFrom(lines: seq<string>, from: nat, branch: string): (i: nat)
    requires from <= |lines|
    ensures from <= i <= |lines| && (i < |lines| ==> IsHead(lines[i], branch))
    decreases |lines| - from
  {
    if from == |lines| || IsHead(lines[from], branch) then from else HeadFrom(lines, from + 1, branch)
  }

  predicate EndsBlock(line: string) {
    TrimLeft(line) != "" && Indent(line) <= 2
  }

  /** The first line from `from` on that ends a block. */
  function EndFrom(lines: seq<string>, from: nat): (i: nat)
    requires from <= |lines|
    ensures from <= i <= |lines|
    ensures forall k :: from <= k < i ==> !EndsBlock(lines[k])
    decreases |lines| - from
  {
    if from == |lines| || EndsBlock(lines[from]) then from else EndFrom(lines, from + 1)
  }

  datatype Block = Block(start: nat, end: nat)

  function BlockOf(lines: seq<string>, branch: string): (b: Option<Block>)
    ensures b.Some? ==> b.value.start < b.value.end <= |lines| && IsHead(lines[b.value.start], branch)
    ensures b.Some? ==> forall k :: b.value.start < k < b.value.end ==> !EndsBlock(lines[k])
  {
    var start := HeadFrom(lines, 0, branch);
    if start == |lines| then None else Some(Block(start, EndFrom(lines, start + 1)))
  }

  /** The first line in a range that holds the key at the indentation. */
  function KeyFrom(lines: seq<string>, from: nat, end: nat, indent: nat, name: string): (i: Option<nat>)
    requires from <= end <= |lines|
    ensures i.Some? ==> from <= i.value < end && IsKeyLine(lines[i.value], indent, name)
    decreases end - from
  {
    if from == end then None
    else if IsKeyLine(lines[from], indent, name) then Some(from)
    else KeyFrom(lines, from + 1, end, indent, name)
  }

  function Locate(lines: seq<string>, b: Block, key: Key): (i: Option<nat>)
    requires b.start < b.end <= |lines|
    ensures i.Some? ==> b.start <= i.value < b.end && IsKeyLine(lines[i.value], KeyIndent(key), key.name)
  {
    match key
    case Scalar(name) => KeyFrom(lines, b.start, b.end, 4, name)
    case InBase(name) =>
      match KeyFrom(lines, b.start, b.end, 4, "base")
      case None => None
      case Some(base) => KeyFrom(lines, base + 1, b.end, 6, name)
  }

  method BranchBlock(lines: seq<string>, branch: string) returns (b: Option<Block>)
    ensures b == BlockOf(lines, branch)
  {
    var start := 0;
    while start < |lines| && !IsHead(lines[start], branch)
      invariant start <= |lines| && HeadFrom(lines, start, branch) == HeadFrom(lines, 0, branch)
    {
      start := start + 1;
    }
    if start == |lines| {
      return None;
    }
    for index := start + 1 to |lines|
      invariant EndFrom(lines, index) == EndFrom(lines, start + 1)
    {
      if EndsBlock(lines[index]) {
        return Some(Block(start, index));
      }
    }
    return Some(Block(start, |lines|));
  }

  method KeyLine(lines: seq<string>, start: nat, end: nat, name: string, indent: nat) returns (i: Option<nat>)
    requires start <= end <= |lines|
    ensures i == KeyFrom(lines, start, end, indent, name)
  {
    for index := start to end
      invariant KeyFrom(lines, index, end, indent, name) == KeyFrom(lines, start, end, indent, name)
    {
      if IsKeyLine(lines[index], indent, name) {
        return Some(index);
      }
    }
    return None;
  }

  // ----- replacing a value

  predicate IsTrail(s: string) {
    var n := BlankRun(s);
    n == |s| || s[n] == '#'
  }

  function TrimBlanks(s: string): (n: nat)
    ensures n <= |s|
    ensures forall i :: n <= i < |s| ==> IsBlank(s[i])
    ensures n > 0 ==> !IsBlank(s[n - 1])
  {
    if s == "" || !IsBlank(s[|s| - 1]) then |s| else TrimBlanks(s[..|s| - 1])
  }

  /** How much of the text is the scalar: up to its closing quote, or to the comment. */
  function ValueLength(s: string): (n: nat)
    ensures n <= |s|
  {
    var bare := TrimBlanks(s[..IndexOf(s, '#')]);
    if Quoted(s) then
      var n := IndexOf(s[1..], s[0]) + 2;
      if n <= |s| && IsTrail(s[n..]) then n else bare
    else bare
  }

  datatype Parts = Parts(head: string, value: string, trail: string)

  function PartsOf(line: string, indent: nat, name: string): (p: Parts)
    requires IsKeyLine(line, indent, name)
    ensures line == p.head + p.value + p.trail && IsKeyLine(p.head, indent, name)
  {
    var m := |KeyPrefix(indent, name)|;
    var h := m + BlankRun(line[m..]);
    var n := h + ValueLength(line[h..]);
    Parts(line[..h], line[h..n], line[n..])
  }

  function QuoteOf(p: Parts): string {
    if Quoted(p.value) then [p.value[0]] else ""
  }

  /** The line with its value replaced, its quoting and its comment kept. */
  function Substitute(line: string, indent: nat, name: string, value: string): (r: Option<string>)
    requires IsKeyLine(line, indent, name)
    ensures r.Some? ==> IsKeyLine(r.value, indent, name)
  {
    var p := PartsOf(line, indent, name);
    var q := QuoteOf(p);
    if q != "" && q[0] in value then None else Some(p.head + q + value + q + p.trail)
  }

  datatype Pair = Pair(key: Key, value: string)

  function EditOne(lines: seq<string>, b: Block, p: Pair): (r: Option<seq<string>>)
    requires b.start < b.end <= |lines|
    ensures r.Some? ==> |r.value| == |lines|
  {
    if !Known(p.key) then None
    else
      match Locate(lines, b, p.key)
      case None => None
      case Some(i) =>
        match Substitute(lines[i], KeyIndent(p.key), p.key.name, p.value)
        case None => None
        case Some(line) => Some(lines[i := line])
  }

  function EditAll(lines: seq<string>, b: Block, pairs: seq<Pair>): (r: Option<seq<string>>)
    requires b.start < b.end <= |lines|
    ensures r.Some? ==> |r.value| == |lines|
    decreases |pairs|
  {
    if pairs == [] then Some(lines)
    else
      match EditOne(lines, b, pairs[0])
      case None => None
      case Some(next) => EditAll(next, b, pairs[1..])
  }

  // ----- reading the file

  datatype Row = Skip | Top(opens: bool) | Head(branch: string) | Base | Entry(key: Key, rest: string) | Odd

  predicate CleanTail(s: string) {
    s == "" || (IsSpace(s[0]) && OnlyComment(s))
  }

  function HeadRow(s: string): (r: Row)
    ensures r.Head? || r.Odd?
  {
    if !Quoted(s) then Odd
    else
      var n := IndexOf(s[1..], s[0]);
      if n + 2 < |s| && Plain(s[1..][..n]) && s[n + 2] == ':' && CleanTail(s[n + 3..]) then Head(s[1..][..n]) else Odd
  }

  function KeyRow(s: string, indent: nat): (r: Row)
    ensures r.Entry? || r.Base? || r.Odd?
  {
    match Cut(s, ':')
    case None => Odd
    case Some((name, rest)) =>
      if !Plain(name) then Odd
      else if indent == 6 then Entry(InBase(name), rest)
      else if name != "base" then Entry(Scalar(name), rest)
      else if CleanTail(rest) then Base
      else Odd
  }

  /** What one line is, in the standard shape. */
  function RowOf(line: string): Row {
    var n := Indent(line);
    var s := line[n..];
    if s == "" || s[0] == '#' then Skip
    else if Spaces(n) != line[..n] then Odd
    else if n == 0 then Top(Cut(s, ':').Some? && Cut(s, ':').value.0 == "branches" && CleanTail(Cut(s, ':').value.1))
    else if n == 2 then HeadRow(s)
    else if n == 4 || n == 6 then KeyRow(s, n)
    else Odd
  }

  datatype Place = Outside | Branches | InBranch(branch: string) | BelowBase(branch: string)

  /** Where a row leads; nothing when the row is not of the shape. Other sections are passed over. */
  function Next(place: Place, row: Row): Option<Place> {
    if row.Skip? then Some(place)
    else if row.Top? then Some(if row.opens then Branches else Outside)
    else if place.Outside? then Some(Outside)
    else if row.Head? then Some(InBranch(row.branch))
    else if row.Odd? || !Inside(place) then None
    else if row.Base? then Some(BelowBase(place.branch))
    else if row.key.Scalar? then Some(InBranch(place.branch))
    else if place.BelowBase? then Some(place)
    else None
  }

  predicate Inside(place: Place) {
    place.InBranch? || place.BelowBase?
  }

  datatype Address = Section | BranchAt(branch: string) | BaseAt(branch: string) | Pin(branch: string, key: Key)

  /** What a row declares where it stands. */
  function AddressOf(place: Place, row: Row): Option<Address> {
    match row
    case Top(opens) => if opens then Some(Section) else None
    case Head(branch) => if place.Outside? then None else Some(BranchAt(branch))
    case Base => if Inside(place) then Some(BaseAt(place.branch)) else None
    case Entry(key, _) => if Inside(place) then Some(Pin(place.branch, key)) else None
    case _ => None
  }

  function Walk(lines: seq<string>): Option<Place> {
    if lines == [] then Some(Outside)
    else
      match Walk(lines[..|lines| - 1])
      case None => None
      case Some(place) => Next(place, RowOf(lines[|lines| - 1]))
  }

  datatype Reading = Reading(seen: set<Address>, values: map<Address, string>)

  /** One more line; nothing when it declares something twice or its scalar does not read. */
  function Read(decode: string -> Option<string>, r: Reading, place: Place, row: Row): Option<Reading> {
    match AddressOf(place, row)
    case None => Some(r)
    case Some(a) =>
      if a in r.seen then None
      else if !row.Entry? then Some(r.(seen := r.seen + {a}))
      else
        match decode(row.rest)
        case None => None
        case Some(v) => Some(Reading(r.seen + {a}, r.values[a := v]))
  }

  /** The catalog a file holds: the value at every branch and key. */
  function Load(decode: string -> Option<string>, lines: seq<string>): (r: Option<Reading>)
    ensures r.Some? ==> Walk(lines).Some?
  {
    if lines == [] then Some(Reading({}, map[]))
    else if Walk(lines).None? then None
    else
      var init := lines[..|lines| - 1];
      match Load(decode, init)
      case None => None
      case Some(r) => Read(decode, r, Walk(init).value, RowOf(lines[|lines| - 1]))
  }

  // ----- the edit

  predicate ReadsBack(decode: string -> Option<string>, lines: seq<string>, branch: string, pairs: seq<Pair>) {
    Load(decode, lines).Some? &&
    forall p :: p in pairs ==>
      Pin(branch, p.key) in Load(decode, lines).value.values && Load(decode, lines).value.values[Pin(branch, p.key)] == p.value
  }

  /** The file after an edit, or nothing when the edit is refused. */
  function SetKeys(decode: string -> Option<string>, lines: seq<string>, branch: string, pairs: seq<Pair>): Option<seq<string>> {
    match BlockOf(lines, branch)
    case None => None
    case Some(b) =>
      match EditAll(lines, b, pairs)
      case None => None
      case Some(out) => if ReadsBack(decode, out, branch, pairs) then Some(out) else None
  }

  class CatalogFile {
    var lines: seq<string>

    constructor (text: seq<string>)
      ensures lines == text
    {
      lines := text;
    }

    /** Edits, writes, reads back, and puts the old file back when that fails. */
    method Set(decode: string -> Option<string>, branch: string, pairs: seq<Pair>) returns (refused: bool)
      modifies this
      ensures refused <==> SetKeys(decode, old(lines), branch, pairs).None?
      ensures lines == if refused then old(lines) else SetKeys(decode, old(lines), branch, pairs).value
    {
      hide Locate, KeyFrom, Substitute, Load, BlockOf;
      var original := lines;
      var block := BranchBlock(original, branch);
      if block.None? {
        return true;
      }
      var b := block.value;
      var edited := original;
      assert pairs[0..] == pairs;
      for i := 0 to |pairs|
        invariant lines == original && |edited| == |original|
        invariant EditAll(edited, b, pairs[i..]) == EditAll(original, b, pairs)
      {
        assert pairs[i..][0] == pairs[i] && pairs[i..][1..] == pairs[i + 1..];
        var next := EditLine(edited, b, pairs[i]);
        if next.None? {
          return true;
        }
        edited := next.value;
      }
      assert pairs[|pairs|..] == [];
      lines := edited;
      refused := !ReadsBack(decode, lines, branch, pairs);
      if refused {
        lines := original;
      }
    }
  }

  method EditLine(lines: seq<string>, b: Block, p: Pair) returns (r: Option<seq<string>>)
    requires b.start < b.end <= |lines|
    ensures r == EditOne(lines, b, p)
  {
    hide KeyFrom, Substitute;
    if !Known(p.key) {
      return None;
    }
    var from, indent := b.start, 4;
    if p.key.InBase? {
      var base := KeyLine(lines, from, b.end, "base", indent);
      if base.None? {
        return None;
      }
      from, indent := base.value + 1, 6;
    }
    var i := KeyLine(lines, from, b.end, p.key.name, indent);
    if i.None? {
      return None;
    }
    var line := Substitute(lines[i.value], indent, p.key.name, p.value);
    if line.None? {
      return None;
    }
    return Some(lines[i.value := line.value]);
  }
}
