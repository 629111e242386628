/**
 The ledger of unfixable vulnerabilities of scripts/cve-ledger.py: one entry
 per package, merged branch by branch from scanner reports, next to entries
 written by hand that no sync touches.

 Lists that the program keeps sorted are ascending sequences; the identifiers
 of an entry are kept as the set they are sorted from.
 */
module Ledger {
  import opened Text

  // ----- ordered lists of names

  /** The code-point order of strings. */
  predicate Less(a: string, b: string) {
    if b == "" then false
    else if a == "" then true
    else a[0] < b[0] || (a[0] == b[0] && Less(a[1..], b[1..]))
  }

  predicate Ascending(names: seq<string>) {
    forall i, j :: 0 <= i < j < |names| ==> Less(names[i], names[j])
  }

  /** The sorted list of a set. */
  ghost predicate Lists(names: seq<string>, s: set<string>) {
    Ascending(names) && forall x :: x in names <==> x in s
  }

  function Insert(x: string, names: seq<string>): seq<string> {
    if names == [] then [x]
    else if x == names[0] then names
    else if Less(x, names[0]) then [x] + names
    else [names[0]] + Insert(x, names[1..])
  }

  /** A list sorted, each name once. */
  function Sort(names: seq<string>): seq<string> {
    if names == [] then [] else Insert(names[0], Sort(names[1..]))
  }

  lemma {:induction false} LessTotal(a: string, b: string)
    ensures !Less(a, a) && !(Less(a, b) && Less(b, a))
    ensures a == b || Less(a, b) || Less(b, a)
  {
    if a != "" {
      LessTotal(a[1..], if b == "" then "" else b[1..]);
      if b != "" && a[0] == b[0] && a[1..] == b[1..] { assert a == [a[0]] + a[1..] && b == [b[0]] + b[1..]; }
    }
  }

  /** Two names agree up to i, where the first one ends or has the smaller character. */
  predicate SmallerAt(a: string, b: string, i: nat) {
    i <= |a| && i < |b| && a[..i] == b[..i] && (i == |a| || a[i] < b[i])
  }

  lemma SameHead(a: string, b: string, i: nat)
    requires SmallerAt(a, b, i) && i > 0
    ensures a != [] && b != [] && a[0] == b[0]
  {
    assert a[..i][0] == b[..i][0];
  }

  /** The order is decided at the first difference. */
  lemma {:induction false} LessIff(a: string, b: string)
    ensures Less(a, b) <==> exists i: nat :: SmallerAt(a, b, i)
  {
    if a == "" || b == "" || a[0] != b[0] {
      assert Less(a, b) ==> SmallerAt(a, b, 0);
      if i: nat :| SmallerAt(a, b, i) {
        if i > 0 { SameHead(a, b, i); }
      }
    } else {
      LessIff(a[1..], b[1..]);
      assert a == [a[0]] + a[1..] && b == [b[0]] + b[1..];
      if i: nat :| SmallerAt(a[1..], b[1..], i) {
        assert a[..i + 1] == [a[0]] + a[1..][..i] && b[..i + 1] == [b[0]] + b[1..][..i];
        assert SmallerAt(a, b, i + 1);
      }
      if i: nat :| SmallerAt(a, b, i) {
        assert i > 0;
        assert a[1..][..i - 1] == a[..i][1..] && b[1..][..i - 1] == b[..i][1..];
        assert SmallerAt(a[1..], b[1..], i - 1);
      }
    }
  }

  lemma {:induction false} LessTransitive(a: string, b: string, c: string)
    requires Less(a, b) && Less(b, c)
    ensures Less(a, c)
  {
    if a != "" && a[0] == b[0] == c[0] { LessTransitive(a[1..], b[1..], c[1..]); }
  }

  lemma AscendingCons(x: string, names: seq<string>)
    requires Ascending(names) && forall y :: y in names ==> Less(x, y)
    ensures Ascending([x] + names)
  {
    hide Less;
    var all := [x] + names;
    forall i, j | 0 <= i < j < |all|
      ensures Less(all[i], all[j])
    {
      assert all[j] == names[j - 1];
      if i > 0 { assert all[i] == names[i - 1]; }
    }
  }

  lemma {:induction false} InsertLists(x: string, names: seq<string>)
    requires Ascending(names)
    ensures Ascending(Insert(x, names))
    ensures forall y :: y in Insert(x, names) <==> y == x || y in names
  {
    hide Less, Ascending;
    if names == [] {
      OneName(x);
    } else {
      LessTotal(x, names[0]);
      TailOf(names);
      var rest := Insert(x, names[1..]);
      if Less(x, names[0]) {
        forall y | y in names
          ensures Less(x, y)
        {
          FirstIsLeast(names, y);
          if y != names[0] { LessTransitive(x, names[0], y); }
        }
        AscendingCons(x, names);
      } else if x != names[0] {
        InsertLists(x, names[1..]);
        forall y | y in rest
          ensures Less(names[0], y)
        {
          if y != x { FirstIsLeast(names, y); }
        }
        AscendingCons(names[0], rest);
        assert names == [names[0]] + names[1..];
      }
    }
  }

  lemma OneName(x: string)
    ensures Ascending([x])
  {
  }

  lemma {:induction false} SortLists(names: seq<string>)
    ensures Ascending(Sort(names))
    ensures forall y :: y in Sort(names) <==> y in names
  {
    if names != [] {
      SortLists(names[1..]);
      InsertLists(names[0], Sort(names[1..]));
    }
  }

  /** A set has one sorted list. */
  lemma {:induction false} ListsUnique(a: seq<string>, b: seq<string>)
    requires Ascending(a) && Ascending(b) && forall x :: x in a <==> x in b
    ensures a == b
  {
    hide Less;
    assert (|a| > 0 ==> a[0] in a) && (|b| > 0 ==> b[0] in b);
    if a != [] {
      FirstIsLeast(a, b[0]);
      FirstIsLeast(b, a[0]);
      LessTotal(a[0], b[0]);
      TailOf(a);
      TailOf(b);
      ListsUnique(a[1..], b[1..]);
    }
  }

  lemma FirstIsLeast(a: seq<string>, x: string)
    requires Ascending(a) && x in a
    ensures x == a[0] || Less(a[0], x)
  {
    hide Less;
  }

  lemma TailOf(a: seq<string>)
    requires Ascending(a) && a != []
    ensures Ascending(a[1..]) && forall x :: x in a[1..] <==> x in a && x != a[0]
  {
    hide Less;
    forall i | 0 <= i < |a[1..]|
      ensures a[1..][i] != a[0]
    {
      assert a[1..][i] == a[i + 1];
      LessTotal(a[0], a[i + 1]);
    }
  }

  method SortedNames(s: set<string>) returns (names: seq<string>)
    ensures Lists(names, s)
  {
    names := [];
    var todo := s;
    while todo != {}
      invariant todo <= s && Lists(names, s - todo)
      decreases todo
    {
      var x :| x in todo;
      InsertLists(x, names);
      names := Insert(x, names);
      todo := todo - {x};
    }
  }

  // ----- the scanner's report

  datatype Severity = High | Critical

  /** One finding of a report; an absent field is the empty text. */
  datatype Vulnerability = Vulnerability(pkg: string, id: string, severity: string, fixedVersion: string, installed: string)

  datatype Finding = Finding(installed: string, cves: set<string>, severity: Severity)

  /** Severe, without a fix, and named. */
  predicate Unfixed(v: Vulnerability) {
    (v.severity == "CRITICAL" || v.severity == "HIGH") && v.fixedVersion == "" && v.pkg != "" && v.id != ""
  }

  predicate UnfixedIn(v: Vulnerability, name: string) {
    Unfixed(v) && v.pkg == name
  }

  /** Every identifier a report has for a package. */
  ghost predicate ListsCves(cves: set<string>, vs: seq<Vulnerability>, name: string) {
    forall c :: c in cves <==> exists i :: 0 <= i < |vs| && UnfixedIn(vs[i], name) && vs[i].id == c
  }

  /** The worst severity a report has for a package. */
  ghost predicate IsWorst(severity: Severity, vs: seq<Vulnerability>, name: string) {
    severity == Critical <==> exists i :: 0 <= i < |vs| && UnfixedIn(vs[i], name) && vs[i].severity == "CRITICAL"
  }

  predicate FirstAt(i: int, vs: seq<Vulnerability>, name: string) {
    0 <= i < |vs| && UnfixedIn(vs[i], name) && forall k :: 0 <= k < i ==> !UnfixedIn(vs[k], name)
  }

  /** The installed version that the first finding of a package reports. */
  ghost predicate IsInstalled(installed: string, vs: seq<Vulnerability>, name: string) {
    exists i :: FirstAt(i, vs, name) && vs[i].installed == installed
  }

  ghost predicate Describes(f: Finding, vs: seq<Vulnerability>, name: string) {
    ListsCves(f.cves, vs, name) && IsWorst(f.severity, vs, name) && IsInstalled(f.installed, vs, name)
  }

  ghost predicate Summarises(packages: map<string, Finding>, vs: seq<Vulnerability>) {
    && (forall n :: n in packages <==> exists i :: 0 <= i < |vs| && UnfixedIn(vs[i], n))
    && (forall n :: n in packages ==> Describes(packages[n], vs, n))
  }

  function Recorded(packages: map<string, Finding>, v: Vulnerability): map<string, Finding> {
    if !Unfixed(v) then packages
    else
      var r := if v.pkg in packages then packages[v.pkg] else Finding(v.installed, {}, High);
      packages[v.pkg := Finding(r.installed, r.cves + {v.id}, if v.severity == "CRITICAL" then Critical else r.severity)]
  }

  lemma CvesStep(cves: set<string>, vs: seq<Vulnerability>, v: Vulnerability, name: string)
    requires ListsCves(cves, vs, name)
    ensures ListsCves(if UnfixedIn(v, name) then cves + {v.id} else cves, vs + [v], name)
  {
    hide UnfixedIn;
    var ys := vs + [v];
    var after := if UnfixedIn(v, name) then cves + {v.id} else cves;
    forall c
      ensures c in after
         <==> exists i :: 0 <= i < |ys| && UnfixedIn(ys[i], name) && ys[i].id == c
    {
      if c in cves {
        var i :| 0 <= i < |vs| && UnfixedIn(vs[i], name) && vs[i].id == c;
        assert ys[i] == vs[i];
      } else if UnfixedIn(v, name) && c == v.id {
        assert ys[|vs|] == v;
      }
    }
  }

  lemma WorstStep(severity: Severity, vs: seq<Vulnerability>, v: Vulnerability, name: string)
    requires IsWorst(severity, vs, name)
    ensures IsWorst(if UnfixedIn(v, name) && v.severity == "CRITICAL" then Critical else severity, vs + [v], name)
  {
    hide UnfixedIn;
    var ys := vs + [v];
    if severity == Critical {
      var i :| 0 <= i < |vs| && UnfixedIn(vs[i], name) && vs[i].severity == "CRITICAL";
      assert ys[i] == vs[i];
    } else {
      assert ys[|vs|] == v;
    }
  }

  lemma InstalledStep(installed: string, vs: seq<Vulnerability>, v: Vulnerability, name: string)
    requires IsInstalled(installed, vs, name)
    ensures IsInstalled(installed, vs + [v], name)
  {
    hide UnfixedIn;
    var i :| FirstAt(i, vs, name) && vs[i].installed == installed;
    assert FirstAt(i, vs + [v], name);
  }

  lemma NewlySeen(vs: seq<Vulnerability>, v: Vulnerability, name: string)
    requires UnfixedIn(v, name) && forall i :: 0 <= i < |vs| ==> !UnfixedIn(vs[i], name)
    ensures ListsCves({}, vs, name) && IsWorst(High, vs, name) && IsInstalled(v.installed, vs + [v], name)
  {
    hide UnfixedIn;
    assert FirstAt(|vs|, vs + [v], name);
  }

  lemma DescribeStep(packages: map<string, Finding>, vs: seq<Vulnerability>, v: Vulnerability, name: string)
    requires Summarises(packages, vs) && name in Recorded(packages, v)
    ensures Describes(Recorded(packages, v)[name], vs + [v], name)
  {
    hide ListsCves, IsWorst, IsInstalled, Unfixed;
    if name !in packages { NewlySeen(vs, v, name); } else { InstalledStep(packages[name].installed, vs, v, name); }
    var r := if name in packages then packages[name] else Finding(v.installed, {}, High);
    CvesStep(r.cves, vs, v, name);
    WorstStep(r.severity, vs, v, name);
  }

  lemma SummaryStep(packages: map<string, Finding>, vs: seq<Vulnerability>, v: Vulnerability)
    requires Summarises(packages, vs)
    ensures Summarises(Recorded(packages, v), vs + [v])
  {
    hide Unfixed, Describes;
    var ys, after := vs + [v], Recorded(packages, v);
    assert ys[|vs|] == v;
    forall n
      ensures n in after <==> exists k :: 0 <= k < |ys| && UnfixedIn(ys[k], n)
    {
      if k :| 0 <= k < |vs| && UnfixedIn(vs[k], n) { assert UnfixedIn(ys[k], n); }
    }
    forall n | n in after
      ensures Describes(after[n], ys, n)
    {
      DescribeStep(packages, vs, v, n);
    }
  }

  method UnfixedFindings(vs: seq<Vulnerability>) returns (packages: map<string, Finding>)
    ensures Summarises(packages, vs)
    ensures forall n :: n in packages <==>
              exists i :: 0 <= i < |vs| && vs[i].pkg == n != "" && vs[i].id != ""
                && vs[i].fixedVersion == "" && vs[i].severity in {"HIGH", "CRITICAL"}
  {
    hide Describes;
    packages := map[];
    for i := 0 to |vs|
      invariant Summarises(packages, vs[..i])
    {
      var v := vs[i];
      assert vs[..i + 1] == vs[..i] + [v];
      SummaryStep(packages, vs[..i], v);
      if !Unfixed(v) {
        continue;
      }
      var record := if v.pkg in packages then packages[v.pkg] else Finding(v.installed, {}, High);
      record := record.(cves := record.cves + {v.id});
      if v.severity == "CRITICAL" {
        record := record.(severity := Critical);
      }
      packages := packages[v.pkg := record];
    }
    assert vs[..|vs|] == vs;
  }

  // ----- the ledger

  const REASON := "no fixed version available in Debian trixie / upstream"

  /** One package's entry; `extra` stands for the keys the tool does not know. */
  datatype PkgEntry = PkgEntry(
    package: string, installed: string, branches: seq<string>, severity: Severity, cves: set<string>,
    reason: string, introduced: Option<string>, reviewBy: Option<int>, extra: string)

  datatype Item = Foreign(content: string) | Owned(entry: PkgEntry)

  function Foreigns(items: seq<Item>): seq<Item> {
    if items == [] then [] else (if items[0].Foreign? then [items[0]] else []) + Foreigns(items[1..])
  }

  /** The package entries by name; of two for one package the later counts. */
  function OwnedMap(items: seq<Item>): map<string, PkgEntry> {
    if items == [] then map[]
    else
      var last, rest := items[|items| - 1], OwnedMap(items[..|items| - 1]);
      if last.Owned? then rest[last.entry.package := last.entry] else rest
  }

  /** One branch's report, as it reaches the ledger. */
  datatype Report = Report(branch: string, findings: map<string, Finding>, tag: string, reviewBy: int)

  function Fresh(name: string, r: Report): PkgEntry {
    PkgEntry(name, "", [], High, {}, "", Some(r.tag), Some(r.reviewBy), "")
  }

  predicate HumanReason(reason: string) {
    reason != "" && reason != REASON
  }

  function Found(e: PkgEntry, f: Finding, r: Report): PkgEntry {
    e.(branches := Sort(e.branches + [r.branch]), installed := f.installed, severity := f.severity, cves := f.cves,
       reason := if HumanReason(e.reason) then e.reason else REASON,
       introduced := if e.introduced.None? then Some(r.tag) else e.introduced,
       reviewBy := if e.reviewBy.None? then Some(r.reviewBy) else e.reviewBy)
  }

  function Others(branches: seq<string>, branch: string): seq<string> {
    if branches == [] then []
    else (if branches[0] == branch then [] else [branches[0]]) + Others(branches[1..], branch)
  }

  function Without(e: PkgEntry, branch: string): PkgEntry {
    e.(branches := Others(e.branches, branch))
  }

  function FoundIn(owned: map<string, PkgEntry>, n: string, r: Report): PkgEntry
    requires n in r.findings
  {
    Found(if n in owned then owned[n] else Fresh(n, r), r.findings[n], r)
  }

  predicate Kept(owned: map<string, PkgEntry>, n: string, r: Report) {
    n in r.findings || (n in owned && Others(owned[n].branches, r.branch) != [])
  }

  /** The package entries after one branch's report. */
  function SyncMap(owned: map<string, PkgEntry>, r: Report): map<string, PkgEntry> {
    map n | n in owned.Keys + r.findings.Keys && Kept(owned, n, r) ::
      if n in r.findings then FoundIn(owned, n, r) else Without(owned[n], r.branch)
  }

  /** The items of a written ledger: the foreign ones as they were, then the packages by name. */
  ghost predicate Renders(items: seq<Item>, foreign: seq<Item>, owned: map<string, PkgEntry>) {
    exists names: seq<string> {:trigger Lists(names, owned.Keys)} :: Lists(names, owned.Keys) && items == foreign + Rendered(names, owned)
  }

  function Rendered(names: seq<string>, owned: map<string, PkgEntry>): seq<Item> {
    if names == [] then []
    else (if names[0] in owned then [Owned(owned[names[0]])] else []) + Rendered(names[1..], owned)
  }

  lemma NotBefore(names: seq<string>, i: nat)
    requires Ascending(names) && i < |names|
    ensures names[i] !in names[..i]
  {
    hide Less;
    LessTotal(names[i], names[i]);
  }

  lemma AscendingSnoc(picked: seq<string>, names: seq<string>, i: nat)
    requires Ascending(picked) && Ascending(names) && i < |names| && forall n :: n in picked ==> n in names[..i]
    ensures Ascending(picked + [names[i]])
  {
    hide Less;
    forall k | 0 <= k < |picked|
      ensures Less(picked[k], names[i])
    {
      assert picked[k] in picked;
    }
  }

  /** The first pass: every package that the report names. */
  method AddFound(was: map<string, PkgEntry>, r: Report) returns (owned: map<string, PkgEntry>, newPackages: seq<string>)
    ensures owned.Keys == was.Keys + r.findings.Keys
    ensures forall n :: n in owned ==> owned[n] == if n in r.findings then FoundIn(was, n, r) else was[n]
    ensures Lists(newPackages, r.findings.Keys - was.Keys)
  {
    hide Sort, Found, Less, Fresh;
    owned, newPackages := was, [];
    var names := SortedNames(r.findings.Keys);
    for i := 0 to |names|
      invariant forall n :: n in owned <==> n in was || n in names[..i]
      invariant forall n :: n in owned ==> owned[n] == if n in names[..i] then FoundIn(was, n, r) else was[n]
      invariant Ascending(newPackages) && (forall n :: n in newPackages <==> n in names[..i] && n !in was)
    {
      hide Ascending;
      var name := names[i];
      assert names[..i + 1] == names[..i] + [name];
      NotBefore(names, i);
      var entry := if name in owned then owned[name] else Fresh(name, r);
      if name !in owned {
        AscendingSnoc(newPackages, names, i);
        newPackages := newPackages + [name];
      }
      owned := owned[name := Found(entry, r.findings[name], r)];
    }
    assert names[..|names|] == names;
  }

  /** The second pass has gone through some names: those to be dropped are gone, and the others have lost the branch. */
  ghost predicate DropsDone(found: map<string, PkgEntry>, r: Report, names: seq<string>, owned: map<string, PkgEntry>, removed: seq<string>) {
    && (forall n :: n in owned <==> n in found && (n in names ==> Kept(found, n, r)))
    && (forall n :: n in owned ==> owned[n] == if n in names && n !in r.findings then Without(found[n], r.branch) else found[n])
    && Ascending(removed) && (forall n :: n in removed <==> n in names && !Kept(found, n, r))
  }

  lemma DropKeeps(found: map<string, PkgEntry>, r: Report, names: seq<string>, owned: map<string, PkgEntry>, removed: seq<string>, name: string)
    requires DropsDone(found, r, names, owned, removed) && name in found && name !in names && Kept(found, name, r)
    ensures name in owned && owned[name] == found[name]
    ensures DropsDone(found, r, names + [name],
                      if name in r.findings then owned else owned[name := Without(owned[name], r.branch)], removed)
  {
    hide Kept, Without, Ascending;
    assert forall n :: n in names + [name] <==> n in names || n == name;
  }

  lemma DropRemoves(found: map<string, PkgEntry>, r: Report, names: seq<string>, owned: map<string, PkgEntry>, removed: seq<string>, name: string)
    requires DropsDone(found, r, names, owned, removed) && name in found && name !in names && !Kept(found, name, r)
    requires Ascending(removed + [name])
    ensures name in owned && owned[name] == found[name]
    ensures DropsDone(found, r, names + [name], owned - {name}, removed + [name])
  {
    hide Kept, Without, Ascending;
    assert forall n :: n in names + [name] <==> n in names || n == name;
  }

  /** The second pass: this branch is taken off every package that the report does not name. */
  method DropStale(found: map<string, PkgEntry>, r: Report) returns (owned: map<string, PkgEntry>, removed: seq<string>)
    ensures forall n :: n in owned <==> n in found && Kept(found, n, r)
    ensures forall n :: n in owned ==> owned[n] == if n in r.findings then found[n] else Without(found[n], r.branch)
    ensures Lists(removed, found.Keys - owned.Keys)
  {
    hide Less, Others, Sort, Insert;
    owned, removed := found, [];
    var names := SortedNames(owned.Keys);
    for i := 0 to |names|
      invariant DropsDone(found, r, names[..i], owned, removed)
    {
      hide DropsDone, Ascending;
      var name := names[i];
      assert names[..i + 1] == names[..i] + [name];
      NotBefore(names, i);
      if Kept(found, name, r) {
        DropKeeps(found, r, names[..i], owned, removed, name);
      } else {
        RemovedBefore(found, r, names[..i], owned, removed);
        AscendingSnoc(removed, names, i);
        DropRemoves(found, r, names[..i], owned, removed, name);
      }
      if name in r.findings {
        continue;
      }
      var branches := Others(owned[name].branches, r.branch);
      if branches == [] {
        removed := removed + [name];
        owned := owned - {name};
      } else {
        owned := owned[name := owned[name].(branches := branches)];
      }
    }
    assert names[..|names|] == names;
  }

  lemma RemovedBefore(found: map<string, PkgEntry>, r: Report, names: seq<string>, owned: map<string, PkgEntry>, removed: seq<string>)
    requires DropsDone(found, r, names, owned, removed)
    ensures Ascending(removed) && forall n :: n in removed ==> n in names
  {
    hide Kept, Without, Ascending;
  }

  method Sync(items: seq<Item>, r: Report) returns (merged: seq<Item>, newPackages: seq<string>, removed: seq<string>)
    ensures Renders(merged, Foreigns(items), SyncMap(OwnedMap(items), r))
    ensures Lists(newPackages, r.findings.Keys - OwnedMap(items).Keys)
    ensures Lists(removed, OwnedMap(items).Keys - SyncMap(OwnedMap(items), r).Keys)
  {
    hide Sort, Found, Less, Others, Fresh, Ascending, Foreigns, OwnedMap, Rendered;
    var was := OwnedMap(items);
    var owned;
    owned, newPackages := AddFound(was, r);
    owned, removed := DropStale(owned, r);
    assert owned == SyncMap(was, r);
    var names := SortedNames(owned.Keys);
    merged := Foreigns(items) + Rendered(names, owned);
  }

  // ----- reading back what was written

  lemma {:induction false} OwnedMapConcat(a: seq<Item>, b: seq<Item>)
    ensures OwnedMap(a + b) == OwnedMap(a) + OwnedMap(b)
    decreases |b|
  {
    if b == [] {
      assert a + b == a;
    } else {
      var n := |b| - 1;
      assert (a + b)[..|a + b| - 1] == a + b[..n];
      OwnedMapConcat(a, b[..n]);
    }
  }

  lemma {:induction false} ForeignsConcat(a: seq<Item>, b: seq<Item>)
    ensures Foreigns(a + b) == Foreigns(a) + Foreigns(b)
  {
    if a == [] {
      assert a + b == b;
    } else {
      hide Foreigns;
      assert a == [a[0]] + a[1..] && a + b == [a[0]] + (a[1..] + b);
      ForeignsConcat(a[1..], b);
      ForeignsCons(a[0], a[1..] + b);
      ForeignsCons(a[0], a[1..]);
    }
  }

  lemma ForeignsCons(x: Item, rest: seq<Item>)
    ensures Foreigns([x] + rest) == (if x.Foreign? then [x] else []) + Foreigns(rest)
  {
    assert ([x] + rest)[1..] == rest;
  }

  predicate Named(owned: map<string, PkgEntry>) {
    forall n :: n in owned ==> owned[n].package == n
  }

  lemma OneOwned(owned: map<string, PkgEntry>, name: string)
    requires name in owned && Named(owned)
    ensures Foreigns([Owned(owned[name])]) == [] && OwnedMap([Owned(owned[name])]) == map[name := owned[name]]
  {
    var items := [Owned(owned[name])];
    assert items[1..] == [] && items[..0] == [];
  }

  /** The entries of some of the packages. */
  function Among(owned: map<string, PkgEntry>, names: seq<string>): map<string, PkgEntry> {
    map n | n in owned && n in names :: owned[n]
  }

  lemma AmongStep(owned: map<string, PkgEntry>, names: seq<string>)
    requires names != [] && names[0] in owned && names[0] !in names[1..]
    ensures Among(owned, names) == map[names[0] := owned[names[0]]] + Among(owned, names[1..])
  {
    assert names == [names[0]] + names[1..];
  }

  lemma {:induction false} RenderedReads(names: seq<string>, owned: map<string, PkgEntry>)
    requires Named(owned) && Ascending(names) && forall n :: n in names ==> n in owned
    ensures Foreigns(Rendered(names, owned)) == []
    ensures OwnedMap(Rendered(names, owned)) == Among(owned, names)
  {
    hide Less, Among, OwnedMap, Foreigns, Ascending;
    if names == [] {
      NothingRendered(owned);
    } else {
      TailOf(names);
      var head, rest := [Owned(owned[names[0]])], Rendered(names[1..], owned);
      RenderedReads(names[1..], owned);
      assert Rendered(names, owned) == head + rest;
      ForeignsConcat(head, rest);
      OwnedMapConcat(head, rest);
      OneOwned(owned, names[0]);
      AmongStep(owned, names);
    }
  }

  lemma NothingRendered(owned: map<string, PkgEntry>)
    ensures OwnedMap([]) == Among(owned, []) && Foreigns([]) == []
  {
  }

  lemma {:induction false} ForeignsOnly(items: seq<Item>)
    requires forall i :: 0 <= i < |items| ==> items[i].Foreign?
    ensures Foreigns(items) == items && OwnedMap(items) == map[]
    decreases |items|
  {
    if items != [] {
      ForeignsOnly(items[1..]);
      ForeignsOnly(items[..|items| - 1]);
    }
  }

  lemma {:induction false} ForeignsAreForeign(items: seq<Item>)
    ensures forall i :: 0 <= i < |Foreigns(items)| ==> Foreigns(items)[i].Foreign?
  {
    if items != [] { ForeignsAreForeign(items[1..]); }
  }

  /** A written ledger reads back as what was written: the foreign items and the package entries. */
  lemma WrittenReadsBack(items: seq<Item>, foreign: seq<Item>, owned: map<string, PkgEntry>)
    requires Renders(items, foreign, owned) && Named(owned)
    requires forall i :: 0 <= i < |foreign| ==> foreign[i].Foreign?
    ensures Foreigns(items) == foreign && OwnedMap(items) == owned
  {
    hide OwnedMap, Foreigns, Rendered, Ascending, Named;
    var names: seq<string> :| Lists(names, owned.Keys) && items == foreign + Rendered(names, owned);
    RenderedReads(names, owned);
    ForeignsOnly(foreign);
    ForeignsConcat(foreign, Rendered(names, owned));
    OwnedMapConcat(foreign, Rendered(names, owned));
    assert owned == Among(owned, names);
  }

  lemma {:induction false} OwnedMapNamed(items: seq<Item>)
    ensures Named(OwnedMap(items))
    decreases |items|
  {
    if items != [] { OwnedMapNamed(items[..|items| - 1]); }
  }

  lemma SyncNamed(owned: map<string, PkgEntry>, r: Report)
    requires Named(owned)
    ensures Named(SyncMap(owned, r))
  {
    hide Sort;
  }

  /** Two files written from the same entries are the same file. */
  lemma RendersUnique(a: seq<Item>, b: seq<Item>, foreign: seq<Item>, owned: map<string, PkgEntry>)
    requires Renders(a, foreign, owned) && Renders(b, foreign, owned)
    ensures a == b
  {
    var x: seq<string> :| Lists(x, owned.Keys) && a == foreign + Rendered(x, owned);
    var y: seq<string> :| Lists(y, owned.Keys) && b == foreign + Rendered(y, owned);
    ListsUnique(x, y);
  }

  // ----- one sync

  /** The branches that an entry lists for a package; none when there is no entry. */
  function Tracked(owned: map<string, PkgEntry>, p: string): set<string> {
    if p in owned then set b | b in owned[p].branches else {}
  }

  lemma {:induction false} OthersFacts(branches: seq<string>, branch: string)
    ensures forall b :: b in Others(branches, branch) <==> b in branches && b != branch
    ensures Ascending(branches) ==> Ascending(Others(branches, branch))
    ensures branch !in branches ==> Others(branches, branch) == branches
  {
    hide Less;
    if branches != [] {
      assert branches == [branches[0]] + branches[1..];
      OthersFacts(branches[1..], branch);
      if Ascending(branches) {
        TailOf(branches);
        var rest := Others(branches[1..], branch);
        forall i | 0 <= i < |rest|
          ensures Less(branches[0], rest[i])
        {
          assert rest[i] in branches[1..];
          FirstIsLeast(branches, rest[i]);
        }
      }
    }
  }

  lemma FoundTracks(e: PkgEntry, f: Finding, r: Report)
    ensures (set b | b in Found(e, f, r).branches) == (set b | b in e.branches) + {r.branch}
    ensures Ascending(Found(e, f, r).branches)
  {
    hide Sort, Less;
    SortLists(e.branches + [r.branch]);
  }

  lemma WithoutTracks(e: PkgEntry, branch: string)
    ensures (set b | b in Without(e, branch).branches) == (set b | b in e.branches) - {branch}
    ensures Others(e.branches, branch) == [] <==> (set b | b in Without(e, branch).branches) == {}
    ensures Ascending(e.branches) ==> Ascending(Without(e, branch).branches)
  {
    hide Less, Others;
    OthersFacts(e.branches, branch);
    var rest := Others(e.branches, branch);
    assert |rest| > 0 ==> rest[0] in rest;
    var tracked := set b | b in Without(e, branch).branches;
    assert |rest| > 0 ==> rest[0] in tracked;
    assert |rest| == 0 ==> forall b :: b !in tracked;
  }

  /** One report adds its branch to the packages it names and takes it off all others; nothing else moves. */
  lemma SyncTracks(owned: map<string, PkgEntry>, r: Report, p: string)
    ensures Tracked(SyncMap(owned, r), p)
         == if p in r.findings then Tracked(owned, p) + {r.branch} else Tracked(owned, p) - {r.branch}
    ensures p in SyncMap(owned, r) <==> Tracked(SyncMap(owned, r), p) != {}
    ensures p in SyncMap(owned, r) && (p in owned ==> Ascending(owned[p].branches)) ==> Ascending(SyncMap(owned, r)[p].branches)
  {
    hide Found, Without, Ascending, Others;
    if p in r.findings {
      FoundTracks(if p in owned then owned[p] else Fresh(p, r), r.findings[p], r);
      assert r.branch in Tracked(SyncMap(owned, r), p);
    } else if p in owned {
      WithoutTracks(owned[p], r.branch);
    }
  }

  /** While an entry survives a sync, its dates, its tag, its human reason and its unknown keys stay. */
  lemma SyncConserves(owned: map<string, PkgEntry>, r: Report, p: string)
    requires p in owned && p in SyncMap(owned, r)
    ensures var e, after := owned[p], SyncMap(owned, r)[p];
            && (e.reviewBy.Some? ==> after.reviewBy == e.reviewBy)
            && (e.introduced.Some? ==> after.introduced == e.introduced)
            && (HumanReason(e.reason) ==> after.reason == e.reason)
            && (after.reason == e.reason || after.reason == REASON)
            && after.extra == e.extra && after.package == e.package
  {
    hide Sort;
  }

  /**
   One sync of one entry, field by field. A report that names the package
   replaces what it describes, fills in the tag and the date that are missing,
   and gives the standing reason where nobody wrote another; a report that does
   not name it takes its branch off the entry and touches nothing else.
   */
  lemma SyncEntry(owned: map<string, PkgEntry>, r: Report, p: string)
    requires p in owned && p in SyncMap(owned, r)
    ensures var e, after := owned[p], SyncMap(owned, r)[p];
            if p in r.findings then
              var f := r.findings[p];
              && after.installed == f.installed && after.severity == f.severity && after.cves == f.cves
              && after.introduced == (if e.introduced.Some? then e.introduced else Some(r.tag))
              && after.reviewBy == (if e.reviewBy.Some? then e.reviewBy else Some(r.reviewBy))
              && after.reason == (if e.reason == "" then REASON else e.reason)
            else
              after == e.(branches := after.branches) && r.branch !in after.branches
  {
    hide Sort;
    if p !in r.findings { OthersFacts(owned[p].branches, r.branch); }
  }

  lemma SortAgain(branches: seq<string>, branch: string)
    ensures Sort(Sort(branches + [branch]) + [branch]) == Sort(branches + [branch])
  {
    hide Sort, Less;
    var once := Sort(branches + [branch]);
    SortLists(branches + [branch]);
    SortLists(once + [branch]);
    assert branch in branches + [branch];
    ListsUnique(Sort(once + [branch]), once);
  }

  /** Repeating a sync with the same report of the same branch, whatever the tag and the date, changes nothing. */
  lemma SyncTwice(owned: map<string, PkgEntry>, r: Report, again: Report)
    requires again.branch == r.branch && again.findings == r.findings
    ensures SyncMap(SyncMap(owned, r), again) == SyncMap(owned, r)
    ensures again.findings.Keys - SyncMap(owned, r).Keys == {}
  {
    hide Found, Others, Fresh;
    var once := SyncMap(owned, r);
    forall p | p in once
      ensures Kept(once, p, again) && SyncMap(once, again)[p] == once[p]
    {
      if p in r.findings {
        FoundAgain(if p in owned then owned[p] else Fresh(p, r), r.findings[p], r, again);
      } else {
        OthersFacts(owned[p].branches, r.branch);
        OthersFacts(Others(owned[p].branches, r.branch), r.branch);
      }
    }
  }

  lemma FoundAgain(e: PkgEntry, f: Finding, r: Report, again: Report)
    requires again.branch == r.branch
    ensures Found(Found(e, f, r), f, again) == Found(e, f, r)
  {
    hide Sort;
    SortAgain(e.branches, r.branch);
  }

  /** On a file: the second sync writes the very same items and reports nothing new and nothing removed. */
  lemma SyncTwiceOnFile(items: seq<Item>, once: seq<Item>, twice: seq<Item>, r: Report, again: Report)
    requires again.branch == r.branch && again.findings == r.findings
    requires Renders(once, Foreigns(items), SyncMap(OwnedMap(items), r))
    requires Renders(twice, Foreigns(once), SyncMap(OwnedMap(once), again))
    ensures twice == once && SyncMap(OwnedMap(once), again).Keys == OwnedMap(once).Keys
  {
    hide SyncMap;
    OwnedMapNamed(items);
    SyncNamed(OwnedMap(items), r);
    ForeignsAreForeign(items);
    WrittenReadsBack(once, Foreigns(items), SyncMap(OwnedMap(items), r));
    SyncTwice(OwnedMap(items), r, again);
    RendersUnique(once, twice, Foreigns(items), SyncMap(OwnedMap(items), r));
  }

  /** Syncs of different branches commute on what is tracked. */
  lemma SyncsCommute(owned: map<string, PkgEntry>, q: Report, r: Report, p: string)
    requires q.branch != r.branch
    ensures Tracked(SyncMap(SyncMap(owned, q), r), p) == Tracked(SyncMap(SyncMap(owned, r), q), p)
    ensures p in SyncMap(SyncMap(owned, q), r) <==> p in SyncMap(SyncMap(owned, r), q)
  {
    hide SyncMap;
    SyncTracks(owned, q, p);
    SyncTracks(owned, r, p);
    SyncTracks(SyncMap(owned, q), r, p);
    SyncTracks(SyncMap(owned, r), q, p);
  }

  // ----- histories

  /** The package entries after a history of reports. */
  function History(owned: map<string, PkgEntry>, rs: seq<Report>): map<string, PkgEntry>
    decreases |rs|
  {
    if rs == [] then owned else SyncMap(History(owned, rs[..|rs| - 1]), rs[|rs| - 1])
  }

  /** A branch's latest report names the package; before its first report, the ledger listed the branch for it. */
  predicate Latest(owned: map<string, PkgEntry>, rs: seq<Report>, p: string, branch: string)
    decreases |rs|
  {
    if rs == [] then branch in Tracked(owned, p)
    else if rs[|rs| - 1].branch == branch then p in rs[|rs| - 1].findings
    else Latest(owned, rs[..|rs| - 1], p, branch)
  }

  /** After any history, the branches tracked for a package are exactly those whose latest report names it. */
  lemma {:induction false} HistoryTracks(owned: map<string, PkgEntry>, rs: seq<Report>, p: string, b: string)
    ensures b in Tracked(History(owned, rs), p) <==> Latest(owned, rs, p, b)
    decreases |rs|
  {
    hide SyncMap;
    if rs != [] {
      HistoryTracks(owned, rs[..|rs| - 1], p, b);
      SyncTracks(History(owned, rs[..|rs| - 1]), rs[|rs| - 1], p);
    }
  }

  lemma {:induction false} HistoryStaysSorted(owned: map<string, PkgEntry>, rs: seq<Report>, p: string)
    requires p in owned ==> Ascending(owned[p].branches)
    ensures p in History(owned, rs) ==> Ascending(History(owned, rs)[p].branches)
    decreases |rs|
  {
    hide SyncMap, Ascending;
    if rs != [] {
      HistoryStaysSorted(owned, rs[..|rs| - 1], p);
      SyncTracks(History(owned, rs[..|rs| - 1]), rs[|rs| - 1], p);
    }
  }

  /**
   The ledger refines the latest reports. After any non-empty history, from
   any ledger, a package has an entry exactly when some branch's latest report
   names it, and the entry lists exactly the branches whose latest report does,
   in order when the ledger began in order.
   */
  lemma LedgerIsExact(owned: map<string, PkgEntry>, rs: seq<Report>, p: string)
    requires rs != []
    ensures p in History(owned, rs) <==> exists b :: Latest(owned, rs, p, b)
    ensures p in History(owned, rs) ==> forall b :: b in History(owned, rs)[p].branches <==> Latest(owned, rs, p, b)
    ensures p in History(owned, rs) && (p in owned ==> Ascending(owned[p].branches)) ==> Ascending(History(owned, rs)[p].branches)
  {
    hide SyncMap, Latest, Ascending;
    SyncTracks(History(owned, rs[..|rs| - 1]), rs[|rs| - 1], p);
    var l := History(owned, rs);
    forall b
      ensures b in Tracked(l, p) <==> Latest(owned, rs, p, b)
    {
      HistoryTracks(owned, rs, p, b);
    }
    if p in owned ==> Ascending(owned[p].branches) { HistoryStaysSorted(owned, rs, p); }
    if p in l {
      var b :| b in Tracked(l, p);
      assert Latest(owned, rs, p, b);
      assert exists x :: Latest(owned, rs, p, x);
    } else {
      forall b
        ensures !Latest(owned, rs, p, b)
      {
        assert b !in Tracked(l, p);
      }
    }
  }

  /** Over any history, as long as a package keeps its entry, the clock and the judgement in it never change. */
  lemma {:induction false} HistoryConserves(owned: map<string, PkgEntry>, rs: seq<Report>, p: string)
    requires forall k :: 0 <= k <= |rs| ==> p in History(owned, rs[..k])
    ensures p in owned && p in History(owned, rs)
    ensures var e, after := owned[p], History(owned, rs)[p];
            && (e.reviewBy.Some? ==> after.reviewBy == e.reviewBy)
            && (e.introduced.Some? ==> after.introduced == e.introduced)
            && (HumanReason(e.reason) ==> after.reason == e.reason)
            && after.extra == e.extra
    decreases |rs|
  {
    hide SyncMap;
    assert rs[..|rs|] == rs && rs[..0] == [];
    assert p in History(owned, rs[..0]) && p in History(owned, rs[..|rs|]);
    if rs != [] {
      var init := rs[..|rs| - 1];
      forall k | 0 <= k <= |init|
        ensures p in History(owned, init[..k])
      {
        assert init[..k] == rs[..k];
      }
      HistoryConserves(owned, init, p);
      SyncConserves(History(owned, init), rs[|rs| - 1], p);
    }
  }

  lemma {:induction false} HistoryConcat(owned: map<string, PkgEntry>, a: seq<Report>, b: seq<Report>)
    ensures History(owned, a + b) == History(History(owned, a), b)
    decreases |b|
  {
    hide SyncMap;
    if b == [] {
      assert a + b == a;
    } else {
      var n := |b| - 1;
      assert (a + b)[..|a + b| - 1] == a + b[..n];
      HistoryConcat(owned, a, b[..n]);
    }
  }

  /** A package that the ledger did not list starts with the report's own tag and review date. */
  lemma NewEntry(owned: map<string, PkgEntry>, r: Report, p: string)
    requires p !in owned && p in SyncMap(owned, r)
    ensures p in r.findings
    ensures var f := r.findings[p];
            SyncMap(owned, r)[p] == PkgEntry(p, f.installed, [r.branch], f.severity, f.cves, REASON, Some(r.tag), Some(r.reviewBy), "")
  {
    hide Sort;
    assert [] + [r.branch] == [r.branch];
    SortOne(r.branch);
  }

  lemma SortOne(x: string)
    ensures Sort([x]) == [x]
  {
    assert [x][1..] == [] && Sort([]) == [];
  }

  /** The review clock of an entry starts with the report that brought the package in, and no later report resets it. */
  lemma ClockStartsOnce(owned: map<string, PkgEntry>, rs: seq<Report>, k: nat, p: string)
    requires k < |rs| && p !in History(owned, rs[..k])
    requires forall j :: k < j <= |rs| ==> p in History(owned, rs[..j])
    ensures rs[..|rs|] == rs && p in History(owned, rs)
    ensures History(owned, rs)[p].introduced == Some(rs[k].tag) && History(owned, rs)[p].reviewBy == Some(rs[k].reviewBy)
  {
    hide SyncMap;
    var born, rest := History(owned, rs[..k + 1]), rs[k + 1..];
    assert rs[..k + 1][..k] == rs[..k] && rs[..k + 1] + rest == rs && rs[..|rs|] == rs;
    assert p in History(owned, rs[..k + 1]);
    NewEntry(History(owned, rs[..k]), rs[k], p);
    HistoryConcat(owned, rs[..k + 1], rest);
    forall j | 0 <= j <= |rest|
      ensures p in History(born, rest[..j])
    {
      assert rs[..k + 1 + j] == rs[..k + 1] + rest[..j];
      HistoryConcat(owned, rs[..k + 1], rest[..j]);
      assert p in History(owned, rs[..k + 1 + j]);
    }
    HistoryConserves(born, rest, p);
  }

  /** The latest finding for a package, of whatever branch, in a history. */
  function LastFinding(rs: seq<Report>, p: string): Option<Finding>
    decreases |rs|
  {
    if rs == [] then None
    else if p in rs[|rs| - 1].findings then Some(rs[|rs| - 1].findings[p])
    else LastFinding(rs[..|rs| - 1], p)
  }

  /** What an entry says of a package is what the latest report that names it says, whichever branch that was. */
  lemma {:induction false} HistoryDescribes(owned: map<string, PkgEntry>, rs: seq<Report>, p: string)
    requires p in History(owned, rs) && LastFinding(rs, p).Some?
    ensures var e, f := History(owned, rs)[p], LastFinding(rs, p).value;
            e.installed == f.installed && e.severity == f.severity && e.cves == f.cves
    decreases |rs|
  {
    hide Sort;
    var n := |rs| - 1;
    if p !in rs[n].findings { HistoryDescribes(owned, rs[..n], p); }
  }

  // ----- histories of files

  /** Each file of the sequence is what one sync wrote from the file before it. */
  ghost predicate FileHistory(files: seq<seq<Item>>, rs: seq<Report>) {
    && |files| == |rs| + 1
    && forall k :: 0 <= k < |rs| ==> Renders(files[k + 1], Foreigns(files[k]), SyncMap(OwnedMap(files[k]), rs[k]))
  }

  /**
   Over any sequence of syncs of a file: the package entries are those of the
   history of reports, and what people wrote by hand keeps its content and its
   order.
   */
  lemma {:induction false} FilesFollowHistory(files: seq<seq<Item>>, rs: seq<Report>)
    requires FileHistory(files, rs)
    ensures OwnedMap(files[|rs|]) == History(OwnedMap(files[0]), rs)
    ensures Foreigns(files[|rs|]) == Foreigns(files[0])
    decreases |rs|
  {
    hide SyncMap, Renders, OwnedMap, Foreigns;
    if rs != [] {
      var n := |rs| - 1;
      FilesFollowHistory(files[..n + 1], rs[..n]);
      SyncWritten(files[n], files[n + 1], rs[n]);
    }
  }

  lemma SyncWritten(before: seq<Item>, after: seq<Item>, r: Report)
    requires Renders(after, Foreigns(before), SyncMap(OwnedMap(before), r))
    ensures Foreigns(after) == Foreigns(before) && OwnedMap(after) == SyncMap(OwnedMap(before), r)
  {
    hide SyncMap;
    OwnedMapNamed(before);
    SyncNamed(OwnedMap(before), r);
    ForeignsAreForeign(before);
    WrittenReadsBack(after, Foreigns(before), SyncMap(OwnedMap(before), r));
  }
}
