/**
 Real inputs on which the program does not do what its documentation says,
 one for each failure whose exact condition is proved elsewhere.
 */
module Witnesses {
  import opened Text
  import opened Refusals
  import opened SmbRows
  import opened SmbConf
  import opened GlobalOptions
  import opened Reconcile
  import opened InForce
  import opened LineBreaks
  import opened Versions
  import opened Lifecycle
  import Runs = WatcherRuns
  import Watcher

  // ----- words

  lemma OneWord(w: string)
    requires w != "" && NoSpace(w)
    ensures Fields(w) == [w] && Normalize(w) == w && Trim(w) == w
  {
    FieldsOfJoin([w]);
    assert Text.Join([w], " ") == w;
    assert TrimLeft(w) == w && TrimRight(w) == w;
  }

  // ----- a TLS path that is rewritten on every start

  const NO_OPTIONS := Config("", "", "", [])

  lemma EmptyBlock(block: string)
    requires block == ""
    ensures LastWins([]) == [] && ParseAll(LineResults(Lines(block))) == Good([])
  {
    assert Lines(block) == [""];
    assert Trim("") == "";
    assert LineResults([""]) == [Skipped] by { assert [""][1..] == []; }
    assert [Skipped][1..] == [];
  }

  lemma LoadedWithout(c: Config)
    requires c.options == [] && CheckTLSTrio(c).None?
    requires Trim(c.tlsCert) == c.tlsCert && Trim(c.tlsKey) == c.tlsKey && Trim(c.tlsCA) == c.tlsCA
    ensures Loaded(c)
  {
    EmptyBlock("");
  }

  lemma TwoSpaces(path: string, a: string, b: string)
    requires path == a + [' '] + ([' '] + b) && a != "" && b != "" && NoSpace(a) && NoSpace(b)
    ensures Normalize(path) != path
  {
    hide NoSpace, IsSpace, Fields;
    SpaceIsSpace();
    FieldsConcat(a, ' ', [' '] + b);
    FieldsConcat("", ' ', b);
    assert [' '] + b == "" + [' '] + b;
    OneWord(a);
    OneWord(b);
    NoWords();
    assert Fields(path) == [a, b];
    assert Text.Join([a, b], " ") == a + " " + b by { assert [a, b][1..] == [b]; }
    assert |Normalize(path)| < |path|;
  }

  lemma SpaceIsSpace()
    ensures IsSpace(' ')
  {
  }

  lemma SpacedPath(path: string, a: string, b: string)
    requires path == "/run/tls  old/cert.pem" && a == "/run/tls" && b == "old/cert.pem"
    ensures path == a + [' '] + ([' '] + b) && NoSpace(a) && NoSpace(b)
  {
  }

  /** A certificate path with two spaces in a row: the configuration loads, and no pass over any file is ever the last. */
  lemma TwoSpacesNeverSettle(conf: string, c: Config)
    requires c == Config("/run/tls  old/cert.pem", "/run/tls/key.pem", "/run/tls/ca.pem", [])
    ensures Loaded(c) && Pass(Pass(conf, c).0, c).1 != []
  {
    hide Pass, Normalize, CanonicalKey;
    LoadedWithout(c);
    SpacedPath(c.tlsCert, "/run/tls", "old/cert.pem");
    TwoSpaces(c.tlsCert, "/run/tls", "old/cert.pem");
    SecondPassQuietIff(conf, c);
    assert TLSOptions(c)[0] in TLSOptions(c);
  }

  // ----- a key that stands twice in [global]

  lemma SettingLine(k: char, v: char)
    requires !IsSpace(k) && !IsSpace(v) && k !in "#;[=" && v != '='
    ensures Read([k] + "=" + [v]) == Setting(CanonicalKey([k]), [v])
  {
    hide CanonicalKey, Normalize;
    var line := [k] + "=" + [v];
    assert TrimLeft(line) == line && TrimRight(line) == line;
    CutAtFirst([k], '=', [v]);
    assert line == [k] + ['='] + [v];
    OneWord([v]);
  }

  lemma ThreeRows(x: string, y: string, z: string)
    requires OneLine(x) && OneLine(y) && OneLine(z)
    ensures Rows(Unlines([x, y, z])) == [RowOf(x), RowOf(y), RowOf(z)]
  {
    hide Read, Unlines, Lines;
    LinesRoundTrip("", [x, y, z]);
    assert [x, y, z][1..] == [y, z] && [y, z][1..] == [z] && [z][1..] == [];
    assert RowsOf([z]) == [RowOf(z)] && RowsOf([y, z]) == [RowOf(y)] + RowsOf([z]);
  }

  lemma TwoSettings(header: Row, x: Row, y: Row, key: string)
    requires header.says == Section(GLOBAL) && x.says.Setting? && y.says.Setting? && x.says.key == y.says.key == key
    ensures ValuesOf(EntriesFrom([header, x, y], ""), GLOBAL, key) == [x.says.value, y.says.value]
  {
    var a, b := Entry(GLOBAL, key, x.says.value), Entry(GLOBAL, key, y.says.value);
    assert [header, x, y][1..] == [x, y] && [x, y][1..] == [y] && [y][1..] == [];
    assert EntriesFrom([y], GLOBAL) == [b];
    assert EntriesFrom([x, y], GLOBAL) == [a, b];
    assert EntriesFrom([header, x, y], "") == [] + [a, b] == [a, b];
    assert ValuesOf([a, b], GLOBAL, key) == [x.says.value] + ValuesOf([a, b][1..], GLOBAL, key);
    assert [a, b][1..] == [b] && [b][1..] == [];
    assert ValuesOf([b], GLOBAL, key) == [y.says.value];
  }

  const TWICE := ["[global]", "a=1", "a=2"]

  /** Setting `a` to 1 in a file that says 1 and then 2 changes nothing, and the last occurrence still says 2. */
  lemma LastOccurrenceStays(conf: string, one: string)
    requires conf == Unlines(TWICE) && one == "1"
    ensures WithSetting(conf, "a", one) == (conf, Unchanged)
    ensures Reads(conf, GLOBAL, CanonicalKey("a")) == ["1", "2"]
  {
    hide WithSetting, Unlines, CanonicalKey, Read;
    var key := CanonicalKey("a");
    HeaderReads();
    SettingLine('a', '1');
    SettingLine('a', '2');
    assert ['a'] == "a" && ['1'] == "1" && ['2'] == "2" && ['a'] + "=" + ['1'] == "a=1" && ['a'] + "=" + ['2'] == "a=2";
    ThreeRows("[global]", "a=1", "a=2");
    TwoSettings(RowOf("[global]"), RowOf("a=1"), RowOf("a=2"), key);
    UnchangedIff(conf, "a", one);
  }

  // ----- a value that opens a section

  lemma SectionLine(line: string)
    requires line == "[x]"
    ensures Read(line).Section? && Read(line).name != GLOBAL
  {
    OneWord(line);
    assert line[1..|line| - 1] == "x";
    OneWord("x");
  }

  lemma TwoRows(x: string, y: string)
    requires OneLine(x) && OneLine(y)
    ensures Rows(Unlines([x, y])) == [RowOf(x), RowOf(y)] && Unlines([x, y]) == TextOf([RowOf(x), RowOf(y)])
    ensures Proper([RowOf(x)]) && Proper([RowOf(y)])
  {
    hide Read, Unlines, Lines;
    LinesRoundTrip("", [x, y]);
    assert [x, y][1..] == [y] && [y][1..] == [];
    assert RowsOf([y]) == [RowOf(y)];
    assert [RowOf(x), RowOf(y)][1..] == [RowOf(y)] && [RowOf(y)][1..] == [];
    assert Texts([RowOf(y)]) == [y] + Texts([]) == [y];
    assert Texts([RowOf(x), RowOf(y)]) == [x] + Texts([RowOf(y)]) == [x, y];
    ProperEntry(x);
    ProperEntry(y);
  }

  lemma SecondLine(first: string, second: string)
    requires OneLine(first) && OneLine(second)
    ensures Lines(first + "\n" + second) == [first, second]
  {
    SplitOnConcat(first, '\n', second);
    SplitOnAbsent(first, '\n');
    SplitOnAbsent(second, '\n');
  }

  /** A file that sets another key in [global], and an entry whose second line opens a section. */
  lemma MovedByEntry(conf: string, header: Row, other: Row, key: string, value: string, first: string, second: string)
    requires Rows(conf) == [header, other] && header.says == Section(GLOBAL) && Proper([header]) && Proper([other])
    requires other.says.Setting? && other.says.key != CanonicalKey(key)
    requires Lines(EntryLine(key, value)) == [first, second]
    requires Read(first).Setting? && Read(first).key != other.says.key && Read(second).Section? && Read(second).name != GLOBAL
    ensures Reads(WithSetting(conf, key, value).0, GLOBAL, other.says.key) == []
  {
    hide Unlines, CanonicalKey, Read, Lines, EntryLine, TextOf, Rows, Proper, EntriesFrom, ValuesOf, WithSetting;
    var k := other.says.key;
    InsertedBetween(conf, header, other, key, value);
    ManyLines([header], EntryLine(key, value), [other]);
    TwoLines(first, second);
    MovedAway(header, RowOf(first), RowOf(second), other, k);
    assert [header] + [RowOf(first), RowOf(second)] + [other] == [header, RowOf(first), RowOf(second), other];
  }

  lemma TwoLines(first: string, second: string)
    ensures RowsOf([first, second]) == [RowOf(first), RowOf(second)]
  {
    hide RowOf;
    assert [first, second][1..] == [second] && [second][1..] == [];
    assert RowsOf([second]) == [RowOf(second)];
  }

  /**
   A certificate path with a line break in front of "[x]": the configuration
   loads, and a reconcile takes a setting that it has no business with out of
   [global].
   */
  lemma LineBreakMovesSettings(conf: string, c: Config)
    requires conf == Unlines(["[global]", "b=2"]) && c == Config("/c" + "\n" + "[x]", "/k", "/a", [])
    ensures Loaded(c) && Undeclared(c, GLOBAL, CanonicalKey("b"))
    ensures Reads(conf, GLOBAL, CanonicalKey("b")) == ["2"] && Reads(Pass(conf, c).0, GLOBAL, CanonicalKey("b")) == []
  {
    hide Unlines, CanonicalKey, Pass, Reads, OneLine, GoodKey, TLSOptions, Loaded, OwnerOf, Undeclared;
    PathsOfOneWord(c.tlsKey, c.tlsCA);
    BrokenPath(c.tlsCert);
    LoadedWithout(c);
    ShortKey("b");
    TwoSettingsFile(conf);
    PathMoves(conf, c.tlsCert, CanonicalKey("b"));
    OthersDoNotReturn(conf, c, CanonicalKey("b"));
  }

  /** The edit for the certificate path. */
  lemma PathMoves(conf: string, path: string, key: string)
    requires Rows(conf) == [RowOf("[global]"), RowOf("b=2")] && Proper([RowOf("[global]")]) && Proper([RowOf("b=2")])
    requires Read("[global]") == Section(GLOBAL) && Read("b=2") == Setting(key, "2") && |key| == 1
    requires path == "/c" + "\n" + "[x]"
    ensures Reads(WithSetting(conf, TLS_CERT, path).0, GLOBAL, key) == []
  {
    hide CanonicalKey, Read, Lines, EntryLine, Rows, Proper, Reads, WithSetting, GoodKey;
    TLSCertName(TLS_CERT);
    EntryOfTwoLines(TLS_CERT, path);
    MovedByEntry(conf, RowOf("[global]"), RowOf("b=2"), TLS_CERT, path, EntryLine(TLS_CERT, "/c"), "[x]");
  }

  /** The edits for the two other paths do not bring back what the first one moved. */
  lemma OthersDoNotReturn(conf: string, c: Config, key: string)
    requires Loaded(c) && c.options == [] && c.tlsCert != "" && OneLine(c.tlsKey) && OneLine(c.tlsCA) && |key| == 1
    requires Reads(WithSetting(conf, TLS_CERT, c.tlsCert).0, GLOBAL, key) == []
    ensures Undeclared(c, GLOBAL, key) && Reads(Pass(conf, c).0, GLOBAL, key) == []
  {
    hide CanonicalKey, Reads, WithSetting, GoodKey, Loaded, OwnerOf, SetAll, Pass, OneLine, Written, AllClear, OneLineValues, Distinct;
    var os := TLSOptions(c);
    LongNames(c, key);
    TLSOptionsWritable(c);
    NothingRemoved(conf, c);
    assert os + c.options == os && os == [os[0]] + os[1..];
    SetAllConcat(conf, [os[0]], os[1..]);
    SetOne(conf, os[0]);
    TailWritable(os);
    var rest := os[1..];
    OneLineClear(rest, GLOBAL, key);
    SetAllReads(SetAll(conf, [os[0]]).0, rest, GLOBAL, key);
  }

  lemma LongNames(c: Config, key: string)
    requires c.options == [] && c.tlsCert != "" && OneLine(c.tlsKey) && OneLine(c.tlsCA) && |key| == 1
    ensures Undeclared(c, GLOBAL, key) && OneLineValues(TLSOptions(c)[1..])
    ensures IndexOfOption(TLSOptions(c)[1..], key) == 2
  {
    hide CanonicalKey, GoodKey, OneLine;
    TLSCertName(TLS_CERT);
    TLSKeyName(TLS_KEY);
    TLSCAName(TLS_CA);
    var os := TLSOptions(c);
    assert os[1..] == [os[1], os[2]];
    assert forall o :: o in os ==> |o.name.canonical| > 1;
    assert EffectiveOptions(c) == os;
  }

  lemma PathsOfOneWord(k: string, a: string)
    requires k == "/k" && a == "/a"
    ensures Trim(k) == k && Trim(a) == a && OneLine(k) && OneLine(a)
  {
    OneWord(k);
    OneWord(a);
  }

  lemma BrokenPath(path: string)
    requires path == "/c" + "\n" + "[x]"
    ensures Trim(path) == path && IsAbs(path)
  {
    assert TrimLeft(path) == path && TrimRight(path) == path;
  }

  lemma ShortKey(b: string)
    requires b == "b"
    ensures |CanonicalKey(b)| == 1
  {
    OneWord(b);
    assert Text.Join([b], "") == b;
  }

  lemma TwoSettingsFile(conf: string)
    requires conf == Unlines(["[global]", "b=2"])
    ensures Rows(conf) == [RowOf("[global]"), RowOf("b=2")] && Proper([RowOf("[global]")]) && Proper([RowOf("b=2")])
    ensures Read("[global]") == Section(GLOBAL) && Read("b=2") == Setting(CanonicalKey("b"), "2")
    ensures Reads(conf, GLOBAL, CanonicalKey("b")) == ["2"]
  {
    hide Unlines, CanonicalKey, Read, Lines, Rows, Proper, EntriesFrom, ValuesOf;
    HeaderReads();
    SettingLine('b', '2');
    assert ['b'] == "b" && ['b'] + "=" + ['2'] == "b=2" && ['2'] == "2";
    TwoRows("[global]", "b=2");
    OneSetting(RowOf("[global]"), RowOf("b=2"), CanonicalKey("b"));
  }

  lemma EntryOfTwoLines(key: string, value: string)
    requires GoodKey(key) && value == "/c" + "\n" + "[x]"
    ensures Lines(EntryLine(key, value)) == [EntryLine(key, "/c"), "[x]"]
    ensures Read(EntryLine(key, "/c")).Setting? && Read(EntryLine(key, "/c")).key == CanonicalKey(key)
    ensures Read("[x]").Section? && Read("[x]").name != GLOBAL
  {
    hide CanonicalKey, Read, Lines;
    assert EntryLine(key, value) == EntryLine(key, "/c") + "\n" + "[x]";
    SecondLine(EntryLine(key, "/c"), "[x]");
    SectionLine("[x]");
    EntryLineReads(key, "/c");
  }

  lemma OneSetting(header: Row, x: Row, key: string)
    requires header.says == Section(GLOBAL) && x.says.Setting? && x.says.key == key
    ensures ValuesOf(EntriesFrom([header, x], ""), GLOBAL, key) == [x.says.value]
  {
    var a := Entry(GLOBAL, key, x.says.value);
    assert [header, x][1..] == [x] && [x][1..] == [] && [a][1..] == [];
    assert EntriesFrom([x], GLOBAL) == [a];
    assert EntriesFrom([header, x], "") == [] + [a] == [a];
  }

  lemma InsertedBetween(conf: string, header: Row, other: Row, key: string, value: string)
    requires Rows(conf) == [header, other] && header.says == Section(GLOBAL)
    requires other.says.Setting? && other.says.key != CanonicalKey(key)
    ensures WithSetting(conf, key, value).0 == TextOf([header] + [RowOf(EntryLine(key, value))] + [other])
  {
    hide Rows, TextOf, CanonicalKey, EntryLine, Read;
    WithSettingCases(conf, key, value, EntryLine(key, value), CanonicalKey(key));
    var rows := [header, other];
    assert FindSetting(rows, 2, GLOBAL, CanonicalKey(key)) == 2;
    assert FindSetting(rows, 1, GLOBAL, CanonicalKey(key)) == 2;
    assert FindSetting(rows, 0, "", CanonicalKey(key)) == 2;
    assert FindGlobal(rows, 0) == 0 && rows[..1] == [header] && rows[1..] == [other];
  }

  lemma MovedAway(header: Row, x: Row, y: Row, z: Row, key: string)
    requires header.says == Section(GLOBAL) && x.says.Setting? && x.says.key != key
    requires y.says.Section? && y.says.name != GLOBAL && z.says.Setting?
    ensures ValuesOf(EntriesFrom([header, x, y, z], ""), GLOBAL, key) == []
  {
    var a, c := Entry(GLOBAL, x.says.key, x.says.value), Entry(y.says.name, z.says.key, z.says.value);
    assert [header, x, y, z][1..] == [x, y, z] && [x, y, z][1..] == [y, z] && [y, z][1..] == [z] && [z][1..] == [];
    assert EntriesFrom([z], y.says.name) == [c];
    assert EntriesFrom([y, z], GLOBAL) == [] + [c] == [c];
    assert EntriesFrom([x, y, z], GLOBAL) == [a] + [c] == [a, c];
    assert EntriesFrom([header, x, y, z], "") == [] + [a, c] == [a, c];
    assert [a, c][1..] == [c] && [c][1..] == [];
    assert ValuesOf([c], GLOBAL, key) == [];
  }

  // ----- a version with a space in front

  lemma ReleaseText(v: string, a: string, b: string, c: string)
    requires Trim(v) == a + "." + b + "." + c
    requires ParsePart(a).Some? && ParsePart(b).Some? && ParsePart(c).Some?
    ensures Valid(v) && Triple(v) == [Number(a), Number(b), Number(c)]
  {
    hide Number, Trim;
    assert '.' !in a && '.' !in b && '.' !in c;
    SplitJoin([a, b, c], '.');
    JoinDots(a, b, c);
  }

  lemma SmallNumber(p: string)
    requires p in ["4", "24", "7", "8"]
    ensures ParsePart(p).Some? && Number(p) == if p == "4" then 4 else if p == "24" then 24 else if p == "7" then 7 else 8
  {
    assert "4"[..0] == "" && "7"[..0] == "" && "8"[..0] == "" && "24"[..1] == "2" && "2"[..0] == "";
    assert Number("") == 0;
    assert Number("2") == 2;
  }

  lemma TrimSpaced(v: string, t: string)
    requires v == " " + t && t == "4.24.7"
    ensures Trim(v) == t && Trim(t) == t
  {
    OneWord(t);
    assert v[1..] == t;
  }

  /** The entrypoint reads " 4.24.7" as 4.24.7, the watcher as a version whose major number is 0. */
  lemma SpacedVersionDiffers(v: string, t: string)
    requires v == " " + t && t == "4.24.7"
    ensures Valid(v) && Valid(t) && Triple(v) == Triple(t) == [4, 24, 7] && VersionKey(v) != Triple(v)
  {
    hide Trim, Number, VersionKey;
    TrimSpaced(v, t);
    SmallNumber("4");
    SmallNumber("24");
    SmallNumber("7");
    assert t == "4" + "." + "24" + "." + "7";
    ReleaseText(v, "4", "24", "7");
    ReleaseText(t, "4", "24", "7");
    KeysAgreeIff(v);
  }

  // ----- a release whose soak was interrupted

  function Pinning(version: string): Watcher.Entry {
    Watcher.Entry(version, 1, "", Watcher.Ref("debian", "d"), Watcher.Ref("debian", "d"), Watcher.Ref("golang", "g"), "h")
  }

  /** A repository with the one branch 4.24, never observed before. */
  function OneBranch(version: string): Runs.Sys {
    Runs.Sys(Watcher.Repo("4.24", map["4.24" := Pinning(version)], map[], [], {}), {})
  }

  /** A run with a soak of a day, in which every command succeeds. */
  function RunAt(hour: real, latest: string, through: bool): Runs.Run {
    Runs.Run(Watcher.Policy(hour, 24.0, false), map["4.24" := Watcher.Observation(latest, Watcher.NOTHING)], {},
                    (_, _) => Some(""), true, through, {})
  }

  lemma PlainRelease(v: string, c: string)
    requires v == "4" + "." + "24" + "." + c && c in ["7", "8"]
    ensures Plain(v) && Valid(v) && Triple(v) == [4, 24, if c == "7" then 7 else 8]
  {
    hide Trim, Number;
    SmallNumber("4");
    SmallNumber("24");
    SmallNumber(c);
    OneWord(v);
    ReleaseText(v, "4", "24", c);
  }

  lemma EightIsNewer(eight: string, seven: string)
    requires eight == "4.24.8" && seven == "4.24.7"
    ensures Newer(eight, seven)
  {
    hide Trim, Number, Valid, Triple, Plain;
    PlainRelease(eight, "8");
    PlainRelease(seven, "7");
    OneOrder(eight, seven);
    LastDecides(4, 24, 7, 8);
  }

  lemma LastDecides(a: nat, b: nat, c: nat, d: nat)
    requires c < d
    ensures Order([a, b, d], [a, b, c]) == 1
  {
    assert [a, b, d][1..] == [b, d] && [a, b, c][1..] == [b, c] && [b, d][1..] == [d] && [b, c][1..] == [c];
    assert Order([d], [c]) == 1;
    assert Order([b, d], [b, c]) == 1;
  }

  lemma FirstRunCommits(s: Runs.Sys, order: seq<string>, run: Runs.Run)
    requires s == OneBranch("4.24.7") && order == ["4.24"] && run == RunAt(0.0, "4.24.8", true) && Newer("4.24.8", "4.24.7")
    ensures Runs.Enumerates(order, s.repo) && Runs.Outcome(s, order, run).Some?
  {
    hide Newer;
    var job := Watcher.Job("4.24", Runs.Decided(s, run, "4.24"));
    assert Runs.Jobs(s, order, run) == [job];
    assert job.decision.action == Watcher.Rest;
    OneRest(s.repo, job, s.remote, run.steps);
  }

  /** A run with one decision that changes no pin is carried out when its commands succeed. */
  lemma OneRest(r: Watcher.Repo, job: Watcher.Job, remote: set<Watcher.Tag>, steps: Watcher.Steps)
    requires job.branch in r.catalog && job.decision.action == Watcher.Rest && steps(job.branch, job.decision.version).Some?
    ensures Watcher.Carried(r, [job], remote, steps, true).Some?
  {
    hide Watcher.EntryAfter, Watcher.StateAfter;
    assert [job][1..] == [] && [job][0] == job;
    var next := Watcher.ApplyOne(r, job.branch, job.decision, remote, steps(job.branch, job.decision.version));
    assert next.Some?;
    assert Watcher.ApplyAll(next.value, [], remote, steps) == Some((next.value, []));
  }

  /**
   4.24.8 is seen, then 4.24.9 in a run that does not go through, then 4.24.8
   again: it is released 24 hours after the first sighting, though it was not
   the newest version all the while.
   */
  lemma InterruptedSoakReleases(s: Runs.Sys, runs: seq<Runs.Run>)
    requires s == OneBranch("4.24.7")
    requires runs == [RunAt(0.0, "4.24.8", true), RunAt(12.0, "4.24.9", false), RunAt(24.0, "4.24.8", true)]
    ensures Runs.Enumerates(["4.24"], s.repo) && Runs.Committed(s, ["4.24"], runs, 0) && !Runs.Committed(s, ["4.24"], runs, 1)
    ensures Runs.DecidedAt(s, ["4.24"], runs, 2, "4.24").action == Watcher.VersionBump
    ensures Runs.DecidedAt(s, ["4.24"], runs, 2, "4.24").version == "4.24.8"
  {
    hide Newer, Watcher.Decide, Runs.Outcome, Runs.RunStep;
    EightIsNewer("4.24.8", "4.24.7");
    FirstRunCommits(s, ["4.24"], runs[0]);
    Runs.AtZero(s, ["4.24"], runs);
    Runs.NotThrough(s, ["4.24"], runs, 1);
    Runs.LostSightingReleases(s, ["4.24"], runs, "4.24", "4.24.8");
  }

  // ----- boots

  const EMPTY_VOLUME := Machine(Volume(false, Absent), None)

  function Smooth(written: Option<string>, gate: World): Tools {
    Tools(true, true, true, true, Proceed, true, true, false, written, true, true, true, "2026-01-01T00:00:00Z", gate)
  }

  /** A plain first boot: automatic mode, a realm, a password, nothing declared. */
  function FirstBoot(image: string, c: Config, written: Option<string>, gate: World): Boot {
    Boot(Settings(Auto, "ad.example", "/run/secrets/admin", "", false, "2016", "", c), false, image, Smooth(written, gate))
  }

  lemma FirstPlan(image: string, c: Config, written: Option<string>, gate: World)
    ensures PlanOf(EMPTY_VOLUME, FirstBoot(image, c, written, gate)) == Some(Plan(DoProvision, false, false))
  {
    assert "ad.example"[2] == '.';
  }

  /** An image built without a version, as development builds are, provisions, writes that into its marker and starts. */
  lemma UnsetImageStarts(image: string)
    requires image == "unset"
    ensures var b := FirstBoot(image, NO_OPTIONS, Some(""), World(_ => true, true, true));
            var (after, ended) := BootStep(EMPTY_VOLUME, b);
            && ended.Started? && after.volume.file.Held? && after.volume.file.marker.sambaVersion == image
            && !Valid(image) && Compare(after.volume.file.marker.sambaVersion, image) == None
  {
    hide Pass, Decide;
    FirstPlan(image, NO_OPTIONS, Some(""), World(_ => true, true, true));
    NoDots(image);
  }

  lemma NoDots(image: string)
    requires image == "unset"
    ensures !Valid(image)
  {
    OneWord(image);
    SplitOnAbsent(image, '.');
  }

  // ----- files that the gate rejected

  lemma EmptyIsQuiet(conf: string, c: Config)
    requires conf == "" && c == NO_OPTIONS
    ensures Pass(conf, c).1 == []
  {
    hide Pass, Reads, CanonicalKey;
    LoadedWithout(c);
    PassQuietIff(conf, c);
    forall k | k in Canonicals(Removals(c))
      ensures Reads(conf, GLOBAL, k) == []
    {
      EmptyFile(GLOBAL, k);
    }
  }

  lemma RestartPlan(m: Machine, b: Boot)
    requires m.volume.present && m.volume.file.Held? && m.volume.file.marker.sambaVersion == b.image && Valid(b.image)
    requires b.cfg.mode == Auto && b.tools.readable
    ensures PlanOf(m, b) == Some(Plan(DoStart, false, false))
  {
    hide Valid, Triple;
    OrderTotal(Triple(b.image), Triple(b.image));
  }

  /**
   The file that a provision generated is rejected, the first start is
   refused, and the second, identical boot runs the daemons on that file: the
   marker is already there, nothing is left to edit, so nothing is judged.
   */
  lemma RejectedFileIsStarted(image: string, gate: World)
    requires Valid(image) && !gate.accepts("")
    ensures var b := FirstBoot(image, NO_OPTIONS, Some(""), gate);
            var boots := [b, b];
            && EndedAt(EMPTY_VOLUME, boots, 0) == Stopped(ConfigError) && EndedAt(EMPTY_VOLUME, boots, 1).Started?
            && After(EMPTY_VOLUME, boots).conf == Some("")
  {
    hide Pass, Decide, Valid;
    var b := FirstBoot(image, NO_OPTIONS, Some(""), gate);
    var boots := [b, b];
    FirstPlan(image, NO_OPTIONS, Some(""), gate);
    EmptyIsQuiet("", NO_OPTIONS);
    var first := BootStep(EMPTY_VOLUME, b).0;
    assert first.volume == Volume(true, Held(Marker(image, b.tools.now, Provision))) && first.conf == Some("");
    RestartPlan(first, b);
    TwoBoots(EMPTY_VOLUME, b);
  }

  lemma TwoBoots(m: Machine, b: Boot)
    ensures var first := BootStep(m, b);
            && EndedAt(m, [b, b], 0) == first.1 && EndedAt(m, [b, b], 1) == BootStep(first.0, b).1
            && After(m, [b, b]) == BootStep(first.0, b).0
  {
    hide BootStep;
    var first := BootStep(m, b).0;
    assert [b, b][..0] == [] && [b, b][..1] == [b] && [b][1..] == [] && [b, b][1..] == [b];
    assert After(m, [b]) == After(first, []) == first;
    assert After(m, [b, b]) == After(first, [b]) == After(BootStep(first, b).0, []);
  }

  const CUSTOM_TLS := Config("/c", "/k", "/a", [])

  lemma CustomTLS(c: Config)
    requires c == CUSTOM_TLS
    ensures Loaded(c) && forall o :: o in TLSOptions(c) ==> Normalize(o.value) == o.value
  {
    hide Normalize, CanonicalKey;
    LoadedWithout(c);
    OneWord("/c");
    OneWord("/k");
    OneWord("/a");
    var os := TLSOptions(c);
    assert os[0].value == "/c" && os[1].value == "/k" && os[2].value == "/a";
  }

  lemma NotYetSet(conf: string, c: Config)
    requires conf == "" && c == CUSTOM_TLS
    ensures Pass(conf, c).1 != []
  {
    hide Pass, Reads, CanonicalKey;
    CustomTLS(c);
    PassQuietIff(conf, c);
    var o := EffectiveOptions(c)[0];
    assert o in EffectiveOptions(c);
    EmptyFile(GLOBAL, o.name.canonical);
  }

  /**
   A rejected edit could not be put back: the boot is refused, and the next,
   identical one starts the daemons on the rejected text, which now says
   everything that is declared.
   */
  lemma UnrestoredFileIsStarted(m: Machine, image: string, gate: World)
    requires m == Machine(Volume(true, Held(Marker(image, "", Provision))), Some("")) && Valid(image)
    requires gate == World(_ => false, true, false)
    ensures var b := FirstBoot(image, CUSTOM_TLS, None, gate);
            && EndedAt(m, [b, b], 0) == Stopped(ConfigError) && EndedAt(m, [b, b], 1).Started?
            && After(m, [b, b]).conf == Some(Pass("", CUSTOM_TLS).0) && !gate.accepts(Pass("", CUSTOM_TLS).0)
  {
    hide Pass, Decide, Valid, EffectiveOptions;
    var b := FirstBoot(image, CUSTOM_TLS, None, gate);
    RestartPlan(m, b);
    NotYetSet("", CUSTOM_TLS);
    CustomTLS(CUSTOM_TLS);
    SecondPassQuietIff("", CUSTOM_TLS);
    var first := BootStep(m, b).0;
    assert first.volume == m.volume && first.conf == Some(Pass("", CUSTOM_TLS).0);
    RestartPlan(first, b);
    TwoBoots(m, b);
  }
}
