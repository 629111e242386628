/**
 The smb.conf editor of entrypoint/internal/run/run.go on the text of a file:
 setting and unsetting one parameter of the [global] section in place.

 The editors are methods that scan the lines; they are proved against the
 row surgery of SmbRows. What they do to a file is then stated on its text
 and on `Reads`, the list of values the file gives a parameter of a section.
 */
module SmbConf {
  import opened Text
  import opened SmbRows

  function Read(line: string): Line {
    var t := Trim(line);
    if t == "" || t[0] == '#' || t[0] == ';' then Silent
    else if t[0] == '[' && t[|t| - 1] == ']' then Section(Lower(Trim(t[1..|t| - 1])))
    else
      match Cut(t, '=')
      case None => Silent
      case Some((k, v)) => Setting(CanonicalKey(k), Normalize(v))
  }

  function RowOf(line: string): Row {
    Row(line, Read(line))
  }

  function RowsOf(lines: seq<string>): (rows: seq<Row>)
    ensures |rows| == |lines|
  {
    if lines == [] then [] else [RowOf(lines[0])] + RowsOf(lines[1..])
  }

  function Texts(rows: seq<Row>): (lines: seq<string>)
    ensures |lines| == |rows|
  {
    if rows == [] then [] else [rows[0].text] + Texts(rows[1..])
  }

  function Rows(conf: string): (rows: seq<Row>)
    ensures |rows| >= 1
  {
    RowsOf(Lines(conf))
  }

  function TextOf(rows: seq<Row>): string {
    Unlines(Texts(rows))
  }

  function Entries(conf: string): seq<Entry> {
    EntriesFrom(Rows(conf), "")
  }

  /** Every value the file gives a parameter of a section, in file order. */
  function Reads(conf: string, section: string, key: string): seq<string> {
    ValuesOf(Entries(conf), section, key)
  }

  predicate HasGlobal(conf: string) {
    HasHeader(Rows(conf))
  }

  /** The lines of a file that set none of the keys in [global]. */
  function OtherLines(conf: string, keys: set<string>): seq<Row> {
    Strip(Rows(conf), "", keys)
  }

  function EntryLine(key: string, value: string): string {
    "\t" + key + " = " + value
  }

  function TrimBreaks(s: string): string {
    if s != "" && s[|s| - 1] == '\n' then TrimBreaks(s[..|s| - 1]) else s
  }

  const HEADER := Row("[global]", Section(GLOBAL))
  const BLANK := Row("", Silent)

  /** The lines in front of a new section: the file's, its trailing line breaks made one blank line. */
  function FrontLines(conf: string): seq<string> {
    if TrimBreaks(conf) == "" then [] else Lines(TrimBreaks(conf)) + [""]
  }

  /** What a new setting goes into: the file, with an empty [global] section at its end when it has none. */
  function Frame(conf: string): seq<Row> {
    if HasGlobal(conf) then Rows(conf) else RowsOf(FrontLines(conf)) + [HEADER] + [BLANK]
  }

  function WithSetting(conf: string, key: string, value: string): (string, Edit) {
    FrameHasHeader(conf);
    var (rows, edit) := SetRows(Rows(conf), Frame(conf), RowOf(EntryLine(key, value)), CanonicalKey(key), value);
    if edit == Unchanged then (conf, edit) else (TextOf(rows), edit)
  }

  function WithoutSetting(conf: string, key: string): (string, bool) {
    var rows := Strip(Rows(conf), "", {CanonicalKey(key)});
    if rows == Rows(conf) then (conf, false) else (TextOf(rows), true)
  }

  // ----- the editors, as the program runs them

  method WithGlobalSetting(conf: string, key: string, value: string) returns (updated: string, edit: Edit)
    ensures (updated, edit) == WithSetting(conf, key, value)
  {
    hide *;
    var rows := Rows(conf);
    var line := EntryLine(key, value);
    var canonical := CanonicalKey(key);
    WithSettingCases(conf, key, value, line, canonical);
    var section, globalAt := "", -1;
    for i := 0 to |rows|
      invariant FindSetting(rows, 0, "", canonical) == FindSetting(rows, i, section, canonical)
      invariant if globalAt < 0 then FindGlobal(rows, 0) == FindGlobal(rows, i)
                else FindGlobal(rows, 0) == globalAt < i
    {
      ScanStep(rows, i, section, canonical);
      match rows[i].says {
        case Silent =>
        case Section(name) =>
          section := name;
          if section == GLOBAL && globalAt < 0 {
            globalAt := i;
          }
        case Setting(k, v) =>
          if section == GLOBAL && k == canonical {
            if v == value {
              return conf, Unchanged;
            }
            return TextOf(rows[i := RowOf(line)]), Replaced;
          }
      }
    }
    ScanEnd(rows, section, canonical);
    if globalAt >= 0 {
      return TextOf(rows[..globalAt + 1] + [RowOf(line)] + rows[globalAt + 1..]), Added;
    }
    updated := TrimBreaks(conf);
    if updated != "" {
      updated := updated + "\n\n";
    }
    updated, edit := updated + ("[global]" + "\n" + line + "\n"), Added;
  }

  lemma ScanStep(rows: seq<Row>, i: nat, section: string, key: string)
    requires i < |rows|
    ensures FindSetting(rows, i, section, key)
         == match rows[i].says
            case Silent => FindSetting(rows, i + 1, section, key)
            case Section(name) => FindSetting(rows, i + 1, name, key)
            case Setting(k, _) => if section == GLOBAL && k == key then i else FindSetting(rows, i + 1, section, key)
    ensures FindGlobal(rows, i) == if rows[i].says == Section(GLOBAL) then i else FindGlobal(rows, i + 1)
  {
  }

  lemma ScanEnd(rows: seq<Row>, section: string, key: string)
    ensures FindSetting(rows, |rows|, section, key) == |rows| && FindGlobal(rows, |rows|) == |rows|
  {
  }

  lemma WithSettingCases(conf: string, key: string, value: string, line: string, canonical: string)
    requires line == EntryLine(key, value) && canonical == CanonicalKey(key)
    ensures var rows := Rows(conf); var j, g := FindSetting(rows, 0, "", canonical), FindGlobal(rows, 0);
            WithSetting(conf, key, value)
            == if j < |rows| && rows[j].says.value == value then (conf, Unchanged)
               else if j < |rows| then (TextOf(rows[j := RowOf(line)]), Replaced)
               else if g < |rows| then (TextOf(rows[..g + 1] + [RowOf(line)] + rows[g + 1..]), Added)
               else ((if TrimBreaks(conf) == "" then "" else TrimBreaks(conf) + "\n\n") + ("[global]" + "\n" + line + "\n"), Added)
  {
    FrameHasHeader(conf);
    if !HasGlobal(conf) { NewSectionText(conf, line); }
  }

  method WithoutGlobalSetting(conf: string, key: string) returns (updated: string, removed: bool)
    ensures (updated, removed) == WithoutSetting(conf, key)
  {
    var rows := Rows(conf);
    var kept: seq<Row> := [];
    var canonical := CanonicalKey(key);
    var section := "";
    removed := false;
    ghost var all := Strip(rows, "", {canonical});
    for i := 0 to |rows|
      invariant all == kept + Strip(rows[i..], section, {canonical})
      invariant |kept| <= i && (removed <==> |kept| < i)
      invariant !removed ==> kept == rows[..i]
    {
      StripStep(kept, rows, i, section, {canonical});
      match rows[i].says {
        case Silent =>
        case Section(name) =>
          section := name;
        case Setting(k, _) =>
          if section == GLOBAL && k == canonical {
            removed := true;
            continue;
          }
      }
      kept := kept + [rows[i]];
    }
    assert rows[|rows|..] == [] && kept + [] == kept;
    if !removed {
      return conf, false;
    }
    updated := TextOf(kept);
  }

  lemma StripStep(kept: seq<Row>, rows: seq<Row>, i: nat, section: string, keys: set<string>)
    requires i < |rows|
    ensures kept + Strip(rows[i..], section, keys)
         == (if Sets(rows[i], section, keys) then kept else kept + [rows[i]])
            + Strip(rows[i + 1..], NextSection(section, rows[i]), keys)
    ensures rows[..i + 1] == rows[..i] + [rows[i]]
  {
    assert rows[i..][0] == rows[i] && rows[i..][1..] == rows[i + 1..];
  }

  // ----- rows and text

  predicate Proper(rows: seq<Row>) {
    RowsOf(Texts(rows)) == rows && forall i :: 0 <= i < |rows| ==> OneLine(rows[i].text)
  }

  lemma {:induction false} TextsOfRows(lines: seq<string>)
    ensures Texts(RowsOf(lines)) == lines
  {
    if lines != [] { TextsOfRows(lines[1..]); }
  }

  lemma {:induction false} RowsConcat(a: seq<string>, b: seq<string>)
    ensures RowsOf(a + b) == RowsOf(a) + RowsOf(b)
  {
    if a == [] {
      assert a + b == b;
    } else {
      assert (a + b)[1..] == a[1..] + b;
      RowsConcat(a[1..], b);
    }
  }

  lemma {:induction false} TextsConcat(a: seq<Row>, b: seq<Row>)
    ensures Texts(a + b) == Texts(a) + Texts(b)
  {
    if a == [] {
      assert a + b == b;
    } else {
      assert (a + b)[1..] == a[1..] + b;
      TextsConcat(a[1..], b);
    }
  }

  lemma ProperConcat(a: seq<Row>, b: seq<Row>)
    ensures Proper(a) && Proper(b) <==> Proper(a + b)
  {
    TextsConcat(a, b);
    RowsConcat(Texts(a), Texts(b));
    assert (a + b)[..|a|] == a && (a + b)[|a|..] == b;
    assert (RowsOf(Texts(a)) + RowsOf(Texts(b)))[..|a|] == RowsOf(Texts(a));
    assert (RowsOf(Texts(a)) + RowsOf(Texts(b)))[|a|..] == RowsOf(Texts(b));
    forall i | 0 <= i < |a|
      ensures a[i] == (a + b)[i]
    {}
    forall i | 0 <= i < |b|
      ensures b[i] == (a + b)[|a| + i]
    {}
  }

  lemma {:induction false} TextAt(rows: seq<Row>, i: nat)
    requires i < |rows|
    ensures Texts(rows)[i] == rows[i].text
  {
    if i > 0 { TextAt(rows[1..], i - 1); }
  }

  /** Reading and writing back undo each other. */
  lemma RowsRoundTrip(conf: string)
    ensures TextOf(Rows(conf)) == conf && Proper(Rows(conf))
  {
    var lines := Lines(conf);
    TextsOfRows(lines);
    LinesRoundTrip(conf, lines);
    forall i | 0 <= i < |lines|
      ensures OneLine(RowsOf(lines)[i].text)
    {
      TextAt(RowsOf(lines), i);
    }
  }

  lemma ProperText(rows: seq<Row>)
    requires Proper(rows) && |rows| >= 1
    ensures Rows(TextOf(rows)) == rows
  {
    forall i | 0 <= i < |rows|
      ensures OneLine(Texts(rows)[i])
    {
      TextAt(rows, i);
    }
    LinesRoundTrip("", Texts(rows));
  }

  lemma {:induction false} ProperStrip(rows: seq<Row>, section: string, keys: set<string>)
    requires Proper(rows)
    ensures Proper(Strip(rows, section, keys))
  {
    if rows == [] {
      assert Strip(rows, section, keys) == rows;
    } else {
      var row, rest, next := rows[0], rows[1..], NextSection(section, rows[0]);
      assert rows == [row] + rest;
      ProperConcat([row], rest);
      ProperStrip(rest, next, keys);
      ProperConcat([row], Strip(rest, next, keys));
      assert Strip(rows, section, keys) == [row] + Strip(rest, next, keys)
          || Strip(rows, section, keys) == Strip(rest, next, keys);
    }
  }

  // ----- what a written line says

  /** A parameter name that cannot be mistaken for anything but a name. */
  predicate GoodKey(key: string) {
    && key != "" && !IsSpace(key[0]) && key[0] != '#' && key[0] != ';' && key[0] != '['
    && '=' !in key && OneLine(key)
  }

  predicate Bracketed(t: string) {
    t != "" && t[0] == '[' && t[|t| - 1] == ']'
  }

  predicate Commented(t: string) {
    t == "" || t[0] == '#' || t[0] == ';'
  }

  /**
   What a line says, from its parts: a header names its section in lower case,
   trimmed; a setting is the canonical name before the first `=` and the
   normalised value after it; blank lines, comments and all others are silent.
   */
  lemma LineMeans(line: string, before: string, after: string)
    ensures Trim(line) == "[" + before + "]" ==> Read(line) == Section(Lower(Trim(before)))
    ensures Trim(line) == before + "=" + after && '=' !in before && !Commented(Trim(line)) && !Bracketed(Trim(line)) ==>
              Read(line) == Setting(CanonicalKey(before), Normalize(after))
    ensures Read(line) == Silent <==> Commented(Trim(line)) || (!Bracketed(Trim(line)) && '=' !in Trim(line))
    ensures Read(line).Section? <==> Bracketed(Trim(line))
  {
    hide Trim, CanonicalKey, Normalize, Lower;
    var t := Trim(line);
    if t == "[" + before + "]" { assert t[1..|t| - 1] == before; }
    if t == before + "=" + after && '=' !in before {
      assert before + "=" + after == before + ['='] + after;
      CutAtFirst(before, '=', after);
    }
    CutIff(t, '=');
  }

  /** The written line reads back as the setting that was asked for. */
  lemma EntryLineReads(key: string, value: string)
    requires GoodKey(key)
    ensures Read(EntryLine(key, value)) == Setting(CanonicalKey(key), Normalize(value))
  {
    hide EntryLine, Trim, TrimRight, IndexOf, Cut, Normalize, CanonicalKey, IsSpace;
    var tail := if TrimRight(value) == "" then "" else " " + TrimRight(value);
    EntryLineTrims(key, value);
    CutAtFirst(key + " ", '=', tail);
    CanonicalKeyIsCompact(key);
    TailReads(value, tail);
    assert ((key + " ") + ['='] + tail)[0] == key[0];
  }

  lemma TailReads(value: string, tail: string)
    requires tail == if TrimRight(value) == "" then "" else " " + TrimRight(value)
    ensures Normalize(tail) == Normalize(value)
  {
    hide TrimRight, WordLength, Join;
    FieldsTrimRight(value);
    assert tail != "" ==> tail[1..] == TrimRight(value);
    assert Fields(tail) == Fields(value);
  }

  lemma EntryLineTrims(key: string, value: string)
    requires GoodKey(key)
    ensures var tail := if TrimRight(value) == "" then "" else " " + TrimRight(value);
            Trim(EntryLine(key, value)) == (key + " ") + ['='] + tail
  {
    hide TrimLeft, TrimRight, IsSpace;
    var named := key + " = ";
    TabTrimmed(named + value);
    assert EntryLine(key, value) == "\t" + (named + value);
    TrimRightConcat(named, value);
    if TrimRight(value) == "" {
      assert named == (key + " =") + " ";
      TrimRightConcat(key + " =", " ");
      PaddingTrims(key);
      assert key + " =" == (key + " ") + ['='];
    } else {
      assert named + TrimRight(value) == (key + " ") + ['='] + (" " + TrimRight(value));
    }
  }

  lemma TabTrimmed(s: string)
    requires s != "" && !IsSpace(s[0])
    ensures TrimLeft("\t" + s) == s
  {
    assert ("\t" + s)[1..] == s;
  }

  lemma PaddingTrims(key: string)
    ensures TrimRight(" ") == "" && TrimRight(key + " =") == key + " ="
  {
    assert " "[..0] == "";
    var s := key + " =";
    assert s[|s| - 1] == '=';
  }

  lemma HeaderReads()
    ensures Read(HEADER.text) == HEADER.says && Read(BLANK.text) == BLANK.says
  {
    var t := "[global]";
    assert TrimLeft(t) == t && TrimRight(t) == t;
    assert t[1..|t| - 1] == "global";
    assert TrimLeft("global") == "global" && TrimRight("global") == "global";
    assert Lower("global") == "global";
  }

  lemma ReadIsNormal(line: string)
    ensures Read(line).Setting? ==> Normalize(Read(line).value) == Read(line).value
  {
    var cut := Cut(Trim(line), '=');
    if cut.Some? { NormalizeIdempotent(cut.value.1); }
  }

  lemma {:induction false} RowsAreNormal(lines: seq<string>)
    ensures forall row :: row in RowsOf(lines) && row.says.Setting? ==> Normalize(row.says.value) == row.says.value
  {
    if lines != [] {
      ReadIsNormal(lines[0]);
      RowsAreNormal(lines[1..]);
    }
  }

  // ----- the frame

  lemma {:induction false} TrimBreaksKeepsLines(conf: string)
    ensures exists blanks: seq<string> {:trigger Lines(TrimBreaks(conf)) + blanks} ::
              && Lines(conf) == Lines(TrimBreaks(conf)) + blanks
              && forall i :: 0 <= i < |blanks| ==> blanks[i] == ""
    decreases |conf|
  {
    if conf != "" && conf[|conf| - 1] == '\n' {
      var init := conf[..|conf| - 1];
      TrimBreaksKeepsLines(init);
      var blanks: seq<string> :| Lines(init) == Lines(TrimBreaks(init)) + blanks
                                 && forall i :: 0 <= i < |blanks| ==> blanks[i] == "";
      assert conf == init + ['\n'] + "";
      SplitOnConcat(init, '\n', "");
      assert Lines(conf) == Lines(TrimBreaks(conf)) + (blanks + [""]);
    } else {
      assert Lines(conf) == Lines(TrimBreaks(conf)) + [];
    }
  }

  lemma {:induction false} BlankRows(lines: seq<string>)
    requires forall i :: 0 <= i < |lines| ==> lines[i] == ""
    ensures forall i :: 0 <= i < |lines| ==> RowsOf(lines)[i].says == Silent
  {
    if lines != [] {
      HeaderReads();
      BlankRows(lines[1..]);
    }
  }

  lemma FrameHasHeader(conf: string)
    ensures HasHeader(Frame(conf)) && Frames(Frame(conf), Rows(conf))
    ensures !HasGlobal(conf) ==> FindGlobal(Frame(conf), 0) == |FrontLines(conf)|
  {
    if !HasGlobal(conf) {
      FrontMeansFile(conf);
      HeaderAt(RowsOf(FrontLines(conf)), HEADER, BLANK);
    }
  }

  lemma HeaderAt(front: seq<Row>, header: Row, blank: Row)
    requires NoHeader(front) && header.says == Section(GLOBAL) && blank.says == Silent
    ensures FindGlobal(front + [header] + [blank], 0) == |front|
    ensures EntriesFrom(front + [header] + [blank], "") == EntriesFrom(front, "")
  {
    Extend(front, header, {});
    Extend(front + [header], blank, {});
    Regroup3(front, header, blank);
    SkipsFront(front, [header] + [blank], 0);
  }

  lemma Regroup3<T>(a: seq<T>, x: T, y: T)
    ensures a + [x] + [y] == a + ([x] + [y])
  {
  }

  lemma {:induction false} SkipsFront(front: seq<Row>, rest: seq<Row>, i: nat)
    requires i <= |front| && NoHeader(front) && rest != [] && rest[0].says == Section(GLOBAL)
    ensures FindGlobal(front + rest, i) == |front|
    decreases |front| - i
  {
    if i < |front| {
      assert (front + rest)[i] == front[i];
      SkipsFront(front, rest, i + 1);
    } else {
      assert (front + rest)[i] == rest[0];
    }
  }

  lemma FrontMeansFile(conf: string)
    requires !HasGlobal(conf)
    ensures NoHeader(RowsOf(FrontLines(conf)))
    ensures EntriesFrom(RowsOf(FrontLines(conf)), "") == Entries(conf)
  {
    var kept := TrimBreaks(conf);
    TrimBreaksKeepsLines(conf);
    var blanks: seq<string> :| Lines(conf) == Lines(kept) + blanks && forall i :: 0 <= i < |blanks| ==> blanks[i] == "";
    RowsConcat(Lines(kept), blanks);
    RowsConcat(Lines(kept), [""]);
    HeaderIff(Rows(conf));
    BlankRows(blanks);
    BlankRows([""]);
    SilentTail(RowsOf(Lines(kept)), RowsOf(blanks));
    SilentTail(RowsOf(Lines(kept)), RowsOf([""]));
    if kept == "" {
      assert Lines(kept) == [""];
      SilentRows(RowsOf([""]), "");
    }
  }

  lemma SilentTail(rows: seq<Row>, tail: seq<Row>)
    requires forall i :: 0 <= i < |tail| ==> tail[i].says == Silent
    ensures EntriesFrom(rows + tail, "") == EntriesFrom(rows, "")
    ensures NoHeader(rows + tail) <==> NoHeader(rows)
  {
    EntriesConcat(rows, tail, "");
    SilentRows(tail, SectionAfter(rows, ""));
    forall i | 0 <= i < |rows|
      ensures rows[i] == (rows + tail)[i]
    {}
  }

  lemma ProperFrame(conf: string)
    ensures Proper(Frame(conf))
  {
    hide Proper, FrontLines, Rows, Read, HasHeader;
    RowsRoundTrip(conf);
    if !HasGlobal(conf) {
      var front := RowsOf(FrontLines(conf));
      ProperFront(conf);
      HeaderReads();
      ProperEntry(HEADER.text);
      ProperEntry(BLANK.text);
      ProperConcat(front, [HEADER]);
      ProperConcat(front + [HEADER], [BLANK]);
    }
  }

  lemma ProperFront(conf: string)
    ensures Proper(RowsOf(FrontLines(conf)))
  {
    hide TrimBreaks, Lines, Read;
    var front := FrontLines(conf);
    TextsOfRows(front);
    LinesRoundTrip(TrimBreaks(conf), []);
    forall i | 0 <= i < |front|
      ensures OneLine(RowsOf(front)[i].text)
    {
      TextAt(RowsOf(front), i);
    }
  }

  /** The text written for a file without [global] is the frame with the entry in its new section. */
  lemma NewSectionText(conf: string, entry: string)
    requires !HasGlobal(conf)
    ensures HasHeader(Frame(conf))
    ensures (if TrimBreaks(conf) == "" then "" else TrimBreaks(conf) + "\n\n") + (HEADER.text + "\n" + entry + "\n")
         == TextOf(InsertAfterHeader(Frame(conf), RowOf(entry)))
  {
    FrameHasHeader(conf);
    var front, kept := FrontLines(conf), TrimBreaks(conf);
    InsertedTexts(RowsOf(front), HEADER, BLANK, RowOf(entry));
    TextsOfRows(front);
    JoinNewSection(kept, front, HEADER.text, entry);
  }

  lemma JoinNewSection(kept: string, front: seq<string>, header: string, entry: string)
    requires front == if kept == "" then [] else Lines(kept) + [""]
    ensures Unlines(front + ([header] + ([entry] + [""])))
         == (if kept == "" then "" else kept + "\n\n") + (header + "\n" + entry + "\n")
  {
    hide Unlines, Lines;
    var back := [header] + ([entry] + [""]);
    OneLineText(header);
    OneLineText(entry);
    OneLineText("");
    JoinAppend([entry], [""]);
    JoinAppend([header], [entry] + [""]);
    if kept == "" {
      assert front + back == back;
    } else {
      LinesRoundTrip(kept, []);
      JoinAppend(Lines(kept), [""]);
      JoinAppend(front, back);
    }
  }

  lemma OneLineText(line: string)
    ensures Unlines([line]) == line
  {
  }

  lemma InsertedTexts(front: seq<Row>, header: Row, blank: Row, entry: Row)
    requires FindGlobal(front + [header] + [blank], 0) == |front|
    ensures Texts(InsertAfterHeader(front + [header] + [blank], entry))
         == Texts(front) + ([header.text] + ([entry.text] + [blank.text]))
  {
    var h := front + [header];
    assert (h + [blank])[..|front| + 1] == h && (h + [blank])[|front| + 1..] == [blank];
    assert InsertAfterHeader(h + [blank], entry) == h + [entry] + [blank];
    TextsConcat(h + [entry], [blank]);
    TextsConcat(h, [entry]);
    TextsConcat(front, [header]);
    OneText(header);
    OneText(entry);
    OneText(blank);
    Regroup(Texts(front), header.text, entry.text, blank.text);
  }

  lemma Regroup<T>(a: seq<T>, x: T, y: T, z: T)
    ensures a + [x] + [y] + [z] == a + ([x] + ([y] + [z]))
  {
  }

  lemma OneText(row: Row)
    ensures Texts([row]) == [row.text]
  {
    assert [row][1..] == [];
  }

  lemma {:induction false} JoinAppend(a: seq<string>, b: seq<string>)
    requires |a| >= 1 && |b| >= 1
    ensures Unlines(a + b) == Unlines(a) + "\n" + Unlines(b)
  {
    assert (a + b)[1..] == a[1..] + b;
    if |a| == 1 {
      assert a[1..] + b == b;
    } else {
      JoinAppend(a[1..], b);
    }
  }

  // ----- setting

  lemma WithSettingRows(conf: string, key: string, value: string)
    requires GoodKey(key) && OneLine(value)
    ensures HasHeader(Frame(conf))
    ensures Rows(WithSetting(conf, key, value).0)
         == SetRows(Rows(conf), Frame(conf), RowOf(EntryLine(key, value)), CanonicalKey(key), value).0
  {
    hide Frame, Proper, CanonicalKey, Rows, RowOf, FindSetting, FindGlobal, Read;
    FrameHasHeader(conf);
    RowsRoundTrip(conf);
    ProperFrame(conf);
    var entry := RowOf(EntryLine(key, value));
    var rows, frame := Rows(conf), Frame(conf);
    ProperEntry(EntryLine(key, value));
    ProperSetRows(rows, frame, entry, CanonicalKey(key), value);
    ProperText(SetRows(rows, frame, entry, CanonicalKey(key), value).0);
  }

  lemma ProperSetRows(rows: seq<Row>, frame: seq<Row>, entry: Row, key: string, value: string)
    requires HasHeader(frame) && Proper(rows) && Proper(frame) && Proper([entry])
    ensures Proper(SetRows(rows, frame, entry, key, value).0)
  {
    hide FindSetting, FindGlobal, Proper;
    var j, g := FindSetting(rows, 0, "", key), FindGlobal(frame, 0);
    if j < |rows| {
      assert rows == rows[..j] + ([rows[j]] + rows[j + 1..]);
      ProperReplace(rows[..j], rows[j], rows[j + 1..], entry);
      assert rows[j := entry] == rows[..j] + ([entry] + rows[j + 1..]);
    } else {
      assert frame == frame[..g + 1] + frame[g + 1..];
      ProperConcat(frame[..g + 1], frame[g + 1..]);
      ProperConcat(frame[..g + 1], [entry]);
      ProperConcat(frame[..g + 1] + [entry], frame[g + 1..]);
    }
  }

  lemma ProperReplace(a: seq<Row>, row: Row, b: seq<Row>, entry: Row)
    requires Proper(a + ([row] + b)) && Proper([entry])
    ensures Proper(a + ([entry] + b))
  {
    ProperConcat(a, [row] + b);
    ProperConcat([row], b);
    ProperConcat([entry], b);
    ProperConcat(a, [entry] + b);
  }

  lemma ProperEntry(line: string)
    requires OneLine(line)
    ensures Proper([RowOf(line)])
  {
    assert Texts([RowOf(line)]) == [line] by { assert [RowOf(line)][1..] == []; }
    assert RowsOf([line]) == [RowOf(line)] by { assert [line][1..] == []; }
  }

  /** The text edit refines the update of the list of settings. */
  lemma WithSettingRefines(conf: string, key: string, value: string)
    requires GoodKey(key) && OneLine(value)
    ensures InsertionPoint(Frame(conf)) <= |Entries(conf)|
    ensures NoneGlobal(Entries(conf)[..InsertionPoint(Frame(conf))])
    ensures Entries(WithSetting(conf, key, value).0)
         == UpdateEntries(Entries(conf), InsertionPoint(Frame(conf)), CanonicalKey(key), Normalize(value))
  {
    WithSettingRows(conf, key, value);
    FrameHasHeader(conf);
    EntryLineReads(key, value);
    RowsAreNormal(Lines(conf));
    var frame := Frame(conf);
    InsertionPointFits(frame);
    SetRowsRefines(Rows(conf), frame, RowOf(EntryLine(key, value)), CanonicalKey(key), value);
  }

  /** After setting, the first [global] occurrence reads the value; every other value list is as it was. */
  lemma WithSettingReads(conf: string, key: string, value: string, section: string, other: string)
    requires GoodKey(key) && OneLine(value)
    ensures var vs := Reads(conf, section, other);
            Reads(WithSetting(conf, key, value).0, section, other)
            == if section == GLOBAL && other == CanonicalKey(key)
               then [Normalize(value)] + (if vs == [] then [] else vs[1..]) else vs
  {
    WithSettingRefines(conf, key, value);
    ValuesOfUpdate(Entries(conf), InsertionPoint(Frame(conf)), CanonicalKey(key), Normalize(value), section, other);
  }

  /** A file is left alone exactly when its first occurrence already reads the wanted text. */
  lemma UnchangedIff(conf: string, key: string, value: string)
    ensures WithSetting(conf, key, value).1 == Unchanged
       <==> var vs := Reads(conf, GLOBAL, CanonicalKey(key)); vs != [] && vs[0] == value
    ensures WithSetting(conf, key, value).1 == Unchanged ==> WithSetting(conf, key, value).0 == conf
  {
    FrameHasHeader(conf);
    SetRowsUnchangedIff(Rows(conf), Frame(conf), RowOf(EntryLine(key, value)), CanonicalKey(key), value);
  }

  /** What an edit announces: nothing, a new setting, or a replaced one, by what the parameter read before. */
  lemma EditKind(conf: string, key: string, value: string)
    ensures var vs := Reads(conf, GLOBAL, CanonicalKey(key));
            WithSetting(conf, key, value).1 == if vs == [] then Added else if vs[0] == value then Unchanged else Replaced
  {
    hide CanonicalKey, EntryLine, RowOf, FindGlobal, Strip, Read, TextOf;
    UnchangedIff(conf, key, value);
    FrameHasHeader(conf);
    FoundIff(Rows(conf), CanonicalKey(key));
  }

  lemma FoundIff(rows: seq<Row>, key: string)
    ensures FindSetting(rows, 0, "", key) < |rows| <==> ValuesOf(EntriesFrom(rows, ""), GLOBAL, key) != []
  {
    hide FindSetting, EntriesFrom, ValuesOf, SectionAfter, FindGlobal, Strip;
    FirstSetting(rows, key);
    if FindSetting(rows, 0, "", key) < |rows| {
      var row := Row("", Setting(key, ""));
      ReplaceRefines(rows, row, key);
      var es, i := EntriesFrom(rows, ""), FirstGlobal(EntriesFrom(rows, ""), key);
      assert es == es[..i] + [es[i]] + es[i + 1..];
      ValuesAround(es[..i], es[i], es[i + 1..], GLOBAL, key);
    } else {
      assert rows[..|rows|] == rows;
    }
  }

  lemma ReadsAreNormal(conf: string, section: string, key: string)
    ensures forall v :: v in Reads(conf, section, key) ==> Normalize(v) == v
  {
    RowsAreNormal(Lines(conf));
    ValuesComeFromRows(Rows(conf), "", section, key);
  }

  lemma {:induction false} ValuesComeFromRows(rows: seq<Row>, start: string, section: string, key: string)
    ensures forall v :: v in ValuesOf(EntriesFrom(rows, start), section, key)
              ==> exists row :: row in rows && row.says.Setting? && row.says.value == v
  {
    if rows != [] {
      var next := NextSection(start, rows[0]);
      ValuesComeFromRows(rows[1..], next, section, key);
      ValuesConcat(RowEntries(rows[0], start), EntriesFrom(rows[1..], next), section, key);
      assert rows[0] in rows && forall row :: row in rows[1..] ==> row in rows;
    }
  }

  /**
   Setting a value a second time is quiet exactly for values whose white
   space is already collapsed; any other value is rewritten for ever.
   */
  lemma SetTwiceQuietIff(conf: string, key: string, value: string)
    requires GoodKey(key)
    ensures WithSetting(WithSetting(conf, key, value).0, key, value).1 == Unchanged <==> Normalize(value) == value
  {
    var once := WithSetting(conf, key, value).0;
    UnchangedIff(once, key, value);
    ReadsAreNormal(once, GLOBAL, CanonicalKey(key));
    if Normalize(value) == value {
      NormalizeIdempotent(value);
      WithSettingReads(conf, key, value, GLOBAL, CanonicalKey(key));
    }
  }

  // ----- unsetting

  /** Unsetting is stripping, on the text. */
  lemma WithoutSettingRows(conf: string, key: string)
    ensures Rows(WithoutSetting(conf, key).0) == OtherLines(conf, {CanonicalKey(key)})
    ensures WithoutSetting(conf, key).0 == TextOf(OtherLines(conf, {CanonicalKey(key)}))
  {
    var kept := OtherLines(conf, {CanonicalKey(key)});
    RowsRoundTrip(conf);
    StripShrinks(Rows(conf), "", {CanonicalKey(key)});
    ProperStrip(Rows(conf), "", {CanonicalKey(key)});
    ProperText(kept);
  }

  /** After unsetting, no occurrence is left; every other value list is as it was. */
  lemma WithoutSettingReads(conf: string, key: string, section: string, other: string)
    ensures Reads(WithoutSetting(conf, key).0, section, other)
         == if section == GLOBAL && other == CanonicalKey(key) then [] else Reads(conf, section, other)
  {
    WithoutSettingRows(conf, key);
    StripValues(Rows(conf), "", {CanonicalKey(key)}, section, other);
  }

  /** Unsetting keeps every line that sets none of the keys. */
  lemma WithoutSettingKeepsText(conf: string, key: string, keys: set<string>)
    requires CanonicalKey(key) in keys
    ensures OtherLines(WithoutSetting(conf, key).0, keys) == OtherLines(conf, keys)
    ensures HasGlobal(WithoutSetting(conf, key).0) <==> HasGlobal(conf)
  {
    WithoutSettingRows(conf, key);
    StripTwice(Rows(conf), "", {CanonicalKey(key)}, keys);
    StripKeepsHeader(Rows(conf), "", {CanonicalKey(key)});
    HeaderIff(Rows(conf));
    HeaderIff(Rows(WithoutSetting(conf, key).0));
  }

  /** There is something to remove exactly when the parameter occurs. */
  lemma RemovedIff(conf: string, key: string)
    ensures WithoutSetting(conf, key).1 <==> Reads(conf, GLOBAL, CanonicalKey(key)) != []
    ensures !WithoutSetting(conf, key).1 ==> WithoutSetting(conf, key).0 == conf
  {
    StripLosesIff(Rows(conf), "", CanonicalKey(key));
  }
}
