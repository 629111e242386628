/**
 The section-structured files that the smb.conf editor of
 entrypoint/internal/run/run.go works on, as rows: each line of the file
 together with what it says. What a file means is the ordered list of its
 settings, each with its section, its canonical key and its normalised value.

 The editor's line surgery is defined here on rows and proved to be an update
 and a filter of that list; SmbConf ties it to the text.
 */
module SmbRows {

  const GLOBAL := "global"

  /** Blank lines, comments and lines without `=` are silent. */
  datatype Line = Silent | Section(name: string) | Setting(key: string, value: string)

  datatype Row = Row(text: string, says: Line)

  function NextSection(section: string, row: Row): string {
    if row.says.Section? then row.says.name else section
  }

  function SectionAfter(rows: seq<Row>, section: string): string {
    if rows == [] then section else SectionAfter(rows[1..], NextSection(section, rows[0]))
  }

  // ----- the meaning of a file

  datatype Entry = Entry(section: string, key: string, value: string)

  function RowEntries(row: Row, section: string): seq<Entry> {
    if row.says.Setting? then [Entry(section, row.says.key, row.says.value)] else []
  }

  function EntriesFrom(rows: seq<Row>, section: string): seq<Entry> {
    if rows == [] then []
    else RowEntries(rows[0], section) + EntriesFrom(rows[1..], NextSection(section, rows[0]))
  }

  function ValuesOf(es: seq<Entry>, section: string, key: string): seq<string> {
    if es == [] then []
    else (if es[0].section == section && es[0].key == key then [es[0].value] else []) + ValuesOf(es[1..], section, key)
  }

  /** A row of [global] that sets one of the keys. */
  predicate Sets(row: Row, section: string, keys: set<string>) {
    section == GLOBAL && row.says.Setting? && row.says.key in keys
  }

  /** The rows that are left once every [global] setting of the keys is gone. */
  function Strip(rows: seq<Row>, section: string, keys: set<string>): seq<Row> {
    if rows == [] then []
    else
      (if Sets(rows[0], section, keys) then [] else [rows[0]])
      + Strip(rows[1..], NextSection(section, rows[0]), keys)
  }

  // ----- the surgery

  datatype Edit = Unchanged | Added | Replaced

  function FindSetting(rows: seq<Row>, i: nat, section: string, key: string): (j: nat)
    requires i <= |rows|
    ensures i <= j <= |rows|
    ensures j < |rows| ==> rows[j].says.Setting? && rows[j].says.key == key
    decreases |rows| - i
  {
    if i == |rows| || Sets(rows[i], section, {key}) then i
    else FindSetting(rows, i + 1, NextSection(section, rows[i]), key)
  }

  function FindGlobal(rows: seq<Row>, i: nat): (j: nat)
    requires i <= |rows|
    ensures i <= j <= |rows|
    ensures j < |rows| ==> rows[j].says == Section(GLOBAL)
    decreases |rows| - i
  {
    if i == |rows| || rows[i].says == Section(GLOBAL) then i else FindGlobal(rows, i + 1)
  }

  predicate HasHeader(rows: seq<Row>) {
    FindGlobal(rows, 0) < |rows|
  }

  function InsertAfterHeader(frame: seq<Row>, entry: Row): seq<Row>
    requires HasHeader(frame)
  {
    var g := FindGlobal(frame, 0);
    frame[..g + 1] + [entry] + frame[g + 1..]
  }

  /**
   What a new setting is inserted into: the rows themselves, or, when they
   hold no [global] header, rows that mean the same and end in an empty one.
   */
  predicate Frames(frame: seq<Row>, rows: seq<Row>) {
    && HasHeader(frame)
    && (HasHeader(rows) ==> frame == rows)
    && EntriesFrom(frame, "") == EntriesFrom(rows, "")
  }

  function SetRows(rows: seq<Row>, frame: seq<Row>, entry: Row, key: string, value: string): (seq<Row>, Edit)
    requires HasHeader(frame)
  {
    var j := FindSetting(rows, 0, "", key);
    if j == |rows| then (InsertAfterHeader(frame, entry), Added)
    else if rows[j].says.value == value then (rows, Unchanged)
    else (rows[j := entry], Replaced)
  }

  // ----- concatenation

  lemma {:induction false} SectionAfterConcat(a: seq<Row>, b: seq<Row>, section: string)
    ensures SectionAfter(a + b, section) == SectionAfter(b, SectionAfter(a, section))
  {
    if a == [] {
      assert a + b == b;
    } else {
      assert (a + b)[1..] == a[1..] + b;
      SectionAfterConcat(a[1..], b, NextSection(section, a[0]));
    }
  }

  lemma {:induction false} EntriesConcat(a: seq<Row>, b: seq<Row>, section: string)
    ensures EntriesFrom(a + b, section) == EntriesFrom(a, section) + EntriesFrom(b, SectionAfter(a, section))
  {
    if a == [] {
      assert a + b == b;
    } else {
      assert (a + b)[1..] == a[1..] + b;
      EntriesConcat(a[1..], b, NextSection(section, a[0]));
    }
  }

  lemma {:induction false} StripConcat(a: seq<Row>, b: seq<Row>, section: string, keys: set<string>)
    ensures Strip(a + b, section, keys) == Strip(a, section, keys) + Strip(b, SectionAfter(a, section), keys)
  {
    if a == [] {
      assert a + b == b;
    } else {
      assert (a + b)[1..] == a[1..] + b;
      StripConcat(a[1..], b, NextSection(section, a[0]), keys);
    }
  }

  lemma {:induction false} ValuesConcat(a: seq<Entry>, b: seq<Entry>, section: string, key: string)
    ensures ValuesOf(a + b, section, key) == ValuesOf(a, section, key) + ValuesOf(b, section, key)
  {
    if a == [] {
      assert a + b == b;
    } else {
      assert (a + b)[1..] == a[1..] + b;
      ValuesConcat(a[1..], b, section, key);
    }
  }

  /** One row between two others: the section, the settings and the stripped rows. */
  lemma Around(a: seq<Row>, row: Row, b: seq<Row>, keys: set<string>)
    ensures var s := SectionAfter(a, ""); var next := NextSection(s, row);
            && SectionAfter(a + [row], "") == next
            && EntriesFrom(a + [row] + b, "") == EntriesFrom(a, "") + RowEntries(row, s) + EntriesFrom(b, next)
            && Strip(a + [row] + b, "", keys)
               == Strip(a, "", keys) + (if Sets(row, s, keys) then [] else [row]) + Strip(b, next, keys)
  {
    hide SectionAfter, EntriesFrom, Strip, Sets, RowEntries, NextSection;
    var s := SectionAfter(a, "");
    SectionAfterConcat(a, [row], "");
    assert a + [row] + b == a + ([row] + b);
    EntriesConcat(a, [row] + b, "");
    StripConcat(a, [row] + b, "", keys);
    InFront(row, b, s, keys);
  }

  lemma InFront(row: Row, b: seq<Row>, section: string, keys: set<string>)
    ensures SectionAfter([row], section) == NextSection(section, row)
    ensures EntriesFrom([row] + b, section) == RowEntries(row, section) + EntriesFrom(b, NextSection(section, row))
    ensures Strip([row] + b, section, keys)
         == (if Sets(row, section, keys) then [] else [row]) + Strip(b, NextSection(section, row), keys)
  {
    hide RowEntries, NextSection, Sets;
    assert ([row] + b)[1..] == b && [row][1..] == [];
  }

  /** One more row at the end. */
  lemma Extend(a: seq<Row>, row: Row, keys: set<string>)
    ensures var s := SectionAfter(a, "");
            && SectionAfter(a + [row], "") == NextSection(s, row)
            && EntriesFrom(a + [row], "") == EntriesFrom(a, "") + RowEntries(row, s)
            && Strip(a + [row], "", keys) == Strip(a, "", keys) + (if Sets(row, s, keys) then [] else [row])
  {
    hide RowEntries, NextSection, Sets, SectionAfter;
    Around(a, row, [], keys);
    assert a + [row] + [] == a + [row];
  }

  lemma Middle<T>(a: seq<T>, x: T, b: seq<T>, y: T)
    ensures |a + [x] + b| > |a|
    ensures (a + [x] + b)[|a| := y] == a + [y] + b
    ensures (a + [x] + b)[..|a|] == a && (a + [x] + b)[|a| + 1..] == b
    ensures (a + b)[..|a|] == a && (a + b)[|a|..] == b
  {
  }

  // ----- where the scan stops

  lemma {:induction false} FindSettingStops(rows: seq<Row>, i: nat, section: string, key: string)
    requires i <= |rows| && section == SectionAfter(rows[..i], "")
    requires ValuesOf(EntriesFrom(rows[..i], ""), GLOBAL, key) == []
    ensures var j := FindSetting(rows, i, section, key);
            && ValuesOf(EntriesFrom(rows[..j], ""), GLOBAL, key) == []
            && (j < |rows| ==> SectionAfter(rows[..j], "") == GLOBAL)
    decreases |rows| - i
  {
    if i < |rows| && !Sets(rows[i], section, {key}) {
      assert rows[..i + 1] == rows[..i] + [rows[i]];
      Extend(rows[..i], rows[i], {});
      ValuesConcat(EntriesFrom(rows[..i], ""), RowEntries(rows[i], section), GLOBAL, key);
      FindSettingStops(rows, i + 1, NextSection(section, rows[i]), key);
    }
  }

  /** The scan from the top stops at the first setting of the key inside [global]. */
  lemma FirstSetting(rows: seq<Row>, key: string)
    ensures var j := FindSetting(rows, 0, "", key);
            && ValuesOf(EntriesFrom(rows[..j], ""), GLOBAL, key) == []
            && (j < |rows| ==> SectionAfter(rows[..j], "") == GLOBAL)
  {
    FindSettingStops(rows, 0, "", key);
  }

  predicate NoHeader(rows: seq<Row>) {
    forall i :: 0 <= i < |rows| ==> rows[i].says != Section(GLOBAL)
  }

  lemma {:induction false} FindGlobalStops(rows: seq<Row>, i: nat)
    requires i <= |rows| && NoHeader(rows[..i])
    ensures NoHeader(rows[..FindGlobal(rows, i)])
    decreases |rows| - i
  {
    if i < |rows| && rows[i].says != Section(GLOBAL) {
      assert rows[..i + 1] == rows[..i] + [rows[i]];
      FindGlobalStops(rows, i + 1);
    }
  }

  predicate NoneGlobal(es: seq<Entry>) {
    forall i :: 0 <= i < |es| ==> es[i].section != GLOBAL
  }

  /** Nothing before the first [global] header is inside [global]. */
  lemma {:induction false} OutsideGlobal(rows: seq<Row>, section: string, keys: set<string>)
    requires NoHeader(rows) && section != GLOBAL
    ensures SectionAfter(rows, section) != GLOBAL
    ensures NoneGlobal(EntriesFrom(rows, section))
    ensures Strip(rows, section, keys) == rows
  {
    if rows != [] {
      hide FindGlobal, FindSetting;
      var next := NextSection(section, rows[0]);
      assert rows == [rows[0]] + rows[1..] && next != GLOBAL;
      OutsideGlobal(rows[1..], next, keys);
    }
  }

  lemma {:induction false} SilentRows(rows: seq<Row>, section: string)
    requires forall i :: 0 <= i < |rows| ==> rows[i].says == Silent
    ensures EntriesFrom(rows, section) == [] && SectionAfter(rows, section) == section
  {
    if rows != [] { SilentRows(rows[1..], section); }
  }

  lemma HeaderIff(rows: seq<Row>)
    ensures HasHeader(rows) <==> exists i :: 0 <= i < |rows| && rows[i].says == Section(GLOBAL)
  {
    FindGlobalStops(rows, 0);
    assert rows[..|rows|] == rows;
  }

  lemma SettingInsideGlobal(rows: seq<Row>, key: string)
    requires FindSetting(rows, 0, "", key) < |rows|
    ensures HasHeader(rows)
  {
    hide FindSetting, FindGlobal, EntriesFrom, SectionAfter, Strip, ValuesOf;
    FirstSetting(rows, key);
    FindGlobalStops(rows, 0);
    var j := FindSetting(rows, 0, "", key);
    if !HasHeader(rows) {
      assert rows[..|rows|] == rows;
      assert NoHeader(rows) && NoHeader(rows[..j]);
      OutsideGlobal(rows[..j], "", {});
    }
  }

  // ----- setting refines an update of the list

  function FirstGlobal(es: seq<Entry>, key: string): (i: nat)
    ensures i <= |es|
  {
    if es == [] || (es[0].section == GLOBAL && es[0].key == key) then 0 else 1 + FirstGlobal(es[1..], key)
  }

  /** Replace the first [global] value of the key; failing that, insert the setting at `at`. */
  function UpdateEntries(es: seq<Entry>, at: nat, key: string, value: string): seq<Entry>
    requires at <= |es|
  {
    var i := FirstGlobal(es, key);
    if i < |es| then es[i := Entry(GLOBAL, key, value)]
    else es[..at] + [Entry(GLOBAL, key, value)] + es[at..]
  }

  /** How many settings stand before the first [global] header. */
  function InsertionPoint(frame: seq<Row>): nat {
    |EntriesFrom(frame[..FindGlobal(frame, 0)], "")|
  }

  lemma {:induction false} FirstGlobalAfter(a: seq<Entry>, b: seq<Entry>, key: string)
    requires ValuesOf(a, GLOBAL, key) == []
    ensures FirstGlobal(a + b, key) == |a| + FirstGlobal(b, key)
  {
    if a == [] {
      assert a + b == b;
    } else {
      assert (a + b)[1..] == a[1..] + b;
      FirstGlobalAfter(a[1..], b, key);
    }
  }

  lemma {:induction false} FirstGlobalFound(es: seq<Entry>, key: string)
    ensures var i := FirstGlobal(es, key);
            && ValuesOf(es[..i], GLOBAL, key) == []
            && (i < |es| ==> es[i].section == GLOBAL && es[i].key == key)
  {
    if es != [] && !(es[0].section == GLOBAL && es[0].key == key) {
      FirstGlobalFound(es[1..], key);
      var i := FirstGlobal(es[1..], key);
      assert es[..i + 1][0] == es[0] && es[..i + 1][1..] == es[1..][..i];
    }
  }

  lemma InsertionPointFits(frame: seq<Row>)
    requires HasHeader(frame)
    ensures InsertionPoint(frame) <= |EntriesFrom(frame, "")|
    ensures NoneGlobal(EntriesFrom(frame, "")[..InsertionPoint(frame)])
  {
    var g := FindGlobal(frame, 0);
    FindGlobalStops(frame, 0);
    OutsideGlobal(frame[..g], "", {});
    assert frame == frame[..g] + frame[g..];
    EntriesConcat(frame[..g], frame[g..], "");
  }

  /** The row surgery refines the update of the list of settings. */
  lemma SetRowsRefines(rows: seq<Row>, frame: seq<Row>, entry: Row, key: string, value: string)
    requires Frames(frame, rows)
    requires entry.says.Setting? && entry.says.key == key
    requires forall row :: row in rows && row.says.Setting? && row.says.value == value ==> entry.says.value == value
    ensures InsertionPoint(frame) <= |EntriesFrom(rows, "")|
    ensures EntriesFrom(SetRows(rows, frame, entry, key, value).0, "")
         == UpdateEntries(EntriesFrom(rows, ""), InsertionPoint(frame), key, entry.says.value)
  {
    hide FindGlobal, FindSetting, SectionAfter, EntriesFrom, Strip, ValuesOf, InsertionPoint;
    InsertionPointFits(frame);
    FirstSetting(rows, key);
    var j := FindSetting(rows, 0, "", key);
    if j == |rows| {
      assert rows[..j] == rows;
      FirstGlobalAfter(EntriesFrom(rows, ""), [], key);
      assert EntriesFrom(rows, "") + [] == EntriesFrom(rows, "");
      InsertRefines(frame, entry);
    } else {
      ReplaceRefines(rows, entry, key);
      assert rows[j] in rows;
    }
  }

  lemma ReplaceRefines(rows: seq<Row>, entry: Row, key: string)
    requires entry.says.Setting? && entry.says.key == key
    requires FindSetting(rows, 0, "", key) < |rows|
    ensures var j, i := FindSetting(rows, 0, "", key), FirstGlobal(EntriesFrom(rows, ""), key);
            && i < |EntriesFrom(rows, "")|
            && EntriesFrom(rows, "")[i] == Entry(GLOBAL, key, rows[j].says.value)
            && EntriesFrom(rows[j := entry], "") == EntriesFrom(rows, "")[i := Entry(GLOBAL, key, entry.says.value)]
  {
    hide FindGlobal, SectionAfter, EntriesFrom, Strip, FirstGlobal, ValuesOf;
    FirstSetting(rows, key);
    var j := FindSetting(rows, 0, "", key);
    var a, b := rows[..j], rows[j + 1..];
    assert rows == a + [rows[j]] + b && rows[j := entry] == a + [entry] + b;
    Around(a, rows[j], b, {});
    Around(a, entry, b, {});
    var before, rest := EntriesFrom(a, ""), EntriesFrom(b, GLOBAL);
    var x, y := RowEntries(rows[j], GLOBAL)[0], RowEntries(entry, GLOBAL)[0];
    FirstOfMiddle(before, x, rest, y, key);
    assert EntriesFrom(rows, "") == before + [x] + rest;
    assert EntriesFrom(rows[j := entry], "") == before + [y] + rest;
  }

  lemma FirstOfMiddle(a: seq<Entry>, x: Entry, b: seq<Entry>, y: Entry, key: string)
    requires ValuesOf(a, GLOBAL, key) == [] && x.section == GLOBAL && x.key == key
    ensures FirstGlobal(a + [x] + b, key) == |a| < |a + [x] + b|
    ensures (a + [x] + b)[|a|] == x && (a + [x] + b)[|a| := y] == a + [y] + b
  {
    hide FirstGlobal, ValuesOf;
    assert a + [x] + b == a + ([x] + b);
    FirstGlobalAfter(a, [x] + b, key);
    FirstHere(x, b, key);
    Middle(a, x, b, y);
    assert (a + [x] + b)[|a|] == x;
  }

  lemma FirstHere(x: Entry, b: seq<Entry>, key: string)
    requires x.section == GLOBAL && x.key == key
    ensures FirstGlobal([x] + b, key) == 0
  {
    assert ([x] + b)[0] == x;
  }

  lemma InsertRefines(frame: seq<Row>, entry: Row)
    requires HasHeader(frame) && entry.says.Setting?
    ensures var at := InsertionPoint(frame);
            && at <= |EntriesFrom(frame, "")|
            && EntriesFrom(InsertAfterHeader(frame, entry), "")
            == EntriesFrom(frame, "")[..at] + [Entry(GLOBAL, entry.says.key, entry.says.value)] + EntriesFrom(frame, "")[at..]
  {
    hide FindGlobal, FindSetting, SectionAfter, EntriesFrom, Strip, Sets;
    var g := FindGlobal(frame, 0);
    var a, x, b := frame[..g], frame[g], frame[g + 1..];
    var h, e := a + [x], Entry(GLOBAL, entry.says.key, entry.says.value);
    var es, rest := EntriesFrom(a, ""), EntriesFrom(b, GLOBAL);
    SplitAt(frame, g);
    Around(a, x, b, {});
    Extend(a, x, {});
    Around(h, entry, b, {});
    HeaderRow(a, x, b, es, rest);
    assert EntriesFrom(h, "") == es by { assert es + [] == es; }
    assert EntriesFrom(h + [entry] + b, "") == es + [e] + rest;
    Middle(es, e, rest, e);
  }

  lemma SplitAt<T>(s: seq<T>, i: nat)
    requires i < |s|
    ensures s == s[..i] + [s[i]] + s[i + 1..] && s[..i] + [s[i]] == s[..i + 1]
  {
  }

  lemma HeaderRow(a: seq<Row>, x: Row, b: seq<Row>, es: seq<Entry>, rest: seq<Entry>)
    requires x.says == Section(GLOBAL) && es == EntriesFrom(a, "") && rest == EntriesFrom(b, GLOBAL)
    ensures EntriesFrom(a + [x] + b, "") == es + rest
  {
    hide SectionAfter, EntriesFrom, Strip, Sets;
    Around(a, x, b, {});
    assert es + [] == es;
  }

  lemma ValuesOfUpdate(es: seq<Entry>, at: nat, key: string, value: string, section: string, other: string)
    requires at <= |es| && NoneGlobal(es[..at])
    ensures var vs := ValuesOf(es, section, other);
            ValuesOf(UpdateEntries(es, at, key, value), section, other)
            == if section == GLOBAL && other == key then [value] + (if vs == [] then [] else vs[1..]) else vs
  {
    hide FirstGlobal, ValuesOf;
    var i, e := FirstGlobal(es, key), Entry(GLOBAL, key, value);
    FirstGlobalFound(es, key);
    if i < |es| {
      var a, b := es[..i], es[i + 1..];
      assert es == a + [es[i]] + b;
      Middle(a, es[i], b, e);
      ValuesOfReplace(a, es[i], b, e, section, other);
    } else {
      assert es[..i] == es && es == es[..at] + es[at..];
      ValuesOfInsert(es[..at], e, es[at..], section, other);
    }
  }

  lemma ValuesOfReplace(a: seq<Entry>, x: Entry, b: seq<Entry>, e: Entry, section: string, other: string)
    requires x.section == e.section == GLOBAL && x.key == e.key && ValuesOf(a, GLOBAL, e.key) == []
    ensures var vs := ValuesOf(a + [x] + b, section, other);
            ValuesOf(a + [e] + b, section, other)
            == if section == GLOBAL && other == e.key then [e.value] + (if vs == [] then [] else vs[1..]) else vs
  {
    hide ValuesOf;
    ValuesAround(a, x, b, section, other);
    ValuesAround(a, e, b, section, other);
    if section == GLOBAL && other == e.key {
      assert ValuesOf(a + [x] + b, section, other) == [x.value] + ValuesOf(b, section, other);
    }
  }

  lemma ValuesOfInsert(a: seq<Entry>, e: Entry, b: seq<Entry>, section: string, other: string)
    requires NoneGlobal(a) && e.section == GLOBAL
    ensures ValuesOf(a + [e] + b, section, other)
         == (if section == GLOBAL && other == e.key then [e.value] else []) + ValuesOf(a + b, section, other)
  {
    ValuesConcat(a, b, section, other);
    ValuesAround(a, e, b, section, other);
    NoneGlobalValues(a, other);
  }

  lemma ValuesAround(a: seq<Entry>, e: Entry, b: seq<Entry>, section: string, key: string)
    ensures ValuesOf(a + [e] + b, section, key)
         == ValuesOf(a, section, key) + (if e.section == section && e.key == key then [e.value] else []) + ValuesOf(b, section, key)
  {
    assert a + [e] + b == a + ([e] + b) && ([e] + b)[1..] == b;
    ValuesConcat(a, [e] + b, section, key);
  }

  lemma {:induction false} NoneGlobalValues(es: seq<Entry>, key: string)
    requires NoneGlobal(es)
    ensures ValuesOf(es, GLOBAL, key) == []
  {
    if es != [] { NoneGlobalValues(es[1..], key); }
  }

  /** The rows are left alone exactly when the first occurrence already reads the wanted text. */
  lemma SetRowsUnchangedIff(rows: seq<Row>, frame: seq<Row>, entry: Row, key: string, value: string)
    requires HasHeader(frame)
    ensures SetRows(rows, frame, entry, key, value).1 == Unchanged
       <==> var vs := ValuesOf(EntriesFrom(rows, ""), GLOBAL, key); vs != [] && vs[0] == value
  {
    hide FindGlobal, FindSetting, SectionAfter, EntriesFrom, Strip, ValuesOf;
    FirstSetting(rows, key);
    var j := FindSetting(rows, 0, "", key);
    if j < |rows| {
      var a, b := rows[..j], rows[j + 1..];
      assert rows == a + [rows[j]] + b;
      Around(a, rows[j], b, {});
      ValuesAround(EntriesFrom(a, ""), RowEntries(rows[j], GLOBAL)[0], EntriesFrom(b, GLOBAL), GLOBAL, key);
      assert EntriesFrom(rows, "") == EntriesFrom(a, "") + [RowEntries(rows[j], GLOBAL)[0]] + EntriesFrom(b, GLOBAL);
    } else {
      assert rows[..j] == rows;
    }
  }

  /** Apart from the rows that set one of the keys, an edit keeps its frame, row by row. */
  lemma SetRowsKeepsOthers(rows: seq<Row>, frame: seq<Row>, entry: Row, key: string, value: string, keys: set<string>)
    requires Frames(frame, rows)
    requires entry.says.Setting? && entry.says.key == key && key in keys
    ensures Strip(SetRows(rows, frame, entry, key, value).0, "", keys) == Strip(frame, "", keys)
    ensures HasHeader(SetRows(rows, frame, entry, key, value).0)
  {
    var after := SetRows(rows, frame, entry, key, value).0;
    if FindSetting(rows, 0, "", key) == |rows| {
      InsertKeepsOthers(frame, entry, keys);
    } else if after != rows {
      ReplaceKeepsOthers(rows, entry, key, keys);
    } else {
      SettingInsideGlobal(rows, key);
    }
  }

  lemma InsertKeepsOthers(frame: seq<Row>, entry: Row, keys: set<string>)
    requires HasHeader(frame) && Sets(entry, GLOBAL, keys)
    ensures Strip(InsertAfterHeader(frame, entry), "", keys) == Strip(frame, "", keys)
    ensures HasHeader(InsertAfterHeader(frame, entry))
  {
    hide FindGlobal, FindSetting, SectionAfter, EntriesFrom, Strip;
    var g := FindGlobal(frame, 0);
    var a, b := frame[..g], frame[g + 1..];
    SplitAt(frame, g);
    var h := a + [frame[g]];
    Extend(a, frame[g], keys);
    StripConcat(h, b, "", keys);
    Around(h, entry, b, keys);
    assert Strip(h, "", keys) + [] == Strip(h, "", keys);
    assert InsertAfterHeader(frame, entry)[g] == frame[g];
    HeaderIff(InsertAfterHeader(frame, entry));
  }

  lemma ReplaceKeepsOthers(rows: seq<Row>, entry: Row, key: string, keys: set<string>)
    requires entry.says.Setting? && entry.says.key == key && key in keys
    requires FindSetting(rows, 0, "", key) < |rows|
    ensures HasHeader(rows)
    ensures Strip(rows[FindSetting(rows, 0, "", key) := entry], "", keys) == Strip(rows, "", keys)
    ensures HasHeader(rows[FindSetting(rows, 0, "", key) := entry])
  {
    hide FindGlobal, FindSetting, SectionAfter, EntriesFrom, Strip, ValuesOf;
    FirstSetting(rows, key);
    SettingInsideGlobal(rows, key);
    var j := FindSetting(rows, 0, "", key);
    var a, b := rows[..j], rows[j + 1..];
    Middle(a, rows[j], b, entry);
    assert rows == a + [rows[j]] + b;
    Around(a, rows[j], b, keys);
    Around(a, entry, b, keys);
    assert rows[j := entry][FindGlobal(rows, 0)].says == Section(GLOBAL);
    HeaderIff(rows[j := entry]);
  }

  // ----- stripping

  lemma {:induction false} StripShrinks(rows: seq<Row>, section: string, keys: set<string>)
    ensures |Strip(rows, section, keys)| <= |rows|
    ensures |Strip(rows, section, keys)| == |rows| ==> Strip(rows, section, keys) == rows
    ensures section != GLOBAL && rows != [] ==> Strip(rows, section, keys) != []
  {
    if rows != [] {
      StripShrinks(rows[1..], NextSection(section, rows[0]), keys);
    }
  }

  lemma {:induction false} StripValues(rows: seq<Row>, start: string, keys: set<string>, section: string, key: string)
    ensures ValuesOf(EntriesFrom(Strip(rows, start, keys), start), section, key)
         == if section == GLOBAL && key in keys then [] else ValuesOf(EntriesFrom(rows, start), section, key)
  {
    if rows != [] {
      var next := NextSection(start, rows[0]);
      StripValues(rows[1..], next, keys, section, key);
      var rest := Strip(rows[1..], next, keys);
      ValuesConcat(RowEntries(rows[0], start), EntriesFrom(rows[1..], next), section, key);
      if !Sets(rows[0], start, keys) {
        assert ([rows[0]] + rest)[1..] == rest;
        ValuesConcat(RowEntries(rows[0], start), EntriesFrom(rest, next), section, key);
      } else {
        assert Strip(rows, start, keys) == rest;
      }
    }
  }

  lemma {:induction false} StripLosesIff(rows: seq<Row>, start: string, key: string)
    ensures Strip(rows, start, {key}) == rows <==> ValuesOf(EntriesFrom(rows, start), GLOBAL, key) == []
  {
    if rows != [] {
      hide Strip, EntriesFrom, ValuesOf, SectionAfter;
      var next := NextSection(start, rows[0]);
      var rest, row := Strip(rows[1..], next, {key}), RowEntries(rows[0], start);
      StripLosesIff(rows[1..], next, key);
      StripShrinks(rows[1..], next, {key});
      assert rows == [rows[0]] + rows[1..];
      InFront(rows[0], rows[1..], start, {key});
      ValuesConcat(row, EntriesFrom(rows[1..], next), GLOBAL, key);
      RowValues(rows[0], start, key);
      if Sets(rows[0], start, {key}) {
        assert |Strip(rows, start, {key})| < |rows|;
      } else {
        assert Strip(rows, start, {key}) == [rows[0]] + rest;
        assert rest != rows[1..] ==> [rows[0]] + rest != [rows[0]] + rows[1..] by { SameTail(rows[0], rest, rows[1..]); }
      }
    }
  }

  lemma SameTail<T>(x: T, a: seq<T>, b: seq<T>)
    ensures [x] + a == [x] + b <==> a == b
  {
    assert ([x] + a)[1..] == a && ([x] + b)[1..] == b;
  }

  lemma RowValues(row: Row, section: string, key: string)
    ensures ValuesOf(RowEntries(row, section), GLOBAL, key) == if Sets(row, section, {key}) then [row.says.value] else []
  {
  }

  lemma {:induction false} StripTwice(rows: seq<Row>, section: string, keys: set<string>, more: set<string>)
    requires keys <= more
    ensures Strip(Strip(rows, section, keys), section, more) == Strip(rows, section, more)
  {
    if rows != [] {
      var next := NextSection(section, rows[0]);
      StripTwice(rows[1..], next, keys, more);
      var rest := Strip(rows[1..], next, keys);
      if Sets(rows[0], section, keys) {
        assert Strip(rows, section, keys) == rest;
      } else {
        assert ([rows[0]] + rest)[1..] == rest;
      }
    }
  }

  lemma {:induction false} StripKeepsHeader(rows: seq<Row>, section: string, keys: set<string>)
    ensures (exists row :: row in rows && row.says == Section(GLOBAL))
       <==> (exists row :: row in Strip(rows, section, keys) && row.says == Section(GLOBAL))
  {
    if rows != [] {
      StripKeepsHeader(rows[1..], NextSection(section, rows[0]), keys);
      assert forall row :: row in rows <==> row == rows[0] || row in rows[1..];
    }
  }
}
