/**
 Values with a line break inside. The loader trims a TLS path or a forwarder
 but does not look inside it, and the editor writes it as it stands: what the
 file then says of the parameter is the value's first line, and the other
 lines, the value's tail, are lines of the file like any others. They may set
 parameters or open sections; what an edit then does to every list of values
 is stated here, for values of any number of lines.
 */
module LineBreaks {
  import opened Text
  import opened SmbRows
  import opened SmbConf

  // ----- a row that is several lines

  lemma JoinLines(xs: seq<string>, t: string, ys: seq<string>)
    ensures Unlines(xs + [t] + ys) == Unlines(xs + Lines(t) + ys)
  {
    hide Lines;
    LinesRoundTrip(t, []);
    OneLineText(t);
    JoinThree(xs, [t], ys);
    JoinThree(xs, Lines(t), ys);
  }

  lemma JoinThree(xs: seq<string>, ts: seq<string>, ys: seq<string>)
    requires |ts| >= 1
    ensures Unlines(xs + ts + ys)
         == (if xs == [] then "" else Unlines(xs) + "\n") + Unlines(ts) + (if ys == [] then "" else "\n" + Unlines(ys))
  {
    hide Unlines;
    if xs == [] { assert xs + ts == ts; } else { JoinAppend(xs, ts); }
    if ys == [] { assert xs + ts + ys == xs + ts; } else { JoinAppend(xs + ts, ys); }
  }

  /** A row written with line breaks inside is read back as the rows of its lines. */
  lemma ManyLines(a: seq<Row>, t: string, b: seq<Row>)
    requires Proper(a) && Proper(b)
    ensures Rows(TextOf(a + [RowOf(t)] + b)) == a + RowsOf(Lines(t)) + b
  {
    hide Proper, Read, Lines, Unlines;
    var mid := RowsOf(Lines(t));
    ProperLines(t);
    ProperConcat(a, mid);
    ProperConcat(a + mid, b);
    ProperText(a + mid + b);
    TextsConcat(a, mid);
    TextsConcat(a + mid, b);
    TextsConcat(a, [RowOf(t)]);
    TextsConcat(a + [RowOf(t)], b);
    OneText(RowOf(t));
    TextsOfRows(Lines(t));
    JoinLines(Texts(a), t, Texts(b));
  }

  lemma ProperLines(t: string)
    ensures Proper(RowsOf(Lines(t)))
  {
    hide Lines, Read;
    var lines := Lines(t);
    TextsOfRows(lines);
    LinesRoundTrip(t, []);
    forall i | 0 <= i < |lines|
      ensures OneLine(RowsOf(lines)[i].text)
    {
      TextAt(RowsOf(lines), i);
    }
  }

  // ----- what an edit writes

  function FirstLine(value: string): string {
    Lines(value)[0]
  }

  lemma {:induction false} SplitFront(front: string, s: string)
    requires OneLine(front)
    ensures Lines(front + s)[0] == front + Lines(s)[0] && Lines(front + s)[1..] == Lines(s)[1..]
  {
    if front == "" {
      assert front + s == s;
    } else {
      assert (front + s)[1..] == front[1..] + s && front[0] in front;
      SplitFront(front[1..], s);
      assert front == [front[0]] + front[1..];
    }
  }

  lemma Slices(rows: seq<Row>, i: nat)
    requires i < |rows| && Proper(rows)
    ensures Proper(rows[..i]) && Proper(rows[..i + 1]) && Proper(rows[i + 1..])
    ensures forall x :: rows[i := x] == rows[..i] + [x] + rows[i + 1..]
  {
    hide Proper;
    assert rows == rows[..i + 1] + rows[i + 1..] && rows[..i + 1] == rows[..i] + [rows[i]];
    ProperConcat(rows[..i + 1], rows[i + 1..]);
    ProperConcat(rows[..i], [rows[i]]);
  }

  lemma ProperRows(conf: string)
    ensures Proper(Rows(conf))
  {
    hide Proper, Read;
    ProperLines(conf);
  }

  lemma AfterHeader(frame: seq<Row>, key: string)
    requires HasHeader(frame)
    ensures var a := frame[..FindGlobal(frame, 0) + 1];
            SectionAfter(a, "") == GLOBAL && ValuesOf(EntriesFrom(a, ""), GLOBAL, key) == []
  {
    hide SectionAfter, EntriesFrom, Strip, FindGlobal;
    var g := FindGlobal(frame, 0);
    FindGlobalStops(frame, 0);
    OutsideGlobal(frame[..g], "", {});
    SplitAt(frame, g);
    Extend(frame[..g], frame[g], {});
    assert EntriesFrom(frame[..g], "") + [] == EntriesFrom(frame[..g], "");
    NoneGlobalValues(EntriesFrom(frame[..g], ""), key);
  }

  /** The rows that the further lines of a value become. */
  function Tail(value: string): seq<Row> {
    RowsOf(Lines(value)[1..])
  }

  lemma OneLineTail(value: string)
    requires OneLine(value)
    ensures Tail(value) == [] && FirstLine(value) == value
  {
    SplitOnAbsent(value, '\n');
  }

  lemma EntryRows(key: string, value: string)
    requires OneLine(key)
    ensures RowsOf(Lines(EntryLine(key, value))) == [RowOf(EntryLine(key, FirstLine(value)))] + Tail(value)
  {
    hide RowOf, Lines;
    SplitFront("\t" + key + " = ", value);
  }

  lemma EditTexts(conf: string, key: string, value: string)
    requires WithSetting(conf, key, value).1 != Unchanged
    ensures var rows, entry := Rows(conf), RowOf(EntryLine(key, value)); var j := FindSetting(rows, 0, "", CanonicalKey(key));
            && HasHeader(Frame(conf)) && EntriesFrom(Frame(conf), "") == Entries(conf)
            && WithSetting(conf, key, value).0
               == TextOf(if j < |rows| then rows[j := entry] else InsertAfterHeader(Frame(conf), entry))
  {
    hide Frame, Rows, RowOf, FindSetting, FindGlobal, CanonicalKey, EntryLine, InsertAfterHeader, EntriesFrom, TextOf;
    FrameHasHeader(conf);
  }

  /** The rows around the first setting of a key inside [global]. */
  lemma AroundFound(rows: seq<Row>, key: string) returns (a: seq<Row>, was: Row, b: seq<Row>)
    requires Proper(rows) && FindSetting(rows, 0, "", key) < |rows|
    ensures rows == a + [was] + b && Proper(a) && Proper(b) && was.says.Setting? && was.says.key == key && HasHeader(rows)
    ensures SectionAfter(a, "") == GLOBAL && ValuesOf(EntriesFrom(a, ""), GLOBAL, key) == []
    ensures forall x :: rows[FindSetting(rows, 0, "", key) := x] == a + [x] + b
  {
    hide Proper, FindSetting, FindGlobal, SectionAfter, EntriesFrom, ValuesOf;
    var j := FindSetting(rows, 0, "", key);
    FirstSetting(rows, key);
    SettingInsideGlobal(rows, key);
    Slices(rows, j);
    a, was, b := rows[..j], rows[j], rows[j + 1..];
  }

  /** The rows around the place for a new setting. */
  lemma AroundHeader(frame: seq<Row>, key: string) returns (a: seq<Row>, b: seq<Row>)
    requires Proper(frame) && HasHeader(frame)
    ensures frame == a + b && Proper(a) && Proper(b)
    ensures SectionAfter(a, "") == GLOBAL && ValuesOf(EntriesFrom(a, ""), GLOBAL, key) == []
    ensures forall x :: InsertAfterHeader(frame, x) == a + [x] + b
  {
    hide Proper, FindGlobal, SectionAfter, EntriesFrom, ValuesOf;
    var g := FindGlobal(frame, 0);
    Slices(frame, g);
    AfterHeader(frame, key);
    a, b := frame[..g + 1], frame[g + 1..];
  }

  lemma NotFound(conf: string, key: string)
    requires FindSetting(Rows(conf), 0, "", key) == |Rows(conf)|
    ensures Reads(conf, GLOBAL, key) == []
  {
    hide Rows, FindSetting, SectionAfter, EntriesFrom, ValuesOf;
    FirstSetting(Rows(conf), key);
    assert Rows(conf)[..|Rows(conf)|] == Rows(conf);
  }

  /**
   What an edit does to the rows of any file: at most one setting of the key,
   the first of [global], makes room for the entry and the value's tail.
   */
  lemma EditRows(conf: string, key: string, value: string) returns (a: seq<Row>, was: seq<Row>, b: seq<Row>)
    requires GoodKey(key) && WithSetting(conf, key, value).1 != Unchanged
    ensures Frame(conf) == a + was + b && EntriesFrom(Frame(conf), "") == Entries(conf)
    ensures SectionAfter(a, "") == GLOBAL && ValuesOf(EntriesFrom(a, ""), GLOBAL, CanonicalKey(key)) == []
    ensures if was == [] then Reads(conf, GLOBAL, CanonicalKey(key)) == []
            else Frame(conf) == Rows(conf) && |was| == 1 && was[0].says.Setting? && was[0].says.key == CanonicalKey(key)
    ensures Rows(WithSetting(conf, key, value).0) == a + [RowOf(EntryLine(key, FirstLine(value)))] + Tail(value) + b
  {
    hide *;
    var rows, ck := Rows(conf), CanonicalKey(key);
    EditTexts(conf, key, value);
    ProperRows(conf);
    ProperFrame(conf);
    KeyIsOneLine(key);
    if FindSetting(rows, 0, "", ck) < |rows| {
      var found;
      a, found, b := AroundFound(rows, ck);
      was := [found];
      FrameIsFile(conf);
    } else {
      a, b := AroundHeader(Frame(conf), ck);
      was := [];
      NotFound(conf, ck);
      assert a + [] == a;
    }
    Spliced(a, key, value, b);
  }

  lemma FrameIsFile(conf: string)
    requires HasHeader(Rows(conf))
    ensures Frame(conf) == Rows(conf)
  {
  }

  /** An entry between rows is read back as its first line and the tail of its value. */
  lemma Spliced(a: seq<Row>, key: string, value: string, b: seq<Row>)
    requires Proper(a) && Proper(b) && OneLine(key)
    ensures Rows(TextOf(a + [RowOf(EntryLine(key, value))] + b)) == a + [RowOf(EntryLine(key, FirstLine(value)))] + Tail(value) + b
  {
    hide *;
    ManyLines(a, EntryLine(key, value), b);
    EntryRows(key, value);
    Grouped(a, [RowOf(EntryLine(key, FirstLine(value)))], Tail(value), b);
  }

  lemma Grouped<T>(a: seq<T>, x: seq<T>, y: seq<T>, b: seq<T>)
    ensures a + (x + y) + b == a + x + y + b
  {
  }

  lemma KeyIsOneLine(key: string)
    requires GoodKey(key)
    ensures OneLine(key)
  {
  }

  // ----- what it does to every list

  /** The values a row list gives a parameter of a section. */
  function Says(rows: seq<Row>, start: string, section: string, key: string): seq<string> {
    ValuesOf(EntriesFrom(rows, start), section, key)
  }

  lemma SaysConcat(a: seq<Row>, b: seq<Row>, start: string, section: string, key: string)
    ensures Says(a + b, start, section, key) == Says(a, start, section, key) + Says(b, SectionAfter(a, start), section, key)
  {
    EntriesConcat(a, b, start);
    ValuesConcat(EntriesFrom(a, start), EntriesFrom(b, SectionAfter(a, start)), section, key);
  }

  lemma SaysOne(row: Row, start: string, section: string, key: string)
    ensures Says([row], start, section, key)
         == if row.says.Setting? && start == section && row.says.key == key then [row.says.value] else []
    ensures SectionAfter([row], start) == NextSection(start, row)
  {
    assert [row][1..] == [];
    var es := RowEntries(row, start);
    assert EntriesFrom([row], start) == es + [] == es;
    if es != [] {
      assert es[1..] == [] && ValuesOf(es[1..], section, key) == [];
      assert ValuesOf(es, section, key) == (if start == section && es[0].key == key then [es[0].value] else []) + [];
    }
  }

  /** What the tail of a value, written inside [global], says of a parameter of a section. */
  function Said(value: string, section: string, key: string): seq<string> {
    Says(Tail(value), GLOBAL, section, key)
  }

  /** The section that the tail of a value leaves the following lines in. */
  function EndsIn(value: string): string {
    SectionAfter(Tail(value), GLOBAL)
  }

  /** Every list, before an edit and after it. */
  lemma EditSays(conf: string, key: string, value: string, section: string, other: string) returns (a: seq<Row>, was: seq<Row>, b: seq<Row>)
    requires GoodKey(key) && WithSetting(conf, key, value).1 != Unchanged
    ensures Frame(conf) == a + was + b && SectionAfter(a, "") == GLOBAL
    ensures Says(a, "", GLOBAL, CanonicalKey(key)) == [] && (was == [] ==> Reads(conf, GLOBAL, CanonicalKey(key)) == [])
    ensures was != [] ==> Frame(conf) == Rows(conf)
    ensures |Says(was, GLOBAL, GLOBAL, CanonicalKey(key))| == |was| <= 1
    ensures section != GLOBAL || other != CanonicalKey(key) ==> Says(was, GLOBAL, section, other) == []
    ensures Reads(conf, section, other)
         == Says(a, "", section, other) + Says(was, GLOBAL, section, other) + Says(b, GLOBAL, section, other)
    ensures Rows(WithSetting(conf, key, value).0) == a + [RowOf(EntryLine(key, FirstLine(value)))] + Tail(value) + b
    ensures Reads(WithSetting(conf, key, value).0, section, other)
         == Says(a, "", section, other)
            + (if section == GLOBAL && other == CanonicalKey(key) then [Normalize(FirstLine(value))] else [])
            + Said(value, section, other) + Says(b, EndsIn(value), section, other)
  {
    hide GoodKey, WithSetting, Frame, Rows, RowOf, CanonicalKey, EntryLine, FirstLine, SectionAfter, EntriesFrom, ValuesOf, Tail, Normalize, Read;
    a, was, b := EditRows(conf, key, value);
    EntryLineReads(key, FirstLine(value));
    var entry := RowOf(EntryLine(key, FirstLine(value)));
    RowSays(EntryLine(key, FirstLine(value)));
    SaysOne(entry, GLOBAL, section, other);
    assert was != [] ==> was == [was[0]];
    if was != [] {
      SaysOne(was[0], GLOBAL, section, other);
      SaysOne(was[0], GLOBAL, GLOBAL, CanonicalKey(key));
    } else {
      NothingSays(GLOBAL, section, other);
      NothingSays(GLOBAL, GLOBAL, CanonicalKey(key));
    }
    SaysConcat(a + was, b, "", section, other);
    SaysConcat(a, was, "", section, other);
    SectionAfterConcat(a, was, "");
    SaysConcat(a + [entry] + Tail(value), b, "", section, other);
    SaysConcat(a + [entry], Tail(value), "", section, other);
    SaysConcat(a, [entry], "", section, other);
    SectionAfterConcat(a, [entry], "");
    SectionAfterConcat(a + [entry], Tail(value), "");
  }

  lemma RowSays(line: string)
    ensures RowOf(line).says == Read(line)
  {
  }

  lemma NothingSays(start: string, section: string, key: string)
    ensures Says([], start, section, key) == [] && SectionAfter([], start) == start
  {
  }

  /**
   Any value whose tail leaves [global] open: an edit makes the first [global]
   occurrence read the value's first line and adds what the tail says; a list
   of which the tail says nothing is as it was, in every file.
   */
  lemma SetReads(conf: string, key: string, value: string, section: string, other: string)
    requires GoodKey(key) && EndsIn(value) == GLOBAL
    requires (section == GLOBAL && other == CanonicalKey(key)) || Said(value, section, other) == []
    ensures var vs := Reads(conf, section, other);
            Reads(WithSetting(conf, key, value).0, section, other)
            == if section == GLOBAL && other == CanonicalKey(key)
               then [Normalize(FirstLine(value))] + Said(value, section, other) + (if vs == [] then [] else vs[1..])
               else vs
  {
    hide GoodKey, WithSetting, Frame, Rows, RowOf, CanonicalKey, EntryLine, FirstLine, SectionAfter, Tail, Says, Reads, Said, EndsIn, Normalize;
    if WithSetting(conf, key, value).1 == Unchanged {
      UnchangedIff(conf, key, value);
      ReadsAreNormal(conf, GLOBAL, CanonicalKey(key));
      NormalizeIdempotent(value);
      OneLineTail(value);
      OneLineSays(value, section, other);
    } else {
      var a, was, b := EditSays(conf, key, value, section, other);
    }
  }

  lemma OneLineSays(value: string, section: string, key: string)
    requires OneLine(value)
    ensures Said(value, section, key) == [] && EndsIn(value) == GLOBAL && FirstLine(value) == value
  {
    OneLineTail(value);
  }

  /** The tail leaves [global] open and sets nothing but the keys, in [global]. */
  predicate Contained(value: string, keys: set<string>) {
    && EndsIn(value) == GLOBAL
    && forall e :: e in EntriesFrom(Tail(value), GLOBAL) ==> e.section == GLOBAL && e.key in keys
  }

  lemma {:induction false} SaidIff(es: seq<Entry>, section: string, key: string)
    ensures ValuesOf(es, section, key) != [] <==> exists e :: e in es && e.section == section && e.key == key
  {
    if es != [] {
      SaidIff(es[1..], section, key);
      assert forall e :: e in es <==> e == es[0] || e in es[1..];
    }
  }

  /** A contained tail says nothing of any other parameter, and one that leaves [global] open and is not contained does. */
  lemma ContainedIff(value: string, keys: set<string>)
    ensures Contained(value, keys) ==>
              forall section, key {:trigger Said(value, section, key)} ::
                section != GLOBAL || key !in keys ==> Said(value, section, key) == []
    ensures EndsIn(value) == GLOBAL && !Contained(value, keys) ==>
              exists e: Entry :: (e.section != GLOBAL || e.key !in keys) && Said(value, e.section, e.key) != []
  {
    hide EntriesFrom, ValuesOf, Tail, SectionAfter;
    var es := EntriesFrom(Tail(value), GLOBAL);
    forall section, key
      ensures Said(value, section, key) != [] <==> exists e :: e in es && e.section == section && e.key == key
    {
      SaidIff(es, section, key);
    }
  }

  lemma {:induction false} SaysElsewhere(rows: seq<Row>, start: string, key: string, v: string)
    requires v in Says(rows, start, GLOBAL, key)
    ensures v in Says(rows, GLOBAL, GLOBAL, key)
  {
    if rows != [] {
      hide Says;
      assert rows == [rows[0]] + rows[1..];
      SaysConcat([rows[0]], rows[1..], start, GLOBAL, key);
      SaysConcat([rows[0]], rows[1..], GLOBAL, GLOBAL, key);
      SaysOne(rows[0], start, GLOBAL, key);
      SaysOne(rows[0], GLOBAL, GLOBAL, key);
      if !rows[0].says.Section? && v in Says(rows[1..], NextSection(start, rows[0]), GLOBAL, key) {
        SaysElsewhere(rows[1..], start, key, v);
      }
    }
  }

  /** Unsetting and then setting leaves one occurrence and what the tail says, whatever the file and the value. */
  lemma SetAfterUnset(conf: string, key: string, value: string)
    requires GoodKey(key)
    ensures Reads(WithSetting(WithoutSetting(conf, key).0, key, value).0, GLOBAL, CanonicalKey(key))
         == [Normalize(FirstLine(value))] + Said(value, GLOBAL, CanonicalKey(key))
  {
    hide GoodKey, WithSetting, WithoutSetting, Frame, Rows, RowOf, CanonicalKey, EntryLine, FirstLine, SectionAfter, Tail, Says, Reads, Said, EndsIn, Normalize;
    var bare, ck := WithoutSetting(conf, key).0, CanonicalKey(key);
    WithoutSettingReads(conf, key, GLOBAL, ck);
    UnchangedIff(bare, key, value);
    var a, was, b := EditSays(bare, key, value, GLOBAL, ck);
    var moved := Says(b, EndsIn(value), GLOBAL, ck);
    if moved != [] { SaysElsewhere(b, EndsIn(value), ck, moved[0]); }
  }

  /**
   Of two occurrences in [global] the file's order decides. The edit looks at
   the first one only, so it settles what the last one reads exactly when
   nothing after it, in the value's own tail or in the file, contradicts it.
   */
  lemma LastOccurrenceReadsIff(conf: string, key: string, value: string)
    requires GoodKey(key) && EndsIn(value) == GLOBAL
    ensures var vs, more := Reads(conf, GLOBAL, CanonicalKey(key)), Said(value, GLOBAL, CanonicalKey(key));
            var ws := Reads(WithSetting(conf, key, value).0, GLOBAL, CanonicalKey(key));
            && ws != []
            && (ws[|ws| - 1] == Normalize(FirstLine(value))
                <==> if |vs| > 1 then vs[|vs| - 1] == Normalize(FirstLine(value))
                     else more == [] || more[|more| - 1] == Normalize(FirstLine(value)))
  {
    hide Reads, WithSetting, CanonicalKey, Normalize, GoodKey, FirstLine, Said, EndsIn;
    SetReads(conf, key, value, GLOBAL, CanonicalKey(key));
  }

  /** Whatever the file and the value: unless the file already said it, the parameter now reads the value's first line. */
  lemma SetReadsFirstLine(conf: string, key: string, value: string)
    requires GoodKey(key) && WithSetting(conf, key, value).1 != Unchanged
    ensures var ws := Reads(WithSetting(conf, key, value).0, GLOBAL, CanonicalKey(key));
            ws != [] && ws[0] == Normalize(FirstLine(value))
  {
    hide GoodKey, WithSetting, Frame, Rows, RowOf, CanonicalKey, EntryLine, FirstLine, SectionAfter, Tail, Says, Reads, Said, EndsIn, Normalize;
    var a, was, b := EditSays(conf, key, value, GLOBAL, CanonicalKey(key));
  }

  // ----- the rows that stay

  /** The rows of `a` stand in `b`, in their order. */
  predicate Within(a: seq<Row>, b: seq<Row>)
    decreases |b|
  {
    a == [] || (b != [] && (Within(a, b[1..]) || (a[0] == b[0] && Within(a[1..], b[1..]))))
  }

  lemma {:induction false} WithinItself(a: seq<Row>)
    ensures Within(a, a)
  {
    if a != [] { WithinItself(a[1..]); }
  }

  lemma {:induction false} WithinConcat(a: seq<Row>, b: seq<Row>, x: seq<Row>, y: seq<Row>)
    requires Within(a, x) && Within(b, y)
    ensures Within(a + b, x + y)
    decreases |x|
  {
    if x == [] {
      assert a + b == b && x + y == y;
    } else {
      assert (x + y)[1..] == x[1..] + y;
      if a == [] {
        WithinConcat(a, b, x[1..], y);
      } else if Within(a, x[1..]) {
        WithinConcat(a, b, x[1..], y);
      } else {
        assert (a + b)[1..] == a[1..] + b;
        WithinConcat(a[1..], b, x[1..], y);
      }
    }
  }

  lemma {:induction false} WithinTrans(a: seq<Row>, b: seq<Row>, c: seq<Row>)
    requires Within(a, b) && Within(b, c)
    ensures Within(a, c)
    decreases |c|
  {
    if a != [] {
      if Within(b, c[1..]) {
        WithinTrans(a, b, c[1..]);
      } else if Within(a, b[1..]) {
        WithinTrans(a, b[1..], c[1..]);
      } else {
        WithinTrans(a[1..], b[1..], c[1..]);
      }
    }
  }

  lemma {:induction false} WithinLength(a: seq<Row>, b: seq<Row>)
    requires Within(a, b)
    ensures |a| <= |b| && (|a| == |b| ==> a == b)
    decreases |b|
  {
    if a != [] {
      if Within(a, b[1..]) { WithinLength(a, b[1..]); } else { WithinLength(a[1..], b[1..]); }
    }
  }

  /** Rows that are stripped inside [global] may stay in another section, and no other row goes. */
  lemma {:induction false} StripElsewhere(rows: seq<Row>, section: string, keys: set<string>)
    ensures Within(Strip(rows, GLOBAL, keys), Strip(rows, section, keys))
  {
    if rows != [] {
      hide Strip;
      var row, rest := rows[0], rows[1..];
      assert rows == [row] + rest;
      InFront(row, rest, GLOBAL, keys);
      InFront(row, rest, section, keys);
      WithinItself([row]);
      WithinItself(Strip(rest, section, keys));
      if row.says.Section? {
        WithinItself(Strip(rest, NextSection(section, row), keys));
      } else {
        StripElsewhere(rest, section, keys);
      }
      WithinConcat(if Sets(row, GLOBAL, keys) then [] else [row], Strip(rest, NextSection(GLOBAL, row), keys),
                   if Sets(row, section, keys) then [] else [row], Strip(rest, NextSection(section, row), keys));
    }
  }

  /** Rows that end inside [global] hold its header. */
  lemma EndsInGlobal(a: seq<Row>, rest: seq<Row>)
    requires SectionAfter(a, "") == GLOBAL
    ensures HasHeader(a + rest)
  {
    hide SectionAfter, FindGlobal, Strip, EntriesFrom;
    HeaderIff(a + rest);
    if NoHeader(a) { OutsideGlobal(a, "", {}); }
    var i :| 0 <= i < |a| && a[i].says == Section(GLOBAL);
    assert (a + rest)[i] == a[i];
  }

  /** Every row of the tail sets one of the keys, in [global]. */
  predicate Inert(value: string, keys: set<string>) {
    Strip(Tail(value), GLOBAL, keys) == []
  }

  /**
   Whatever the value: every row of the frame that sets none of the keys in
   [global] stays, byte for byte and in order. Nothing is added to them exactly
   when the tail is inert.
   */
  lemma SetKeepsRows(conf: string, key: string, value: string, keys: set<string>)
    requires GoodKey(key) && CanonicalKey(key) in keys
    ensures Within(Strip(Frame(conf), "", keys), OtherLines(WithSetting(conf, key, value).0, keys))
    ensures OtherLines(WithSetting(conf, key, value).0, keys) == Strip(Frame(conf), "", keys) <==> Inert(value, keys)
    ensures HasGlobal(WithSetting(conf, key, value).0)
  {
    hide GoodKey, WithSetting, Frame, Rows, RowOf, CanonicalKey, EntryLine, FirstLine, SectionAfter, Strip, Tail, Reads, EndsIn, EntriesFrom, ValuesOf, Within, FindGlobal, Read, Sets, Normalize;
    if WithSetting(conf, key, value).1 == Unchanged {
      UnchangedIff(conf, key, value);
      SaidInGlobal(conf, CanonicalKey(key));
      WithinItself(OtherLines(conf, keys));
      ReadsAreNormal(conf, GLOBAL, CanonicalKey(key));
      NormalizeIdempotent(value);
      OneLineTail(value);
      NothingStripped(keys);
    } else {
      var a, was, b := EditRows(conf, key, value);
      var line := EntryLine(key, FirstLine(value));
      assert Rows(WithSetting(conf, key, value).0) == a + ([RowOf(line)] + Tail(value) + b);
      EndsInGlobal(a, [RowOf(line)] + Tail(value) + b);
      EntryLineReads(key, FirstLine(value));
      RowSays(line);
      StripOut(a, was, b, keys);
      StripIn(a, RowOf(line), Tail(value), b, keys);
    }
  }

  lemma NothingStripped(keys: set<string>)
    ensures Strip([], GLOBAL, keys) == []
  {
  }

  lemma SaidInGlobal(conf: string, key: string)
    requires Reads(conf, GLOBAL, key) != []
    ensures HasGlobal(conf) && Frame(conf) == Rows(conf)
  {
    hide Rows, EntriesFrom, ValuesOf, FindSetting, FindGlobal, SectionAfter;
    FirstSetting(Rows(conf), key);
    assert Rows(conf)[..|Rows(conf)|] == Rows(conf);
    SettingInsideGlobal(Rows(conf), key);
  }

  lemma StripOut(a: seq<Row>, was: seq<Row>, b: seq<Row>, keys: set<string>)
    requires SectionAfter(a, "") == GLOBAL
    requires was == [] || (|was| == 1 && was[0].says.Setting? && was[0].says.key in keys)
    ensures Strip(a + was + b, "", keys) == Strip(a, "", keys) + Strip(b, GLOBAL, keys)
  {
    hide SectionAfter, Strip;
    StripConcat(a, b, "", keys);
    if was == [] {
      assert a + was == a;
    } else {
      assert was == [was[0]];
      Around(a, was[0], b, keys);
    }
  }

  lemma StripIn(a: seq<Row>, entry: Row, tail: seq<Row>, b: seq<Row>, keys: set<string>)
    requires SectionAfter(a, "") == GLOBAL && entry.says.Setting? && entry.says.key in keys
    ensures var before, after := Strip(a, "", keys) + Strip(b, GLOBAL, keys), Strip(a + ([entry] + tail + b), "", keys);
            Within(before, after) && (after == before <==> Strip(tail, GLOBAL, keys) == [])
  {
    hide SectionAfter, Strip, Within;
    var x, s := Strip(tail, GLOBAL, keys), SectionAfter(tail, GLOBAL);
    var y, z := Strip(b, GLOBAL, keys), Strip(b, s, keys);
    StripConcat(a, [entry] + tail + b, "", keys);
    assert [entry] + tail + b == [entry] + (tail + b);
    InFront(entry, tail + b, GLOBAL, keys);
    StripConcat(tail, b, GLOBAL, keys);
    assert Strip([entry] + tail + b, GLOBAL, keys) == x + z;
    StripElsewhere(b, s, keys);
    WithinItself(Strip(a, "", keys));
    NothingWithin(x);
    WithinConcat([], y, x, z);
    assert [] + y == y;
    WithinConcat(Strip(a, "", keys), y, Strip(a, "", keys), x + z);
    WithinLength(y, z);
    if x == [] {
      InertStays(tail, keys);
      assert x + z == z;
    }
  }

  lemma {:induction false} InertStays(rows: seq<Row>, keys: set<string>)
    requires Strip(rows, GLOBAL, keys) == []
    ensures SectionAfter(rows, GLOBAL) == GLOBAL
  {
    if rows != [] { InertStays(rows[1..], keys); }
  }

  lemma NothingWithin(b: seq<Row>)
    ensures Within([], b)
  {
  }

  /** On a file with a [global] header, unsetting what was just set gives the text that unsetting alone gives exactly when the tail is inert. */
  lemma UnsetAfterSetIff(conf: string, key: string, value: string)
    requires GoodKey(key) && HasGlobal(conf)
    ensures WithoutSetting(WithSetting(conf, key, value).0, key).0 == WithoutSetting(conf, key).0
       <==> Inert(value, {CanonicalKey(key)})
  {
    hide GoodKey, WithSetting, WithoutSetting, Rows, CanonicalKey, Strip, Within, TextOf, FindGlobal, Inert;
    WithoutSettingRows(conf, key);
    WithoutSettingRows(WithSetting(conf, key, value).0, key);
    SetKeepsRows(conf, key, value, {CanonicalKey(key)});
  }

  // ----- the exact condition

  lemma SpaceInFront(c: char, s: string)
    requires IsSpace(c)
    ensures Fields([c] + s) == Fields(s)
  {
    assert ([c] + s)[1..] == s;
  }

  lemma WordInFront(w: string, rest: string)
    requires w != "" && NoSpace(w) && (rest == "" || IsSpace(rest[0]))
    ensures Fields(w + rest) == [w] + Fields(rest)
  {
    WordLengthOfWord(w, rest);
    assert (w + rest)[..|w|] == w && (w + rest)[|w|..] == rest;
  }

  lemma {:induction false} FieldsConcat(a: string, c: char, b: string)
    requires IsSpace(c)
    ensures Fields(a + [c] + b) == Fields(a) + Fields(b)
    decreases |a|
  {
    hide IsSpace, Fields, WordLength, NoSpace;
    if a == "" {
      assert a + [c] + b == [c] + b;
      SpaceInFront(c, b);
      NoWords();
    } else if IsSpace(a[0]) {
      assert a == [a[0]] + a[1..] && a + [c] + b == [a[0]] + (a[1..] + [c] + b);
      FieldsConcat(a[1..], c, b);
      SpaceInFront(a[0], a[1..]);
      SpaceInFront(a[0], a[1..] + [c] + b);
    } else {
      var n := WordLength(a);
      WordIsSpaceless(a);
      var w, tail := a[..n], a[n..];
      assert a == w + tail && a + [c] + b == w + (tail + [c] + b);
      FieldsConcat(tail, c, b);
      WordInFront(w, tail);
      WordInFront(w, tail + [c] + b);
      Together(w, Fields(tail), Fields(b));
    }
  }

  lemma NoWords()
    ensures Fields("") == []
  {
  }

  lemma Together(w: string, x: seq<string>, y: seq<string>)
    ensures [w] + (x + y) == [w] + x + y
  {
  }

  lemma {:induction false} SomeField(s: string)
    requires s != "" && !IsSpace(s[|s| - 1])
    ensures Fields(s) != []
    decreases |s|
  {
    hide IsSpace;
    if IsSpace(s[0]) { SomeField(s[1..]); }
  }

  /** A trimmed value with a line break inside is more than its first line. */
  lemma FirstLineIsLess(value: string)
    requires Trim(value) == value && !OneLine(value)
    ensures Normalize(FirstLine(value)) != Normalize(value)
  {
    hide IsSpace, Join, Trim, Normalize;
    var n := IndexOf(value, '\n');
    BreakAt(value);
    var rest := value[n + 1..];
    BreakIsSpace();
    TrimmedEnd(value);
    assert value == value[..n] + ['\n'] + rest;
    FieldsConcat(value[..n], '\n', rest);
    assert rest != "" && rest[|rest| - 1] == value[|value| - 1];
    SomeField(rest);
    NormalizeIs(FirstLine(value));
    NormalizeIs(value);
  }

  lemma BreakIsSpace()
    ensures IsSpace('\n')
  {
  }

  lemma {:induction false} BreakAt(s: string)
    requires !OneLine(s)
    ensures IndexOf(s, '\n') < |s| && s[IndexOf(s, '\n')] == '\n' && FirstLine(s) == s[..IndexOf(s, '\n')]
  {
    if s[0] != '\n' {
      assert s == [s[0]] + s[1..];
      BreakAt(s[1..]);
    }
  }

  lemma TrimmedEnd(s: string)
    requires Trim(s) == s && s != ""
    ensures !IsSpace(s[|s| - 1])
  {
    hide IsSpace;
    TrimRightEnd(TrimLeft(s));
  }

  lemma {:induction false} TrimRightEnd(s: string)
    ensures TrimRight(s) != "" ==> !IsSpace(TrimRight(s)[|TrimRight(s)| - 1])
    decreases |s|
  {
    hide IsSpace;
    if s != "" && IsSpace(s[|s| - 1]) { TrimRightEnd(s[..|s| - 1]); }
  }

  /** For a value as the loader hands it over, an edit puts it in force exactly when it is one line, whatever the file. */
  lemma SetReadsIff(conf: string, key: string, value: string)
    requires GoodKey(key) && Trim(value) == value
    ensures var ws := Reads(WithSetting(conf, key, value).0, GLOBAL, CanonicalKey(key));
            ws != [] && (ws[0] == Normalize(value) <==> OneLine(value))
  {
    hide Reads, WithSetting, GoodKey, CanonicalKey, Normalize, Trim, OneLine, FirstLine;
    if OneLine(value) {
      WithSettingReads(conf, key, value, GLOBAL, CanonicalKey(key));
    } else {
      NormalizeIdempotent(value);
      UnchangedIff(conf, key, value);
      ReadsAreNormal(conf, GLOBAL, CanonicalKey(key));
      SeveralLinesNotNormal(value);
      SetReadsFirstLine(conf, key, value);
      FirstLineIsLess(value);
    }
  }

  lemma SeveralLinesNotNormal(value: string)
    requires !OneLine(value)
    ensures Normalize(value) != value
  {
    NormalizeIdempotent(value);
  }
}
