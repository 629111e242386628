/**
 What a reconcile puts in force and what it leaves alone, for every value that
 the loader lets through. A path may hold line breaks: then the declared value
 is not in force, and the further lines may set other parameters or move the
 lines below them into another section. Both failures are given their exact
 conditions, over every file.
 */
module InForce {
  import opened Text
  import opened SmbRows
  import opened SmbConf
  import opened LineBreaks
  import opened GlobalOptions
  import opened Reconcile

  // ----- what is in force

  lemma {:induction false} SetAllConcat(conf: string, a: seq<GlobalOption>, b: seq<GlobalOption>)
    ensures SetAll(conf, a + b).0 == SetAll(SetAll(conf, a).0, b).0
    decreases |a|
  {
    hide WithSetting;
    if a == [] {
      assert a + b == b;
    } else {
      assert (a + b)[1..] == a[1..] + b;
      SetAllConcat(WithSetting(conf, a[0].name.text, a[0].value).0, a[1..], b);
    }
  }

  predicate Trimmed(os: seq<GlobalOption>) {
    forall o :: o in os ==> Trim(o.value) == o.value
  }

  lemma SetOne(conf: string, o: GlobalOption)
    ensures SetAll(conf, [o]).0 == WithSetting(conf, o.name.text, o.value).0
  {
    hide WithSetting;
    assert [o][1..] == [];
  }

  lemma InitWritable(os: seq<GlobalOption>)
    requires os != [] && Writable(os)
    ensures Writable(os[..|os| - 1]) && forall o :: o in os[..|os| - 1] ==> o.name.canonical != os[|os| - 1].name.canonical
  {
    hide GoodKey, CanonicalKey;
    var init := os[..|os| - 1];
    assert forall i :: 0 <= i < |init| ==> init[i] == os[i];
    assert forall o :: o in init ==> o in os;
  }

  /** The last option with a line break is not in force after all have been set. */
  lemma {:induction false} LastBreakUnread(conf: string, os: seq<GlobalOption>)
    requires Writable(os) && Trimmed(os) && !OneLineValues(os)
    ensures exists o :: o in os && Reads(SetAll(conf, os).0, GLOBAL, o.name.canonical) != []
              && Reads(SetAll(conf, os).0, GLOBAL, o.name.canonical)[0] != Normalize(o.value)
    decreases |os|
  {
    hide SetAll, WithSetting, Reads, GoodKey, CanonicalKey, Normalize, Trim, OneLine;
    var n := |os| - 1;
    var init, last := os[..n], os[n];
    assert os == init + [last] && last in os;
    InitWritable(os);
    SetAllConcat(conf, init, [last]);
    var before := SetAll(conf, init).0;
    SetOne(before, last);
    if OneLine(last.value) {
      assert forall o :: o in os <==> o in init || o == last;
      LastBreakUnread(conf, init);
      var o :| o in init && Reads(before, GLOBAL, o.name.canonical) != [] && Reads(before, GLOBAL, o.name.canonical)[0] != Normalize(o.value);
      WithSettingReads(before, last.name.text, last.value, GLOBAL, o.name.canonical);
    } else {
      SetReadsIff(before, last.name.text, last.value);
    }
  }

  /**
   A reconcile puts everything declared in force exactly when every declared
   value is one line.
   */
  lemma PassReadsIff(conf: string, c: Config)
    requires Loaded(c)
    ensures (forall o :: o in EffectiveOptions(c) ==>
               var vs := Reads(Pass(conf, c).0, GLOBAL, o.name.canonical); vs != [] && vs[0] == Normalize(o.value))
       <==> OneLineValues(EffectiveOptions(c))
  {
    hide SetAll, UnsetAll, Reads, GoodKey, CanonicalKey, Normalize, Trim, OwnerOf;
    var os := EffectiveOptions(c);
    EffectiveWritable(c);
    if OneLineValues(os) {
      forall o | o in os
        ensures var vs := Reads(Pass(conf, c).0, GLOBAL, o.name.canonical); vs != [] && vs[0] == Normalize(o.value)
      {
        OptionFound(os, o);
        PassReadsOneLine(conf, c, GLOBAL, o.name.canonical);
      }
    } else {
      BlockWritable(c);
      TLSOptionsWritable(c);
      PathsTrimmed(c);
      OnlyPathsMatter(c, GLOBAL, "");
      NothingRemoved(conf, c);
      LastBreakUnread(conf, TLSOptions(c));
      SetAllConcat(conf, TLSOptions(c), c.options);
      var tls := SetAll(conf, TLSOptions(c)).0;
      var o :| o in TLSOptions(c) && Reads(tls, GLOBAL, o.name.canonical) != [] && Reads(tls, GLOBAL, o.name.canonical)[0] != Normalize(o.value);
      OneLineClear(c.options, GLOBAL, o.name.canonical);
      SetAllReads(tls, c.options, GLOBAL, o.name.canonical);
      NotDeclared(c, o);
      assert o in os;
    }
  }

  lemma PathsTrimmed(c: Config)
    requires Loaded(c)
    ensures Trimmed(TLSOptions(c))
  {
    hide Trim, NameOf;
  }

  lemma BlockWritable(c: Config)
    requires Loaded(c)
    ensures OneLineValues(c.options) && Writable(c.options)
  {
    hide CanonicalKey, GoodKey, OwnerOf, Normalize, KeyChars;
    LoadedOptions(c);
    forall o | o in c.options
      ensures OneLine(o.value) && o.name.canonical == CanonicalKey(o.name.text) && GoodKey(o.name.text)
    {
      assert Tidy(o);
    }
  }

  /**
   The LDAPS material, parameter by parameter: a path that is given is what the
   first occurrence reads after a reconcile, by its first line; without paths
   the file says nothing of the parameter in [global].
   */
  lemma TLSInForce(conf: string, c: Config, key: string, path: string)
    requires Loaded(c) && (key, path) in [("tls certfile", c.tlsCert), ("tls keyfile", c.tlsKey), ("tls cafile", c.tlsCA)]
    requires AllClear(TLSOptions(c), GLOBAL, CanonicalKey(key))
    ensures var vs := Reads(Pass(conf, c).0, GLOBAL, CanonicalKey(key));
            if path == "" then vs == [] else vs != [] && vs[0] == Normalize(FirstLine(path))
  {
    hide Pass, Reads, CanonicalKey, GoodKey, OwnerOf, AllClear, FirstLine, Normalize, Loaded, TLSOptions, Written;
    TrioTogether(c);
    TLSNames(key);
    OnlyPathsMatter(c, GLOBAL, CanonicalKey(key));
    PassReads(conf, c, GLOBAL, CanonicalKey(key));
    EffectiveWritable(c);
    if path == "" {
      OwnedIsElsewhere(c, key);
    } else {
      var o := GlobalOption(NameOf(key), path);
      PathIsOption(c, key, path);
      OptionFound(EffectiveOptions(c), o);
    }
  }

  lemma TrioTogether(c: Config)
    requires Loaded(c)
    ensures c.tlsCert == "" <==> c.tlsKey == ""
    ensures c.tlsCert == "" <==> c.tlsCA == ""
  {
    TrioIff(c);
  }

  lemma PathIsOption(c: Config, key: string, path: string)
    requires (key, path) in [("tls certfile", c.tlsCert), ("tls keyfile", c.tlsKey), ("tls cafile", c.tlsCA)] && c.tlsCert != ""
    ensures GlobalOption(NameOf(key), path) in EffectiveOptions(c)
  {
    hide CanonicalKey;
    var os := TLSOptions(c);
    assert os[0] in EffectiveOptions(c) && os[1] in EffectiveOptions(c) && os[2] in EffectiveOptions(c);
  }

  /** Without paths a TLS parameter is not declared, and it is among the removals. */
  lemma OwnedIsElsewhere(c: Config, key: string)
    requires Loaded(c) && c.tlsCert == "" && key in ["tls certfile", "tls keyfile", "tls cafile"]
    ensures IndexOfOption(EffectiveOptions(c), CanonicalKey(key)) == |EffectiveOptions(c)|
    ensures CanonicalKey(key) in Canonicals(Removals(c))
  {
    hide CanonicalKey, OwnerOf, GoodKey;
    EffectiveWritable(c);
    TLSOwned(key);
    var keys := TLSKeys();
    assert exists i :: 0 <= i < 3 && keys[i] == key;
    NotAnOption(EffectiveOptions(c), CanonicalKey(key), {CanonicalKey(key)});
  }

  lemma NothingRemoved(conf: string, c: Config)
    requires TLSOptions(c) != []
    ensures Pass(conf, c).0 == SetAll(conf, TLSOptions(c) + c.options).0
  {
    hide SetAll;
  }

  lemma NotDeclared(c: Config, o: GlobalOption)
    requires Loaded(c) && o in TLSOptions(c)
    ensures IndexOfOption(c.options, o.name.canonical) == |c.options|
  {
    hide CanonicalKey, GoodKey, OwnerOf;
    EffectiveWritable(c);
    TLSOptionsWritable(c);
    assert forall i :: 0 <= i < |c.options| ==> c.options[i] in c.options;
  }

  // ----- files that give an edit away

  lemma SmallerThan(words: set<string>) returns (n: nat)
    ensures forall w :: w in words ==> |w| < n
  {
    if words == {} {
      n := 0;
    } else {
      var w :| w in words;
      var m := SmallerThan(words - {w});
      n := m + |w| + 1;
      assert forall x :: x in words ==> x == w || x in words - {w};
    }
  }

  /** A name, and a value, that none of the given texts can be. */
  lemma Fresh(words: set<string>) returns (name: string)
    ensures name !in words && GoodKey(name) && CanonicalKey(name) !in words && Normalize(name) == name
  {
    var n := SmallerThan(words);
    name := seq(n + 1, _ => 'a');
    assert NoSpace(name);
    FieldsOfJoin([name]);
    assert Join([name], " ") == name;
    CanonicalKeyIsCompact(name);
    CompactSpaceless(name);
  }

  lemma EmptyFile(section: string, key: string)
    ensures Reads("", section, key) == []
  {
    assert Lines("") == [""];
    assert Trim("") == "";
    assert RowsOf([""]) == [RowOf("")] by { assert [""][1..] == []; }
    assert [RowOf("")][1..] == [];
  }

  /** A value that is not one line is never left out as already set. */
  lemma BreakIsEdited(conf: string, key: string, value: string)
    requires !OneLine(value)
    ensures WithSetting(conf, key, value).1 != Unchanged
  {
    hide WithSetting, Reads, CanonicalKey, Normalize, OneLine;
    UnchangedIff(conf, key, value);
    ReadsAreNormal(conf, GLOBAL, CanonicalKey(key));
    NormalizeIdempotent(value);
  }

  lemma BreakSeen(value: string, section: string, key: string)
    requires EndsIn(value) != GLOBAL || Said(value, section, key) != []
    ensures !OneLine(value)
  {
    hide OneLine, EndsIn, Said;
    if OneLine(value) { OneLineSays(value, section, key); }
  }

  // ----- one edit, seen from another list

  /** While [global] stays open, another list only grows, by what the tail says. */
  lemma ListGrows(conf: string, key: string, value: string, section: string, other: string)
    requires GoodKey(key) && EndsIn(value) == GLOBAL && (section != GLOBAL || other != CanonicalKey(key))
    requires Reads(conf, section, other) != [] || Said(value, section, other) != []
    ensures Reads(WithSetting(conf, key, value).0, section, other) != []
  {
    hide GoodKey, WithSetting, Reads, CanonicalKey, Said, EndsIn, Says, Frame, Rows, SectionAfter, Tail, FirstLine, Normalize, EntryLine, OneLine;
    if WithSetting(conf, key, value).1 == Unchanged {
      UnchangedIff(conf, key, value);
      if Said(value, section, other) != [] {
        BreakSeen(value, section, other);
        BreakIsEdited(conf, key, value);
      }
    } else {
      var a, was, b := EditSays(conf, key, value, section, other);
    }
  }

  /** No edit brings a value of another parameter into [global] that its tail does not say. */
  lemma AbsentStays(conf: string, key: string, value: string, other: string, v: string)
    requires GoodKey(key) && other != CanonicalKey(key)
    requires v !in Reads(conf, GLOBAL, other) && v !in Said(value, GLOBAL, other)
    ensures v !in Reads(WithSetting(conf, key, value).0, GLOBAL, other)
  {
    hide GoodKey, WithSetting, Reads, CanonicalKey, Said, EndsIn, Says, Frame, Rows, SectionAfter, Tail, FirstLine, Normalize, EntryLine;
    if WithSetting(conf, key, value).1 == Unchanged {
      UnchangedIff(conf, key, value);
    } else {
      var a, was, b := EditSays(conf, key, value, GLOBAL, other);
      if v in Says(b, EndsIn(value), GLOBAL, other) { SaysElsewhere(b, EndsIn(value), other, v); }
    }
  }

  lemma {:induction false} AbsentForAll(conf: string, os: seq<GlobalOption>, key: string, v: string)
    requires Writable(os) && key !in Keys(os)
    requires v !in Reads(conf, GLOBAL, key) && Unsaid(os, key, v)
    ensures v !in Reads(SetAll(conf, os).0, GLOBAL, key)
    decreases |os|
  {
    hide GoodKey, WithSetting, Reads, CanonicalKey, Said;
    if os != [] {
      assert os[0] in os && forall o :: o in os[1..] ==> o in os;
      TailWritable(os);
      AbsentStays(conf, os[0].name.text, os[0].value, key, v);
      AbsentForAll(WithSetting(conf, os[0].name.text, os[0].value).0, os[1..], key, v);
    }
  }

  // ----- a tail that says more than it should

  /** The parameters that options set. */
  function Keys(os: seq<GlobalOption>): set<string> {
    set o | o in os :: o.name.canonical
  }

  predicate Unsaid(os: seq<GlobalOption>, key: string, v: string) {
    forall o :: o in os ==> v !in Said(o.value, GLOBAL, key)
  }

  predicate LeaveOpen(os: seq<GlobalOption>) {
    forall o :: o in os ==> EndsIn(o.value) == GLOBAL
  }

  /** While every tail leaves [global] open, what one of them says of a foreign parameter is there at the end. */
  lemma {:induction false} SaidStays(conf: string, os: seq<GlobalOption>, section: string, key: string)
    requires Writable(os) && LeaveOpen(os) && (section != GLOBAL || key !in Keys(os))
    requires Reads(conf, section, key) != [] || exists o :: o in os && Said(o.value, section, key) != []
    ensures Reads(SetAll(conf, os).0, section, key) != []
    decreases |os|
  {
    hide GoodKey, WithSetting, Reads, CanonicalKey, Said, EndsIn;
    if os != [] {
      var o, updated := os[0], WithSetting(conf, os[0].name.text, os[0].value).0;
      assert o in os && forall p :: p in os <==> p == o || p in os[1..];
      TailWritable(os);
      if Reads(conf, section, key) != [] || Said(o.value, section, key) != [] {
        ListGrows(conf, o.name.text, o.value, section, key);
      }
      SaidStays(updated, os[1..], section, key);
    }
  }

  // ----- a tail that leaves [global]

  /** The file's first rows, and how the rest must look for an edit to happen there. */
  predicate Staged(conf: string, p: seq<Row>, os: seq<GlobalOption>, key: string, v: string) {
    && |p| <= |Rows(conf)| && Rows(conf)[..|p|] == p
    && v !in Says(Rows(conf)[|p|..], GLOBAL, GLOBAL, key)
    && forall o :: o in os ==> Reads(conf, GLOBAL, o.name.canonical) != []
  }

  lemma SplitReads(conf: string, p: seq<Row>, key: string)
    requires |p| <= |Rows(conf)| && Rows(conf)[..|p|] == p && SectionAfter(p, "") == GLOBAL
    ensures Reads(conf, GLOBAL, key) == Says(p, "", GLOBAL, key) + Says(Rows(conf)[|p|..], GLOBAL, GLOBAL, key)
  {
    hide Rows, EntriesFrom, ValuesOf, SectionAfter;
    assert Rows(conf) == p + Rows(conf)[|p|..];
    SaysConcat(p, Rows(conf)[|p|..], "", GLOBAL, key);
  }

  lemma SameBelow(p: seq<string>, a: seq<string>, b: seq<string>, c: seq<string>, x: seq<string>, y: seq<string>)
    requires a + b == p + x && a + c + b == p + y && |p| <= |a|
    ensures forall v :: v in y ==> v in x || v in c
  {
    assert (a + b)[..|p|] == a[..|p|] && (p + x)[..|p|] == p;
    assert a == p + a[|p|..];
    assert x == (a + b)[|p|..] == a[|p|..] + b && y == (a + c + b)[|p|..] == a[|p|..] + c + b;
  }

  /** An edit of a parameter that the first rows do not set, and the file does, happens below them. */
  lemma EditBelow(p: seq<Row>, a: seq<Row>, was: seq<Row>, b: seq<Row>, key: string)
    requires |p| <= |a + was + b| && (a + was + b)[..|p|] == p
    requires SectionAfter(a, "") == GLOBAL && |was| == 1 && Says(was, GLOBAL, GLOBAL, key) != [] && Says(p, "", GLOBAL, key) == []
    ensures |p| <= |a| && a[..|p|] == p
  {
    hide Says, SectionAfter;
    if |p| > |a| {
      var aw := a + was;
      assert p == aw + p[|aw|..] by { assert p[..|aw|] == (a + was + b)[..|aw|] == aw; }
      SaysConcat(aw, p[|aw|..], "", GLOBAL, key);
      SaysConcat(a, was, "", GLOBAL, key);
    }
  }

  lemma StagedStep(conf: string, p: seq<Row>, os: seq<GlobalOption>, key: string, v: string)
    requires os != [] && Writable(os) && key !in Keys(os)
    requires EndsIn(os[0].value) == GLOBAL && v !in Said(os[0].value, GLOBAL, key)
    requires SectionAfter(p, "") == GLOBAL && Says(p, "", GLOBAL, os[0].name.canonical) == []
    requires Staged(conf, p, os, key, v)
    ensures Staged(SetAll(conf, os[..1]).0, p, os[1..], key, v)
  {
    hide GoodKey, WithSetting, Reads, CanonicalKey, Said, EndsIn, Says, Frame, Rows, SectionAfter, Tail, FirstLine, Normalize, EntryLine, RowOf;
    var o := os[0];
    assert o in os && os[..1] == [o] && forall q :: q in os[1..] ==> q in os;
    SetOne(conf, o);
    TailWritable(os);
    var updated := WithSetting(conf, o.name.text, o.value).0;
    if WithSetting(conf, o.name.text, o.value).1 == Unchanged {
      UnchangedIff(conf, o.name.text, o.value);
    } else {
      var a, was, b := EditSays(conf, o.name.text, o.value, GLOBAL, key);
      EditBelow(p, a, was, b, o.name.canonical);
      var e := RowOf(EntryLine(o.name.text, FirstLine(o.value)));
      assert (a + [e] + Tail(o.value) + b)[..|p|] == p;
      SplitReads(conf, p, key);
      SplitReads(updated, p, key);
      assert a == p + a[|p|..];
      SaysConcat(p, a[|p|..], "", GLOBAL, key);
      SameBelow(Says(p, "", GLOBAL, key), Says(a, "", GLOBAL, key), Says(b, GLOBAL, GLOBAL, key), Said(o.value, GLOBAL, key),
                Says(Rows(conf)[|p|..], GLOBAL, GLOBAL, key), Says(Rows(updated)[|p|..], GLOBAL, GLOBAL, key));
      forall q | q in os[1..]
        ensures Reads(updated, GLOBAL, q.name.canonical) != []
      {
        ListGrows(conf, o.name.text, o.value, GLOBAL, q.name.canonical);
      }
    }
  }

  lemma {:induction false} StagedForAll(conf: string, p: seq<Row>, pre: seq<GlobalOption>, rest: seq<GlobalOption>, key: string, v: string)
    requires Writable(pre + rest) && key !in Keys(pre + rest) && LeaveOpen(pre) && Unsaid(pre, key, v)
    requires SectionAfter(p, "") == GLOBAL && forall o :: o in pre ==> Says(p, "", GLOBAL, o.name.canonical) == []
    requires Staged(conf, p, pre + rest, key, v)
    ensures Staged(SetAll(conf, pre).0, p, rest, key, v)
    decreases |pre|
  {
    hide GoodKey, Reads, CanonicalKey, Said, EndsIn, Says, SectionAfter, Staged, SetAll;
    if pre == [] {
      assert pre + rest == rest;
      SetNone(conf);
    } else {
      var o, os := pre[0], pre + rest;
      assert os[0] == o && os[..1] == [o] && os[1..] == pre[1..] + rest && pre == [o] + pre[1..];
      assert o in pre && o in os && forall q :: q in pre[1..] ==> q in pre;
      StagedStep(conf, p, os, key, v);
      TailWritable(os);
      SetAllConcat(conf, [o], pre[1..]);
      assert Keys(pre[1..] + rest) <= Keys(os);
      StagedForAll(SetAll(conf, [o]).0, p, pre[1..], rest, key, v);
    }
  }

  lemma SetNone(conf: string)
    ensures SetAll(conf, []).0 == conf
  {
  }

  lemma ThreeSay(h: Row, ro: Row, rk: Row, key: string)
    requires h.says == Section(GLOBAL) && ro.says.Setting? && rk.says.Setting?
    ensures SectionAfter([h], "") == SectionAfter([h, ro], "") == SectionAfter([h, ro, rk], "") == GLOBAL
    ensures Says([h], "", GLOBAL, key) == []
    ensures Says([h, ro], "", GLOBAL, key) == if ro.says.key == key then [ro.says.value] else []
    ensures Says([h, ro, rk], "", GLOBAL, key) == Says([h, ro], "", GLOBAL, key) + if rk.says.key == key then [rk.says.value] else []
  {
    hide Says, SectionAfter;
    assert [h, ro] == [h] + [ro] && [h, ro, rk] == [h, ro] + [rk];
    SaysOne(h, "", GLOBAL, key);
    SaysOne(ro, GLOBAL, GLOBAL, key);
    SaysOne(rk, GLOBAL, GLOBAL, key);
    SaysConcat([h], [ro], "", GLOBAL, key);
    SaysConcat([h, ro], [rk], "", GLOBAL, key);
    SectionAfterConcat([h], [ro], "");
    SectionAfterConcat([h, ro], [rk], "");
  }

  /** The edit that leaves [global] right above a setting takes it along. */
  lemma EditMoves(conf: string, h: Row, ro: Row, rk: Row, o: GlobalOption, key: string, v: string)
    requires h.says == Section(GLOBAL) && ro.says.Setting? && ro.says.key == o.name.canonical && rk.says == Setting(key, v)
    requires GoodKey(o.name.text) && o.name.canonical == CanonicalKey(o.name.text) != key
    requires Staged(conf, [h, ro, rk], [o], key, v) && EndsIn(o.value) != GLOBAL && v !in Said(o.value, GLOBAL, key)
    ensures v !in Reads(WithSetting(conf, o.name.text, o.value).0, GLOBAL, key)
  {
    hide GoodKey, WithSetting, Reads, CanonicalKey, Said, EndsIn, Says, Frame, Rows, SectionAfter, Tail, FirstLine, Normalize, EntryLine, RowOf, OneLine;
    var p, ck, y := [h, ro, rk], o.name.canonical, EndsIn(o.value);
    assert o in [o];
    BreakSeen(o.value, GLOBAL, key);
    BreakIsEdited(conf, o.name.text, o.value);
    var a, was, b := EditSays(conf, o.name.text, o.value, GLOBAL, key);
    ThreeSay(h, ro, rk, ck);
    ThreeSay(h, ro, rk, key);
    OnlyHeaderAbove(a, was, b, h, ro, ck);
    var rest := Rows(conf)[3..];
    assert Rows(conf) == p + rest == [h, ro, rk] + rest;
    assert b == [rk] + rest;
    SaysConcat([rk], rest, y, GLOBAL, key);
    SaysOne(rk, y, GLOBAL, key);
    if v in Says(rest, y, GLOBAL, key) { SaysElsewhere(rest, y, key, v); }
  }

  lemma OnlyHeaderAbove(a: seq<Row>, was: seq<Row>, b: seq<Row>, h: Row, ro: Row, key: string)
    requires |a + was + b| >= 2 && (a + was + b)[..2] == [h, ro] && |was| == 1
    requires SectionAfter(a, "") == GLOBAL && Says(a, "", GLOBAL, key) == []
    requires Says([h, ro], "", GLOBAL, key) != []
    ensures a == [h] && was == [ro]
  {
    hide Says, SectionAfter;
    if a == [] { NothingSays("", GLOBAL, key); }
    if |a| >= 2 {
      assert a == [h, ro] + a[2..];
      SaysConcat([h, ro], a[2..], "", GLOBAL, key);
    }
    assert |a| == 1 ==> a[0] == (a + was + b)[..2][0] && was[0] == (a + was + b)[..2][1];
  }

  /** A file with an empty value for every option, in [global]. */
  function Slots(os: seq<GlobalOption>): seq<Row> {
    if os == [] then [] else [RowOf(EntryLine(os[0].name.text, ""))] + Slots(os[1..])
  }

  lemma SlotReads(o: GlobalOption)
    requires GoodKey(o.name.text) && o.name.canonical == CanonicalKey(o.name.text)
    ensures RowOf(EntryLine(o.name.text, "")).says == Setting(o.name.canonical, "")
    ensures Proper([RowOf(EntryLine(o.name.text, ""))])
  {
    hide CanonicalKey, Read, Proper;
    EntryLineReads(o.name.text, "");
    ProperEntry(EntryLine(o.name.text, "")) by { assert OneLine(o.name.text); }
    assert Normalize("") == "";
  }

  lemma {:induction false} SlotsSay(os: seq<GlobalOption>, key: string)
    requires Writable(os)
    ensures Proper(Slots(os)) && (Says(Slots(os), GLOBAL, GLOBAL, key) != [] <==> key in Keys(os))
    ensures SectionAfter(Slots(os), GLOBAL) == GLOBAL
  {
    hide GoodKey, CanonicalKey, Proper, Says, SectionAfter, RowOf, EntryLine;
    if os == [] {
      NothingSays(GLOBAL, GLOBAL, key);
      NoRowsProper();
    } else {
      assert os[0] in os && forall o :: o in os <==> o == os[0] || o in os[1..];
      TailWritable(os);
      SlotsSay(os[1..], key);
      SlotReads(os[0]);
      var row := RowOf(EntryLine(os[0].name.text, ""));
      SaysConcat([row], Slots(os[1..]), GLOBAL, GLOBAL, key);
      SectionAfterConcat([row], Slots(os[1..]), GLOBAL);
      SaysOne(row, GLOBAL, GLOBAL, key);
      ProperConcat([row], Slots(os[1..]));
    }
  }

  lemma NoRowsProper()
    ensures Proper([])
  {
  }

  /** The file in which the first option that leaves [global] is set right above the given parameter. */
  lemma StagedFile(o: GlobalOption, os: seq<GlobalOption>, name: string, v: string) returns (conf: string)
    requires Writable(os) && o in os && GoodKey(name) && CanonicalKey(name) !in Keys(os) && Normalize(v) == v && OneLine(v)
    ensures var p := [HEADER, RowOf(EntryLine(o.name.text, "")), RowOf(EntryLine(name, v))];
            Staged(conf, p, os, CanonicalKey(name), v) && v in Reads(conf, GLOBAL, CanonicalKey(name))
  {
    hide GoodKey, CanonicalKey, Proper, Says, SectionAfter, RowOf, EntryLine, Read, Rows, TextOf, Reads, Normalize, OneLine;
    var ro, rk, key := RowOf(EntryLine(o.name.text, "")), RowOf(EntryLine(name, v)), CanonicalKey(name);
    var p := [HEADER, ro, rk];
    ProperThree(o, name, v);
    SlotsSay(os, key);
    ProperConcat(p, Slots(os));
    ProperText(p + Slots(os));
    conf := TextOf(p + Slots(os));
    assert Rows(conf)[..3] == p && Rows(conf)[3..] == Slots(os);
    ThreeSay(HEADER, ro, rk, key);
    SplitReads(conf, p, key);
    forall q | q in os
      ensures Reads(conf, GLOBAL, q.name.canonical) != []
    {
      SlotsSay(os, q.name.canonical);
      SplitReads(conf, p, q.name.canonical);
    }
  }

  lemma ProperThree(o: GlobalOption, name: string, v: string)
    requires GoodKey(o.name.text) && o.name.canonical == CanonicalKey(o.name.text) && GoodKey(name) && Normalize(v) == v && OneLine(v)
    ensures Proper([HEADER, RowOf(EntryLine(o.name.text, "")), RowOf(EntryLine(name, v))])
    ensures RowOf(EntryLine(o.name.text, "")).says == Setting(o.name.canonical, "")
    ensures RowOf(EntryLine(name, v)).says == Setting(CanonicalKey(name), v)
  {
    hide CanonicalKey, Read, Proper, Normalize;
    var ro, rk := RowOf(EntryLine(o.name.text, "")), RowOf(EntryLine(name, v));
    SlotReads(o);
    HeaderReads();
    ProperEntry(HEADER.text);
    EntryLineReads(name, v);
    ProperEntry(EntryLine(name, v)) by { assert OneLine(name); }
    ProperConcat([HEADER], [ro]);
    ProperConcat([HEADER] + [ro], [rk]);
    assert [HEADER] + [ro] + [rk] == [HEADER, ro, rk];
  }

  /** When some tail leaves [global], a file loses a value of any parameter that is not set. */
  lemma MovedOut(os: seq<GlobalOption>, name: string) returns (conf: string)
    requires Writable(os) && GoodKey(name) && CanonicalKey(name) !in Keys(os) && !LeaveOpen(os)
    ensures Reads(SetAll(conf, os).0, GLOBAL, CanonicalKey(name)) != Reads(conf, GLOBAL, CanonicalKey(name))
  {
    hide GoodKey, CanonicalKey, Said, EndsIn, Reads, SetAll, WithSetting, Staged, RowOf, EntryLine, Normalize, Says, SectionAfter;
    var key := CanonicalKey(name);
    var v := Fresh(set o, w | o in os && w in Said(o.value, GLOBAL, key) :: w);
    var i := FirstLeaving(os);
    var pre, o, post := os[..i], os[i], os[i + 1..];
    assert os == pre + ([o] + post) && [o] + post == os[i..];
    conf := StagedFile(o, os, name, v) by { assert GoodKey(v); KeyIsOneLine(v); }
    var p := [HEADER, RowOf(EntryLine(o.name.text, "")), RowOf(EntryLine(name, v))];
    ProperThree(o, name, v) by { KeyIsOneLine(v); }
    PartsWritable(os, i);
    forall q | q in pre
      ensures Says(p, "", GLOBAL, q.name.canonical) == []
    {
      ThreeSay(HEADER, p[1], p[2], q.name.canonical);
    }
    ThreeSay(HEADER, p[1], p[2], key);
    assert pre + os[i..] == os;
    StagedForAll(conf, p, pre, os[i..], key, v);
    var before := SetAll(conf, pre).0;
    StagedFewer(before, p, o, os[i..], key, v);
    EditMoves(before, p[0], p[1], p[2], o, key, v);
    SetOne(before, o);
    SetAllConcat(conf, pre, [o] + post);
    SetAllConcat(before, [o], post);
    AbsentForAll(SetAll(before, [o]).0, post, key, v);
  }

  lemma StagedFewer(conf: string, p: seq<Row>, o: GlobalOption, os: seq<GlobalOption>, key: string, v: string)
    requires Staged(conf, p, os, key, v) && o in os
    ensures Staged(conf, p, [o], key, v)
  {
    hide Rows, Says, Reads;
  }

  lemma FirstLeaving(os: seq<GlobalOption>) returns (i: nat)
    requires !LeaveOpen(os)
    ensures i < |os| && EndsIn(os[i].value) != GLOBAL && LeaveOpen(os[..i])
  {
    hide EndsIn;
    if LeaveOpen(os[..|os| - 1]) {
      i := |os| - 1;
      assert forall o :: o in os ==> o in os[..i] || o == os[i];
    } else {
      i := FirstLeaving(os[..|os| - 1]);
      assert os[..|os| - 1][..i] == os[..i];
    }
  }

  lemma PartsWritable(os: seq<GlobalOption>, i: nat)
    requires i < |os| && Writable(os)
    ensures Writable(os[..i]) && Writable(os[i + 1..])
    ensures forall o :: o in os[..i] ==> o in os && o.name.canonical != os[i].name.canonical
    ensures forall o :: o in os[i + 1..] ==> o in os && o.name.canonical != os[i].name.canonical
    ensures os[i] in os && Keys(os[i + 1..]) <= Keys(os) && Keys(os[..i]) <= Keys(os)
  {
    hide GoodKey, CanonicalKey;
    assert forall j :: 0 <= j < i ==> os[..i][j] == os[j];
    var post := os[i + 1..];
    assert forall j :: 0 <= j < |post| ==> post[j] == os[i + 1 + j];
  }

  // ----- the exact conditions

  predicate Foreign(os: seq<GlobalOption>, section: string, key: string) {
    section != GLOBAL || key !in Keys(os)
  }

  /** The edits keep the list of a parameter in every file. */
  ghost predicate AlwaysKept(os: seq<GlobalOption>, section: string, key: string) {
    forall conf: string :: Reads(SetAll(conf, os).0, section, key) == Reads(conf, section, key)
  }

  lemma ClearIsKept(os: seq<GlobalOption>, section: string, key: string)
    requires Writable(os) && Foreign(os, section, key) && AllClear(os, section, key)
    ensures AlwaysKept(os, section, key)
  {
    hide GoodKey, CanonicalKey, Reads, SetAll, AllClear;
    forall conf: string
      ensures Reads(SetAll(conf, os).0, section, key) == Reads(conf, section, key)
    {
      SetAllReads(conf, os, section, key);
      assert IndexOfOption(os, key) < |os| ==> os[IndexOfOption(os, key)] in os;
    }
  }

  /** The edits keep a parameter of [global] in every file exactly when every tail leaves [global] open and none speaks of it. */
  lemma SetAllSparesIff(os: seq<GlobalOption>, name: string)
    requires Writable(os) && GoodKey(name) && CanonicalKey(name) !in Keys(os)
    ensures AlwaysKept(os, GLOBAL, CanonicalKey(name)) <==> AllClear(os, GLOBAL, CanonicalKey(name))
  {
    hide GoodKey, CanonicalKey, Reads, SetAll, Said, EndsIn;
    var key := CanonicalKey(name);
    if AllClear(os, GLOBAL, key) {
      ClearIsKept(os, GLOBAL, key);
    } else if !LeaveOpen(os) {
      var conf := MovedOut(os, name);
    } else {
      EmptyFile(GLOBAL, key);
      SaidStays("", os, GLOBAL, key);
    }
  }

  predicate AllContained(os: seq<GlobalOption>, keys: set<string>) {
    forall o :: o in os ==> Contained(o.value, keys)
  }

  lemma ContainedClear(os: seq<GlobalOption>, section: string, key: string)
    requires AllContained(os, Keys(os)) && Foreign(os, section, key)
    ensures AllClear(os, section, key)
  {
    hide Said, EndsIn, Tail;
    forall o | o in os
      ensures Clear(o, section, key)
    {
      ContainedIff(o.value, Keys(os));
      assert EndsIn(o.value) == GLOBAL;
    }
  }

  /**
   The edits keep every list but those of the parameters they set, in every
   file, exactly when no tail leaves [global] or sets another parameter.
   */
  lemma SetAllFrameIff(os: seq<GlobalOption>)
    requires Writable(os)
    ensures (forall section, key :: Foreign(os, section, key) ==> AlwaysKept(os, section, key)) <==> AllContained(os, Keys(os))
  {
    hide GoodKey, CanonicalKey, Reads, SetAll, Said, EndsIn, AlwaysKept, Contained;
    if AllContained(os, Keys(os)) {
      forall section, key | Foreign(os, section, key)
        ensures AlwaysKept(os, section, key)
      {
        ContainedClear(os, section, key);
        ClearIsKept(os, section, key);
      }
    } else if !LeaveOpen(os) {
      var name := Fresh(Keys(os));
      SetAllSparesIff(os, name);
    } else {
      var o :| o in os && !Contained(o.value, Keys(os));
      ContainedIff(o.value, Keys(os));
      var e: Entry :| (e.section != GLOBAL || e.key !in Keys(os)) && Said(o.value, e.section, e.key) != [];
      EmptyFile(e.section, e.key);
      SaidStays("", os, e.section, e.key);
      NotKept("", os, e.section, e.key);
    }
  }

  lemma NotKept(conf: string, os: seq<GlobalOption>, section: string, key: string)
    requires Reads(SetAll(conf, os).0, section, key) != Reads(conf, section, key)
    ensures !AlwaysKept(os, section, key)
  {
    hide SetAll, Reads;
  }

  /** One edit, whatever its value: every other list of every section of every file is as it was exactly when the tail is contained. */
  lemma EditFrameIff(key: string, value: string)
    requires GoodKey(key)
    ensures (forall conf, section, other {:trigger Reads(conf, section, other)} ::
               section != GLOBAL || other != CanonicalKey(key) ==>
                 Reads(WithSetting(conf, key, value).0, section, other) == Reads(conf, section, other))
       <==> Contained(value, {CanonicalKey(key)})
  {
    hide GoodKey, CanonicalKey, Reads, SetAll, WithSetting, Contained;
    var o := GlobalOption(NameOf(key), value);
    assert o in [o] && Keys([o]) == {CanonicalKey(key)};
    SetAllFrameIff([o]);
    if Contained(value, {CanonicalKey(key)}) {
      forall conf, section, other | section != GLOBAL || other != CanonicalKey(key)
        ensures Reads(WithSetting(conf, key, value).0, section, other) == Reads(conf, section, other)
      {
        SetOne(conf, o);
        assert Foreign([o], section, other) && AlwaysKept([o], section, other);
      }
    } else {
      var section, other :| Foreign([o], section, other) && !AlwaysKept([o], section, other);
      var conf: string :| Reads(SetAll(conf, [o]).0, section, other) != Reads(conf, section, other);
      SetOne(conf, o);
    }
  }

  /** A parameter that is neither declared nor removed. */
  predicate Undeclared(c: Config, section: string, key: string) {
    section != GLOBAL || (key !in Keys(EffectiveOptions(c)) && key !in Canonicals(Removals(c)))
  }

  lemma BlockContained(c: Config, keys: set<string>)
    requires Loaded(c)
    ensures AllContained(EffectiveOptions(c), keys) <==> AllContained(TLSOptions(c), keys)
  {
    hide Tail, OneLine;
    BlockWritable(c);
    forall o | o in c.options
      ensures Contained(o.value, keys)
    {
      OneLineTail(o.value);
      NothingSays(GLOBAL, GLOBAL, "");
    }
    assert forall o :: o in EffectiveOptions(c) <==> o in TLSOptions(c) || o in c.options;
  }

  /** With TLS material a pass is its edits; without, every declared value is one line. */
  lemma PassKeeps(c: Config, section: string, key: string)
    requires Loaded(c) && Undeclared(c, section, key)
    ensures TLSOptions(c) != [] ==> Foreign(EffectiveOptions(c), section, key)
    ensures TLSOptions(c) != [] ==> forall conf: string :: Pass(conf, c).0 == SetAll(conf, EffectiveOptions(c)).0
    ensures TLSOptions(c) == [] ==> forall conf: string :: Reads(Pass(conf, c).0, section, key) == Reads(conf, section, key)
  {
    hide SetAll, UnsetAll, Reads, Pass, GoodKey, CanonicalKey, OwnerOf;
    forall conf: string | TLSOptions(c) != []
      ensures Pass(conf, c).0 == SetAll(conf, EffectiveOptions(c)).0
    {
      NothingRemoved(conf, c);
    }
    forall conf: string | TLSOptions(c) == []
      ensures Reads(Pass(conf, c).0, section, key) == Reads(conf, section, key)
    {
      OnlyPathsMatter(c, section, key);
      PassReads(conf, c, section, key);
      var os := EffectiveOptions(c);
      assert IndexOfOption(os, key) < |os| ==> os[IndexOfOption(os, key)] in os;
    }
  }

  /**
   A pass keeps every list of every file that it has no business with exactly
   when no TLS path has a further line that leaves [global] or sets a
   parameter that is not declared.
   */
  lemma PassFrameIff(c: Config)
    requires Loaded(c)
    ensures (forall conf, section, key {:trigger Reads(conf, section, key)} ::
               Undeclared(c, section, key) ==> Reads(Pass(conf, c).0, section, key) == Reads(conf, section, key))
       <==> AllContained(TLSOptions(c), Keys(EffectiveOptions(c)))
  {
    hide Reads, SetAll, Pass, Contained, EffectiveOptions, TLSOptions, Canonicals, Undeclared, Foreign;
    var os := EffectiveOptions(c);
    EffectiveWritable(c);
    SetAllFrameIff(os);
    BlockContained(c, Keys(os));
    if AllContained(TLSOptions(c), Keys(os)) {
      forall conf, section, key | Undeclared(c, section, key)
        ensures Reads(Pass(conf, c).0, section, key) == Reads(conf, section, key)
      {
        PassKeeps(c, section, key);
        if TLSOptions(c) != [] { assert AlwaysKept(os, section, key); }
      }
    } else {
      var section, key :| Foreign(os, section, key) && !AlwaysKept(os, section, key);
      var conf: string :| Reads(SetAll(conf, os).0, section, key) != Reads(conf, section, key);
      ForeignUndeclared(c, section, key);
      PassKeeps(c, section, key);
    }
  }

  lemma ForeignUndeclared(c: Config, section: string, key: string)
    requires Foreign(EffectiveOptions(c), section, key) && TLSOptions(c) != []
    ensures Undeclared(c, section, key)
  {
  }

  /**
   A parameter of [global] that is neither declared nor removed keeps its
   values through every pass, over every file, exactly when the TLS paths are
   clear of it.
   */
  lemma PassSparesIff(c: Config, name: string)
    requires Loaded(c) && GoodKey(name) && Undeclared(c, GLOBAL, CanonicalKey(name))
    ensures (forall conf: string :: Reads(Pass(conf, c).0, GLOBAL, CanonicalKey(name)) == Reads(conf, GLOBAL, CanonicalKey(name)))
       <==> AllClear(TLSOptions(c), GLOBAL, CanonicalKey(name))
  {
    hide Reads, SetAll, Pass, GoodKey, CanonicalKey, EffectiveOptions, TLSOptions, Canonicals, AllClear;
    var os, key := EffectiveOptions(c), CanonicalKey(name);
    EffectiveWritable(c);
    OnlyPathsMatter(c, GLOBAL, key);
    PassKeeps(c, GLOBAL, key);
    if TLSOptions(c) != [] {
      SetAllSparesIff(os, name);
    } else {
      assert AllClear([], GLOBAL, key) by { NothingUnclear(GLOBAL, key); }
    }
  }

  lemma NothingUnclear(section: string, key: string)
    ensures AllClear([], section, key)
  {
  }
}
