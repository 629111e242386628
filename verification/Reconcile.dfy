/**
 The reconcile of entrypoint/internal/run/run.go: the declared settings are
 folded into smb.conf, image-owned settings that are no longer wanted are
 taken out, samba's own parser judges the result, and a rejected file is put
 back. samba's parser is an arbitrary oracle, and each write may fail.
 */
module Reconcile {
  import opened Text
  import opened Refusals
  import opened SmbRows
  import opened SmbConf
  import opened LineBreaks
  import opened GlobalOptions

  // ----- one pass over a text

  datatype Notice = SetTo(option: GlobalOption, edit: Edit) | Removed(key: string)

  function SetAll(conf: string, os: seq<GlobalOption>): (string, seq<Notice>)
    decreases |os|
  {
    hide WithSetting;
    if os == [] then (conf, [])
    else
      var (updated, edit) := WithSetting(conf, os[0].name.text, os[0].value);
      var (rest, notices) := SetAll(updated, os[1..]);
      (rest, (if edit == Unchanged then [] else [SetTo(os[0], edit)]) + notices)
  }

  function UnsetAll(conf: string, keys: seq<string>): (string, seq<Notice>)
    decreases |keys|
  {
    hide WithoutSetting;
    if keys == [] then (conf, [])
    else
      var (updated, removed) := WithoutSetting(conf, keys[0]);
      var (rest, notices) := UnsetAll(updated, keys[1..]);
      (rest, (if removed then [Removed(keys[0])] else []) + notices)
  }

  function Removals(c: Config): seq<string> {
    if TLSOptions(c) == [] then TLSKeys() else []
  }

  /** The text a reconcile aims for, and what it announces. */
  function Pass(conf: string, c: Config): (string, seq<Notice>) {
    var (edited, announced) := SetAll(conf, EffectiveOptions(c));
    var (unset, removed) := UnsetAll(edited, Removals(c));
    (unset, announced + removed)
  }

  // ----- the transaction

  /** What the world does to one reconcile: the verdict of testparm on a text, and whether the writes succeed. */
  datatype World = World(accepts: string -> bool, canWrite: bool, canRestore: bool)

  function Check(conf: string, w: World): Outcome {
    if w.accepts(conf) then Proceed else Refuse(ConfigError)
  }

  /** The file, the outcome and the announcements of one reconcile of a file (None: it cannot be read). */
  function ReconcileFile(file: Option<string>, c: Config, generated: bool, w: World): (Option<string>, Outcome, seq<Notice>) {
    match file
    case None => (None, if EffectiveOptions(c) == [] then Proceed else Refuse(RuntimeFailure), [])
    case Some(original) =>
      var (conf, notices) := Pass(original, c);
      if notices == [] then (file, if generated then Check(original, w) else Proceed, [])
      else if !w.canWrite then (file, Refuse(RuntimeFailure), [])
      else if w.accepts(conf) then (Some(conf), Proceed, notices)
      else (if w.canRestore then file else Some(conf), Refuse(ConfigError), [])
  }

  method ApplyOptions(original: string, options: seq<GlobalOption>) returns (conf: string, notices: seq<Notice>)
    ensures (conf, notices) == SetAll(original, options)
  {
    hide WithSetting;
    conf, notices := original, [];
    assert options[0..] == options;
    for i := 0 to |options|
      invariant SetAll(original, options).0 == SetAll(conf, options[i..]).0
      invariant SetAll(original, options).1 == notices + SetAll(conf, options[i..]).1
    {
      SetAllStep(conf, options, i);
      var updated, edit := WithGlobalSetting(conf, options[i].name.text, options[i].value);
      if edit != Unchanged {
        notices := notices + [SetTo(options[i], edit)];
      }
      conf := updated;
    }
    assert options[|options|..] == [] && notices + [] == notices;
  }

  method RemoveOptions(original: string, keys: seq<string>) returns (conf: string, notices: seq<Notice>)
    ensures (conf, notices) == UnsetAll(original, keys)
  {
    hide WithoutSetting;
    conf, notices := original, [];
    assert keys[0..] == keys;
    for i := 0 to |keys|
      invariant UnsetAll(original, keys).0 == UnsetAll(conf, keys[i..]).0
      invariant UnsetAll(original, keys).1 == notices + UnsetAll(conf, keys[i..]).1
    {
      UnsetAllStep(conf, keys, i);
      var updated, gone := WithoutGlobalSetting(conf, keys[i]);
      if gone {
        notices := notices + [Removed(keys[i])];
      }
      conf := updated;
    }
    assert keys[|keys|..] == [] && notices + [] == notices;
  }

  class ConfVolume {
    var smbConf: Option<string>
    var log: seq<Notice>

    constructor (file: Option<string>)
      ensures smbConf == file && log == []
    {
      smbConf, log := file, [];
    }

    method EnsureGlobalOptions(c: Config, generated: bool, w: World) returns (r: Outcome)
      modifies this
      ensures (smbConf, r) == (ReconcileFile(old(smbConf), c, generated, w).0, ReconcileFile(old(smbConf), c, generated, w).1)
      ensures log == old(log) + ReconcileFile(old(smbConf), c, generated, w).2
    {
      hide SetAll, UnsetAll, EffectiveOptions, Removals;
      if smbConf.None? {
        return if EffectiveOptions(c) == [] then Proceed else Refuse(RuntimeFailure);
      }
      var original := smbConf.value;
      var conf, announced := ApplyOptions(original, EffectiveOptions(c));
      var removed: seq<Notice>;
      conf, removed := RemoveOptions(conf, Removals(c));
      if announced + removed == [] {
        return if generated then Check(original, w) else Proceed;
      }
      if !w.canWrite {
        return Refuse(RuntimeFailure);
      }
      smbConf := Some(conf);
      if !w.accepts(conf) {
        if w.canRestore {
          smbConf := Some(original);
        }
        return Refuse(ConfigError);
      }
      log := log + (announced + removed);
      return Proceed;
    }

    /** The settings a join cannot pass to samba-tool, forced into the file the join wrote. */
    method EnsureJoinedConf(settings: seq<GlobalOption>, canWrite: bool) returns (r: Outcome)
      modifies this
      ensures log == old(log)
      ensures (smbConf, r) == JoinConf(old(smbConf), settings, canWrite)
    {
      hide SetAll;
      if smbConf.None? {
        return Refuse(RuntimeFailure);
      }
      var conf, announced := ApplyOptions(smbConf.value, settings);
      if announced == [] {
        return Proceed;
      }
      if !canWrite {
        return Refuse(RuntimeFailure);
      }
      smbConf := Some(conf);
      return Proceed;
    }
  }

  function JoinConf(file: Option<string>, settings: seq<GlobalOption>, canWrite: bool): (Option<string>, Outcome) {
    match file
    case None => (None, Refuse(RuntimeFailure))
    case Some(original) =>
      var (conf, announced) := SetAll(original, settings);
      if announced == [] then (file, Proceed)
      else if !canWrite then (file, Refuse(RuntimeFailure))
      else (Some(conf), Proceed)
  }

  lemma SetAllStep(conf: string, os: seq<GlobalOption>, i: nat)
    requires i < |os|
    ensures var (updated, edit) := WithSetting(conf, os[i].name.text, os[i].value);
            SetAll(conf, os[i..])
            == (SetAll(updated, os[i + 1..]).0,
                (if edit == Unchanged then [] else [SetTo(os[i], edit)]) + SetAll(updated, os[i + 1..]).1)
  {
    hide WithSetting, Reads, OtherLines, GoodKey, CanonicalKey, Frame, Normalize;
    assert os[i..][0] == os[i] && os[i..][1..] == os[i + 1..];
  }

  lemma UnsetAllStep(conf: string, keys: seq<string>, i: nat)
    requires i < |keys|
    ensures var (updated, removed) := WithoutSetting(conf, keys[i]);
            UnsetAll(conf, keys[i..])
            == (UnsetAll(updated, keys[i + 1..]).0,
                (if removed then [Removed(keys[i])] else []) + UnsetAll(updated, keys[i + 1..]).1)
  {
    hide WithoutSetting, Reads, OtherLines, CanonicalKey;
    assert keys[i..][0] == keys[i] && keys[i..][1..] == keys[i + 1..];
  }

  // ----- what a pass does

  predicate OneLineValues(os: seq<GlobalOption>) {
    forall o :: o in os ==> OneLine(o.value)
  }

  lemma TailWritable(os: seq<GlobalOption>)
    requires os != [] && Writable(os)
    ensures Writable(os[1..])
    ensures forall i :: 0 <= i < |os[1..]| ==> os[1..][i].name.canonical != os[0].name.canonical
  {
    assert forall i :: 0 <= i < |os[1..]| ==> os[1..][i] == os[i + 1];
  }

  /**
   Setting this option leaves [global] open and says nothing of the given
   parameter, unless it is the option's own. An option of one line is clear of
   every parameter.
   */
  predicate Clear(o: GlobalOption, section: string, key: string) {
    && EndsIn(o.value) == GLOBAL
    && ((section == GLOBAL && key == o.name.canonical) || Said(o.value, section, key) == [])
  }

  predicate AllClear(os: seq<GlobalOption>, section: string, key: string) {
    forall o :: o in os ==> Clear(o, section, key)
  }

  lemma OneLineClear(os: seq<GlobalOption>, section: string, key: string)
    requires OneLineValues(os)
    ensures AllClear(os, section, key) && forall o :: o in os ==> FirstLine(o.value) == o.value
  {
    hide Said, EndsIn, FirstLine, OneLine;
    forall o | o in os
      ensures Clear(o, section, key) && FirstLine(o.value) == o.value
    {
      OneLineSays(o.value, section, key);
    }
  }

  /** What an option makes of its own list: the value's first line, then whatever its tail says of the parameter. */
  function Written(o: GlobalOption): (vs: seq<string>)
    ensures vs != [] && vs[0] == Normalize(FirstLine(o.value))
  {
    [Normalize(FirstLine(o.value))] + Said(o.value, GLOBAL, o.name.canonical)
  }

  lemma WrittenOneLine(o: GlobalOption)
    requires OneLine(o.value)
    ensures Written(o) == [Normalize(o.value)]
  {
    hide Said, EndsIn, FirstLine, OneLine, Normalize;
    OneLineSays(o.value, GLOBAL, o.name.canonical);
  }

  /** Setting every option: each one's first occurrence reads its first line, every list that they are clear of is as it was. */
  lemma {:induction false} SetAllReads(conf: string, os: seq<GlobalOption>, section: string, key: string)
    requires Writable(os) && AllClear(os, section, key)
    ensures var vs := Reads(conf, section, key); var n := IndexOfOption(os, key);
            Reads(SetAll(conf, os).0, section, key)
            == if section == GLOBAL && n < |os| then Written(os[n]) + (if vs == [] then [] else vs[1..]) else vs
    decreases |os|
  {
    hide WithSetting, Reads, OtherLines, GoodKey, CanonicalKey, Frame, Normalize, Said, EndsIn, FirstLine;
    if os != [] {
      var o := os[0];
      assert o in os;
      TailWritable(os);
      var updated := WithSetting(conf, o.name.text, o.value).0;
      SetReads(conf, o.name.text, o.value, section, key);
      SetAllReads(updated, os[1..], section, key);
      if o.name.canonical == key { assert IndexOfOption(os[1..], key) == |os[1..]|; }
    }
  }

  /** Nothing is announced exactly when every option's first occurrence already reads its value. */
  lemma {:induction false} SetAllQuietIff(conf: string, os: seq<GlobalOption>)
    requires Writable(os)
    ensures SetAll(conf, os).1 == [] <==> forall o :: o in os ==>
              Reads(conf, GLOBAL, o.name.canonical) != [] && Reads(conf, GLOBAL, o.name.canonical)[0] == o.value
    ensures SetAll(conf, os).1 == [] ==> SetAll(conf, os).0 == conf
    decreases |os|
  {
    hide WithSetting, Reads, OtherLines, GoodKey, CanonicalKey, Frame, Normalize;
    if os != [] {
      assert os[0] in os;
      TailWritable(os);
      UnchangedIff(conf, os[0].name.text, os[0].value);
      if WithSetting(conf, os[0].name.text, os[0].value).1 == Unchanged {
        SetAllQuietIff(conf, os[1..]);
        assert forall o :: o in os <==> o == os[0] || o in os[1..];
      }
    }
  }

  /** What a file has to have announced to say the options: each that its first occurrence does not read, in order. */
  function Missing(conf: string, os: seq<GlobalOption>): seq<Notice> {
    if os == [] then []
    else
      var vs := Reads(conf, GLOBAL, os[0].name.canonical);
      (if vs == [] then [SetTo(os[0], Added)] else if vs[0] != os[0].value then [SetTo(os[0], Replaced)] else [])
      + Missing(conf, os[1..])
  }

  predicate MutuallyClear(os: seq<GlobalOption>) {
    forall o, p :: o in os && p in os ==> Clear(o, GLOBAL, p.name.canonical)
  }

  lemma {:induction false} SameMissing(conf: string, other: string, os: seq<GlobalOption>)
    requires forall o :: o in os ==> Reads(conf, GLOBAL, o.name.canonical) == Reads(other, GLOBAL, o.name.canonical)
    ensures Missing(conf, os) == Missing(other, os)
  {
    hide Reads;
    if os != [] { SameMissing(conf, other, os[1..]); }
  }

  /** The edits announce exactly what was missing, in the order of the options. */
  lemma {:induction false} AnnouncesMissing(conf: string, os: seq<GlobalOption>)
    requires Writable(os) && MutuallyClear(os)
    ensures SetAll(conf, os).1 == Missing(conf, os)
    decreases |os|
  {
    hide WithSetting, Reads, GoodKey, CanonicalKey, Said, EndsIn;
    if os != [] {
      var o := os[0];
      assert o in os && forall p :: p in os[1..] ==> p in os;
      TailWritable(os);
      EditKind(conf, o.name.text, o.value);
      var updated := WithSetting(conf, o.name.text, o.value).0;
      forall p | p in os[1..]
        ensures Reads(conf, GLOBAL, p.name.canonical) == Reads(updated, GLOBAL, p.name.canonical)
      {
        assert Clear(o, GLOBAL, p.name.canonical);
        SetReads(conf, o.name.text, o.value, GLOBAL, p.name.canonical);
      }
      SameMissing(conf, updated, os[1..]);
      AnnouncesMissing(updated, os[1..]);
    }
  }

  lemma FrameOfGlobal(conf: string, keys: set<string>)
    ensures HasGlobal(conf) ==> Strip(Frame(conf), "", keys) == OtherLines(conf, keys)
  {
  }

  predicate Names(os: seq<GlobalOption>, keys: set<string>) {
    forall o :: o in os ==> o.name.canonical in keys
  }

  predicate AllInert(os: seq<GlobalOption>, keys: set<string>) {
    forall o :: o in os ==> Inert(o.value, keys)
  }

  /** The rows that edits of the options start from. */
  function Kept(conf: string, os: seq<GlobalOption>, keys: set<string>): seq<Row> {
    if os == [] then OtherLines(conf, keys) else Strip(Frame(conf), "", keys)
  }

  /**
   Whatever the values: every line that sets none of the options stays, in
   order, and nothing is added to those lines exactly when all tails are inert.
   */
  lemma {:induction false} SetAllKeepsRows(conf: string, os: seq<GlobalOption>, keys: set<string>)
    requires Writable(os) && Names(os, keys)
    ensures Within(Kept(conf, os, keys), OtherLines(SetAll(conf, os).0, keys))
    ensures OtherLines(SetAll(conf, os).0, keys) == Kept(conf, os, keys) <==> AllInert(os, keys)
    decreases |os|
  {
    hide WithSetting, OtherLines, GoodKey, CanonicalKey, Frame, Within, Inert;
    if os == [] {
      WithinItself(OtherLines(conf, keys));
    } else {
      var o := os[0];
      assert o in os && forall p :: p in os <==> p == o || p in os[1..];
      TailWritable(os);
      var updated := WithSetting(conf, o.name.text, o.value).0;
      var base, first, last := Strip(Frame(conf), "", keys), OtherLines(updated, keys), OtherLines(SetAll(updated, os[1..]).0, keys);
      SetKeepsRows(conf, o.name.text, o.value, keys);
      SetAllKeepsRows(updated, os[1..], keys);
      FrameOfGlobal(updated, keys);
      WithinTrans(base, first, last);
      WithinLength(base, first);
      WithinLength(first, last);
    }
  }

  function Canonicals(keys: seq<string>): set<string> {
    set i | 0 <= i < |keys| :: CanonicalKey(keys[i])
  }

  lemma {:induction false} UnsetAllReads(conf: string, keys: seq<string>, section: string, key: string)
    ensures Reads(UnsetAll(conf, keys).0, section, key)
         == if section == GLOBAL && key in Canonicals(keys) then [] else Reads(conf, section, key)
    decreases |keys|
  {
    hide WithoutSetting, Reads, OtherLines, CanonicalKey;
    if keys != [] {
      WithoutSettingReads(conf, keys[0], section, key);
      UnsetAllReads(WithoutSetting(conf, keys[0]).0, keys[1..], section, key);
      CanonicalsCons(keys);
    }
  }

  lemma CanonicalsCons(keys: seq<string>)
    requires keys != []
    ensures Canonicals(keys) == {CanonicalKey(keys[0])} + Canonicals(keys[1..])
  {
    assert forall i :: 0 <= i < |keys[1..]| ==> keys[1..][i] == keys[i + 1];
    forall k | k in Canonicals(keys)
      ensures k in {CanonicalKey(keys[0])} + Canonicals(keys[1..])
    {
      var i :| 0 <= i < |keys| && k == CanonicalKey(keys[i]);
      if i > 0 { assert keys[1..][i - 1] == keys[i]; }
    }
  }

  lemma {:induction false} UnsetAllQuietIff(conf: string, keys: seq<string>)
    ensures UnsetAll(conf, keys).1 == [] <==> forall k :: k in Canonicals(keys) ==> Reads(conf, GLOBAL, k) == []
    ensures UnsetAll(conf, keys).1 == [] ==> UnsetAll(conf, keys).0 == conf
    decreases |keys|
  {
    hide WithoutSetting, Reads, OtherLines, CanonicalKey;
    if keys != [] {
      CanonicalsCons(keys);
      RemovedIff(conf, keys[0]);
      if !WithoutSetting(conf, keys[0]).1 {
        UnsetAllQuietIff(conf, keys[1..]);
      }
    }
  }

  lemma {:induction false} UnsetAllKeepsText(conf: string, names: seq<string>, keys: set<string>)
    requires Canonicals(names) <= keys
    ensures OtherLines(UnsetAll(conf, names).0, keys) == OtherLines(conf, keys)
    decreases |names|
  {
    hide WithoutSetting, Reads, OtherLines, CanonicalKey;
    if names != [] {
      CanonicalsCons(names);
      WithoutSettingKeepsText(conf, names[0], keys);
      UnsetAllKeepsText(WithoutSetting(conf, names[0]).0, names[1..], keys);
    }
  }

  /** The removals are parameters nobody declared: with TLS material there are none. */
  lemma RemovalsDisjoint(c: Config)
    requires Loaded(c)
    ensures forall o :: o in EffectiveOptions(c) ==> o.name.canonical !in Canonicals(Removals(c))
  {
    hide CanonicalKey, GoodKey, OwnerOf;
    EffectiveWritable(c);
    forall o | o in EffectiveOptions(c)
      ensures o.name.canonical !in Canonicals(Removals(c))
    {
      if Removals(c) != [] && o.name.canonical in Canonicals(TLSKeys()) {
        assert o in c.options;
        var i :| 0 <= i < 3 && o.name.canonical == CanonicalKey(TLSKeys()[i]);
        TLSOwned(TLSKeys()[i]);
      }
    }
  }

  /** Every setting of a declared block is one line: only a TLS path can say more than its own parameter. */
  lemma OnlyPathsMatter(c: Config, section: string, key: string)
    requires Loaded(c)
    ensures AllClear(EffectiveOptions(c), section, key) <==> AllClear(TLSOptions(c), section, key)
    ensures OneLineValues(EffectiveOptions(c)) <==> OneLineValues(TLSOptions(c))
  {
    hide Said, EndsIn, OneLine, Normalize, CanonicalKey, GoodKey, OwnerOf, KeyChars;
    LoadedOptions(c);
    forall o | o in c.options
      ensures OneLine(o.value)
    {
      assert Tidy(o);
    }
    OneLineClear(c.options, section, key);
    assert forall o :: o in EffectiveOptions(c) <==> o in TLSOptions(c) || o in c.options;
  }

  /**
   One pass over any text: the first occurrence of every declared parameter
   reads its value's first line, every removed parameter is gone, and every
   other parameter that the declared values are clear of, of any section,
   keeps its list of values.
   */
  lemma PassReads(conf: string, c: Config, section: string, key: string)
    requires Loaded(c) && AllClear(EffectiveOptions(c), section, key)
    ensures var os := EffectiveOptions(c); var n, vs := IndexOfOption(os, key), Reads(conf, section, key);
            Reads(Pass(conf, c).0, section, key)
            == if section == GLOBAL && n < |os| then Written(os[n]) + (if vs == [] then [] else vs[1..])
               else if section == GLOBAL && key in Canonicals(Removals(c)) then []
               else vs
  {
    hide WithSetting, WithoutSetting, SetAll, UnsetAll, Reads, OtherLines, CanonicalKey, GoodKey, OwnerOf, Frame, Canonicals, AllClear, Written;
    EffectiveWritable(c);
    RemovalsDisjoint(c);
    var os := EffectiveOptions(c);
    var n := IndexOfOption(os, key);
    if n < |os| { assert os[n] in os; }
    SetAllReads(conf, os, section, key);
    UnsetAllReads(SetAll(conf, os).0, Removals(c), section, key);
  }

  /** Values of one line: the list of a declared parameter has its value in front and is otherwise as it was. */
  lemma PassReadsOneLine(conf: string, c: Config, section: string, key: string)
    requires Loaded(c) && OneLineValues(EffectiveOptions(c))
    ensures var os := EffectiveOptions(c); var n, vs := IndexOfOption(os, key), Reads(conf, section, key);
            Reads(Pass(conf, c).0, section, key)
            == if section == GLOBAL && n < |os| then [Normalize(os[n].value)] + (if vs == [] then [] else vs[1..])
               else if section == GLOBAL && key in Canonicals(Removals(c)) then []
               else vs
  {
    hide Pass, Reads, EffectiveOptions, Canonicals, OneLine, Normalize, Written;
    var os := EffectiveOptions(c);
    OneLineClear(os, section, key);
    PassReads(conf, c, section, key);
    var n := IndexOfOption(os, key);
    if n < |os| {
      assert os[n] in os;
      WrittenOneLine(os[n]);
    }
  }

  /**
   Whatever the declared values: every line that sets no declared and no
   removed parameter stays, in order, byte for byte. Nothing is added to these
   lines exactly when the tails of the TLS paths are inert.
   */
  lemma PassKeepsText(conf: string, c: Config, keys: set<string>)
    requires Loaded(c) && Names(EffectiveOptions(c), keys) && Canonicals(Removals(c)) <= keys
    ensures Within(Kept(conf, EffectiveOptions(c), keys), OtherLines(Pass(conf, c).0, keys))
    ensures OtherLines(Pass(conf, c).0, keys) == Kept(conf, EffectiveOptions(c), keys) <==> AllInert(TLSOptions(c), keys)
  {
    hide WithSetting, WithoutSetting, SetAll, UnsetAll, OtherLines, CanonicalKey, GoodKey, OwnerOf, Frame, Canonicals, Within, Kept, AllInert, TLSOptions, Names;
    EffectiveWritable(c);
    SetAllKeepsRows(conf, EffectiveOptions(c), keys);
    UnsetAllKeepsText(SetAll(conf, EffectiveOptions(c)).0, Removals(c), keys);
    BlockInert(c, keys);
  }

  lemma BlockInert(c: Config, keys: set<string>)
    requires Loaded(c)
    ensures AllInert(EffectiveOptions(c), keys) <==> AllInert(TLSOptions(c), keys)
  {
    hide Tail, OneLine, Normalize, CanonicalKey, GoodKey, OwnerOf, KeyChars;
    LoadedOptions(c);
    forall o | o in c.options
      ensures Inert(o.value, keys)
    {
      assert Tidy(o);
      OneLineTail(o.value);
    }
    assert forall o :: o in EffectiveOptions(c) <==> o in TLSOptions(c) || o in c.options;
  }

  /** What a file has to lose: each key that [global] has a value for, in order. */
  function Unwanted(conf: string, keys: seq<string>): seq<Notice> {
    if keys == [] then []
    else (if Reads(conf, GLOBAL, CanonicalKey(keys[0])) != [] then [Removed(keys[0])] else []) + Unwanted(conf, keys[1..])
  }

  lemma {:induction false} SameUnwanted(conf: string, other: string, keys: seq<string>)
    requires forall i :: 0 <= i < |keys| ==> Reads(conf, GLOBAL, CanonicalKey(keys[i])) == Reads(other, GLOBAL, CanonicalKey(keys[i]))
    ensures Unwanted(conf, keys) == Unwanted(other, keys)
  {
    hide Reads, CanonicalKey;
    if keys != [] {
      assert forall i :: 0 <= i < |keys[1..]| ==> keys[1..][i] == keys[i + 1];
      SameUnwanted(conf, other, keys[1..]);
    }
  }

  lemma {:induction false} AnnouncesUnwanted(conf: string, keys: seq<string>)
    requires forall i, j :: 0 <= i < j < |keys| ==> CanonicalKey(keys[i]) != CanonicalKey(keys[j])
    ensures UnsetAll(conf, keys).1 == Unwanted(conf, keys)
    decreases |keys|
  {
    hide WithoutSetting, Reads, CanonicalKey;
    if keys != [] {
      RemovedIff(conf, keys[0]);
      var updated := WithoutSetting(conf, keys[0]).0;
      assert forall i :: 0 <= i < |keys[1..]| ==> keys[1..][i] == keys[i + 1];
      forall i | 0 <= i < |keys[1..]|
        ensures Reads(conf, GLOBAL, CanonicalKey(keys[1..][i])) == Reads(updated, GLOBAL, CanonicalKey(keys[1..][i]))
      {
        WithoutSettingReads(conf, keys[0], GLOBAL, CanonicalKey(keys[1..][i]));
      }
      SameUnwanted(conf, updated, keys[1..]);
      AnnouncesUnwanted(updated, keys[1..]);
    }
  }

  lemma RemovalsDiffer(c: Config)
    ensures forall i, j :: 0 <= i < j < |Removals(c)| ==> CanonicalKey(Removals(c)[i]) != CanonicalKey(Removals(c)[j])
  {
    hide CanonicalKey;
    TLSNames(TLS_CERT);
    TLSNames(TLS_KEY);
    TLSNames(TLS_CA);
  }

  /**
   What a reconcile announces, from what the file said before: the declared
   parameters whose first occurrence did not read the declared value, as added
   or replaced, in the order of declaration, and then the TLS parameters that
   are no longer wanted and that [global] had a value for.
   */
  lemma PassAnnounces(conf: string, c: Config)
    requires Loaded(c) && MutuallyClear(EffectiveOptions(c))
    ensures Pass(conf, c).1 == Missing(conf, EffectiveOptions(c)) + Unwanted(conf, if c.tlsCert == "" then TLSKeys() else [])
  {
    hide Reads, CanonicalKey, GoodKey, OwnerOf, SetAll, UnsetAll, Missing, Unwanted, MutuallyClear;
    var os, edited := EffectiveOptions(c), SetAll(conf, EffectiveOptions(c)).0;
    EffectiveWritable(c);
    RemovalsDiffer(c);
    AnnouncesMissing(conf, os);
    AnnouncesUnwanted(edited, Removals(c));
    assert Removals(c) == if c.tlsCert == "" then TLSKeys() else [];
    if c.tlsCert == "" {
      forall i | 0 <= i < |TLSKeys()|
        ensures Reads(conf, GLOBAL, CanonicalKey(TLSKeys()[i])) == Reads(edited, GLOBAL, CanonicalKey(TLSKeys()[i]))
      {
        RemovalsDisjoint(c);
        assert CanonicalKey(TLSKeys()[i]) in Canonicals(Removals(c));
        NotAnOption(os, CanonicalKey(TLSKeys()[i]), Canonicals(Removals(c)));
        OnlyPathsMatter(c, GLOBAL, CanonicalKey(TLSKeys()[i]));
        SetAllReads(conf, os, GLOBAL, CanonicalKey(TLSKeys()[i]));
      }
      SameUnwanted(conf, edited, TLSKeys());
    } else {
      NothingUnwanted(conf, edited);
    }
  }

  lemma NothingUnwanted(conf: string, other: string)
    ensures Unwanted(conf, []) == Unwanted(other, [])
  {
  }

  /** A pass is silent exactly when the file already says what is declared. */
  lemma PassQuietIff(conf: string, c: Config)
    requires Loaded(c)
    ensures Pass(conf, c).1 == []
       <==> && (forall o :: o in EffectiveOptions(c) ==>
                  var vs := Reads(conf, GLOBAL, o.name.canonical); vs != [] && vs[0] == o.value)
            && (forall k :: k in Canonicals(Removals(c)) ==> Reads(conf, GLOBAL, k) == [])
    ensures Pass(conf, c).1 == [] ==> Pass(conf, c).0 == conf
  {
    hide WithSetting, WithoutSetting, SetAll, UnsetAll, Reads, OtherLines, CanonicalKey, GoodKey, OwnerOf, Frame, Normalize, Canonicals;
    EffectiveWritable(c);
    SetAllQuietIff(conf, EffectiveOptions(c));
    var updated := SetAll(conf, EffectiveOptions(c)).0;
    UnsetAllQuietIff(updated, Removals(c));
    var a, b := SetAll(conf, EffectiveOptions(c)).1, UnsetAll(updated, Removals(c)).1;
    assert |a + b| == |a| + |b|;
  }

  /**
   The second pass over any file is silent exactly when the three TLS paths
   carry no white space to collapse. The loader trims them but does not
   normalise them, so a path with two spaces in a row is rewritten on every
   start; every setting of the declared block is stable.
   */
  lemma SecondPassQuietIff(conf: string, c: Config)
    requires Loaded(c)
    ensures Pass(Pass(conf, c).0, c).1 == [] <==> forall o :: o in TLSOptions(c) ==> Normalize(o.value) == o.value
  {
    hide WithSetting, WithoutSetting, SetAll, UnsetAll, Reads, OtherLines, CanonicalKey, GoodKey, OwnerOf, Frame, Normalize, Canonicals;
    var once := Pass(conf, c).0;
    PassQuietIff(once, c);
    LoadedOptions(c);
    EffectiveWritable(c);
    var os := EffectiveOptions(c);
    if forall o :: o in TLSOptions(c) ==> Normalize(o.value) == o.value {
      NormalValues(c);
      forall o | o in os
        ensures var vs := Reads(once, GLOBAL, o.name.canonical); vs != [] && vs[0] == o.value
      {
        PassReadsOneLine(conf, c, GLOBAL, o.name.canonical);
        OptionFound(os, o);
      }
      RemovalsDisjoint(c);
      forall k | k in Canonicals(Removals(c))
        ensures Reads(once, GLOBAL, k) == []
      {
        PassReadsOneLine(conf, c, GLOBAL, k);
        NotAnOption(os, k, Canonicals(Removals(c)));
      }
    } else {
      var o :| o in TLSOptions(c) && Normalize(o.value) != o.value;
      ReadsAreNormal(once, GLOBAL, o.name.canonical);
      assert o in os;
    }
  }

  lemma OptionFound(os: seq<GlobalOption>, o: GlobalOption)
    requires Distinct(os) && o in os
    ensures var n := IndexOfOption(os, o.name.canonical); n < |os| && os[n] == o
  {
    var i :| 0 <= i < |os| && os[i] == o;
    var n := IndexOfOption(os, o.name.canonical);
  }

  lemma NotAnOption(os: seq<GlobalOption>, key: string, keys: set<string>)
    requires key in keys && forall o :: o in os ==> o.name.canonical !in keys
    ensures IndexOfOption(os, key) == |os|
  {
  }

  lemma NormalValues(c: Config)
    requires Loaded(c) && forall o :: o in TLSOptions(c) ==> Normalize(o.value) == o.value
    ensures forall o :: o in EffectiveOptions(c) ==> Normalize(o.value) == o.value
    ensures OneLineValues(EffectiveOptions(c))
  {
    LoadedOptions(c);
    forall o | o in EffectiveOptions(c)
      ensures Normalize(o.value) == o.value && OneLine(o.value)
    {
      if o in c.options { assert Tidy(o); }
      NormalizeIdempotent(o.value);
    }
  }

  // ----- the gate

  /**
   A refusal leaves the file as it was unless the restoring write itself
   failed, and only then is the rejected text still there; daemons start on
   a file that this start left alone or that samba accepts.
   */
  lemma Transactional(file: Option<string>, c: Config, generated: bool, w: World)
    ensures var (after, r, notices) := ReconcileFile(file, c, generated, w);
            && (r.Refuse? && after != file ==>
                  && file.Some? && !w.canRestore && w.canWrite
                  && after == Some(Pass(file.value, c).0) && !w.accepts(after.value))
            && (r.Proceed? ==> after == file || (after.Some? && w.accepts(after.value)))
            && (r.Proceed? && generated && file.Some? ==> w.accepts(after.value))
            && (r.Proceed? && file.Some? ==> after == Some(Pass(file.value, c).0) || (notices == [] && after == file))
            && (r.Refuse? ==> notices == [])
  {
    hide Pass, EffectiveOptions;
  }

  lemma {:induction false} QuietSets(conf: string, os: seq<GlobalOption>)
    requires SetAll(conf, os).1 == []
    ensures SetAll(conf, os).0 == conf
    decreases |os|
  {
    hide WithSetting, Reads, CanonicalKey;
    if os != [] {
      UnchangedIff(conf, os[0].name.text, os[0].value);
      assert WithSetting(conf, os[0].name.text, os[0].value).1 == Unchanged;
      QuietSets(conf, os[1..]);
    }
  }

  /** A pass that announces nothing changes nothing. */
  lemma QuietPass(conf: string, c: Config)
    requires Pass(conf, c).1 == []
    ensures Pass(conf, c).0 == conf
  {
    hide SetAll, UnsetAll, EffectiveOptions, Removals, CanonicalKey, Reads;
    var (edited, announced) := SetAll(conf, EffectiveOptions(c));
    var removed := UnsetAll(edited, Removals(c)).1;
    assert |announced + removed| == |announced| + |removed|;
    QuietSets(conf, EffectiveOptions(c));
    UnsetAllQuietIff(edited, Removals(c));
  }

  /**
   When a reconcile of a file goes on, and what it then leaves and announces:
   the text it aims for. A file that already says everything is judged only
   when it was just generated; any other is to be written and accepted. A
   write that fails is a runtime failure, and nothing else is.
   */
  lemma ProceedsIff(original: string, c: Config, generated: bool, w: World)
    ensures var (after, r, log) := ReconcileFile(Some(original), c, generated, w);
            var (aim, notices) := Pass(original, c);
            && (r.Proceed? <==> if notices == [] then generated ==> w.accepts(original) else w.canWrite && w.accepts(aim))
            && (r.Proceed? ==> after == Some(aim) && log == notices)
            && (r == Refuse(RuntimeFailure) <==> notices != [] && !w.canWrite)
            && (r.Refuse? && r != Refuse(RuntimeFailure) ==> r == Refuse(ConfigError))
            && (r.Refuse? ==> log == [] && after in {Some(original), Some(aim)})
            && (r.Refuse? && after != Some(original) ==> w.canWrite && !w.canRestore && !w.accepts(aim))
  {
    hide Pass;
    if Pass(original, c).1 == [] { QuietPass(original, c); }
  }

  /** A volume without smb.conf: nothing to declare is fine, anything else cannot be put anywhere. */
  lemma NoFileIff(c: Config, generated: bool, w: World)
    requires Loaded(c)
    ensures var (after, r, log) := ReconcileFile(None, c, generated, w);
            && after == None && log == []
            && r == if c.tlsCert == "" && c.options == [] then Proceed else Refuse(RuntimeFailure)
  {
    assert c.tlsCert == "" <==> TLSOptions(c) == [];
    assert |EffectiveOptions(c)| == |TLSOptions(c)| + |c.options|;
  }

  /**
   Declarations that samba accepts take effect: when the write succeeds and
   the resulting text is accepted, the start goes on and every declared
   parameter that no other tail speaks of reads its value's first line.
   */
  lemma AcceptedTakesEffect(original: string, c: Config, generated: bool, w: World, o: GlobalOption)
    requires Loaded(c) && o in EffectiveOptions(c) && AllClear(EffectiveOptions(c), GLOBAL, o.name.canonical)
    requires w.canWrite && w.accepts(Pass(original, c).0)
    ensures var (after, r, _) := ReconcileFile(Some(original), c, generated, w);
            && r == Proceed && after.Some?
            && var vs := Reads(after.value, GLOBAL, o.name.canonical); vs != [] && vs[0] == Normalize(FirstLine(o.value))
  {
    hide Pass, EffectiveOptions, Reads, CanonicalKey, GoodKey, Normalize, AllClear, FirstLine, Written, ReconcileFile, Loaded;
    ProceedsIff(original, c, generated, w);
    if Pass(original, c).1 == [] { QuietPass(original, c); }
    ProceedIsReconciled(original, c, generated, w, o);
  }

  /** A start that proceeds runs on a text whose first occurrence of a declared parameter reads the declared value's first line. */
  lemma ProceedIsReconciled(file: string, c: Config, generated: bool, w: World, o: GlobalOption)
    requires Loaded(c) && o in EffectiveOptions(c) && AllClear(EffectiveOptions(c), GLOBAL, o.name.canonical)
    requires ReconcileFile(Some(file), c, generated, w).1.Proceed?
    ensures var after := ReconcileFile(Some(file), c, generated, w).0;
            && after.Some?
            && var vs := Reads(after.value, GLOBAL, o.name.canonical); vs != [] && vs[0] == Normalize(FirstLine(o.value))
  {
    hide Pass, EffectiveOptions, Reads, CanonicalKey, GoodKey, Normalize, AllClear, FirstLine, Written;
    EffectiveWritable(c);
    OptionFound(EffectiveOptions(c), o);
    PassReads(file, c, GLOBAL, o.name.canonical);
    PassQuietIff(file, c);
  }

  // ----- what a join forces in

  const DNS_UPDATE_KEY := "dns update command"
  const DNS_UPDATE_VALUE := "/usr/sbin/samba_dnsupdate --use-samba-tool"
  const LEVEL_KEY := "ad dc functional level"
  const FORWARDER_KEY := "dns forwarder"

  function UpperChar(c: char): char {
    if 'a' <= c <= 'z' then c - 'a' + 'A' else c
  }

  function Upper(s: string): string {
    seq(|s|, i requires 0 <= i < |s| => UpperChar(s[i]))
  }

  /** Upper case: no small letter is left, and no letter changed but in case. */
  lemma UpperIs(s: string)
    ensures |Upper(s)| == |s| && Lower(Upper(s)) == Lower(s)
    ensures forall i :: 0 <= i < |s| ==> !('a' <= Upper(s)[i] <= 'z')
    ensures (forall i :: 0 <= i < |s| ==> !('a' <= s[i] <= 'z')) ==> Upper(s) == s
  {
  }

  function DCFunctionalLevel(level: string): Option<string> {
    var l := Upper(Trim(level));
    if l in ["2012", "2012_R2", "2016"] then Some(l) else None
  }

  function JoinedSettings(level: string, forwarder: string): seq<GlobalOption> {
    [GlobalOption(NameOf(DNS_UPDATE_KEY), DNS_UPDATE_VALUE)]
    + (match DCFunctionalLevel(level)
       case Some(v) => [GlobalOption(NameOf(LEVEL_KEY), v)]
       case None => [])
    + (if Trim(forwarder) == "" then [] else [GlobalOption(NameOf(FORWARDER_KEY), Trim(forwarder))])
  }

  /** What a join forces in: the update command always, a functional level that samba knows, a forwarder that is given. */
  lemma JoinedSettingsAre(level: string, forwarder: string, key: string, value: string)
    ensures GlobalOption(NameOf(key), value) in JoinedSettings(level, forwarder) <==>
              || (key == "dns update command" && value == "/usr/sbin/samba_dnsupdate --use-samba-tool")
              || (key == "ad dc functional level" && value == Upper(Trim(level)) && value in ["2012", "2012_R2", "2016"])
              || (key == "dns forwarder" && value == Trim(forwarder) && value != "")
  {
    hide CanonicalKey, Trim, Upper;
  }

  /** When the joined settings are forced in without a failure, and what is then there. */
  lemma JoinProceedsIff(file: Option<string>, settings: seq<GlobalOption>, canWrite: bool)
    requires Writable(settings)
    ensures var (after, r) := JoinConf(file, settings, canWrite);
            var quiet := file.Some? && forall o :: o in settings ==>
                           Reads(file.value, GLOBAL, o.name.canonical) != [] && Reads(file.value, GLOBAL, o.name.canonical)[0] == o.value;
            && (r.Proceed? <==> file.Some? && (quiet || canWrite))
            && (r.Refuse? ==> r == Refuse(RuntimeFailure) && after == file)
            && (r.Proceed? ==> after == Some(SetAll(file.value, settings).0))
  {
    hide SetAll, Reads, GoodKey, CanonicalKey;
    if file.Some? {
      SetAllQuietIff(file.value, settings);
      if SetAll(file.value, settings).1 == [] { QuietSets(file.value, settings); }
    }
  }

  lemma JoinedKeyName(key: string)
    requires key in [DNS_UPDATE_KEY, LEVEL_KEY, FORWARDER_KEY]
    ensures GoodKey(key) && OwnerOf(CanonicalKey(key)).Some?
    ensures |CanonicalKey(key)| == if key == DNS_UPDATE_KEY then 16 else if key == LEVEL_KEY then 19 else 12
  {
    hide CanonicalKey, GoodKey, OwnerOf;
    if key == DNS_UPDATE_KEY { DNSUpdateName(key); }
    else if key == LEVEL_KEY { LevelName(key); }
    else { ForwarderName(key); }
    JoinedKeyOwned(key);
  }

  lemma JoinedKeyOwned(key: string)
    requires key in [DNS_UPDATE_KEY, LEVEL_KEY, FORWARDER_KEY]
    ensures OwnerOf(CanonicalKey(key)).Some?
  {
    hide CanonicalKey;
    var i := if key == DNS_UPDATE_KEY then 9 else if key == LEVEL_KEY then 3 else 4;
    assert OWNERS[i].0 == key;
    ListedIsOwned(OWNERS, i);
  }

  lemma DNSUpdateName(key: string)
    requires key == DNS_UPDATE_KEY
    ensures |CanonicalKey(key)| == 16 && GoodKey(key)
  {
    hide CanonicalKey, IsSpace, NoSpace, GoodKey;
    DNSUpdateWords();
    ThreeWordKey(key, "dns", "update", "command");
  }

  lemma DNSUpdateWords()
    ensures NoSpace("dns") && NoSpace("update") && NoSpace("command") && GoodKey(DNS_UPDATE_KEY)
  {
  }

  lemma LevelName(key: string)
    requires key == LEVEL_KEY
    ensures |CanonicalKey(key)| == 19 && GoodKey(key)
  {
    hide CanonicalKey, IsSpace, NoSpace, GoodKey;
    LevelWords();
    FourWordKey(key, "ad", "dc", "functional", "level");
  }

  lemma LevelWords()
    ensures NoSpace("ad") && NoSpace("dc") && NoSpace("functional") && NoSpace("level") && GoodKey(LEVEL_KEY)
  {
  }

  lemma ForwarderName(key: string)
    requires key == FORWARDER_KEY
    ensures |CanonicalKey(key)| == 12 && GoodKey(key)
  {
    hide CanonicalKey;
    TwoWordKey(key, "dns", "forwarder");
  }

  lemma ThreeWordKey(key: string, a: string, b: string, c: string)
    requires key == a + " " + b + " " + c && NoSpace(a) && NoSpace(b) && NoSpace(c)
    ensures |CanonicalKey(key)| == |a| + |b| + |c|
  {
    CanonicalKeyIsCompact(key);
    NextWord(a + " " + b, c);
    NextWord(a, b);
    CompactSpaceless(a);
  }

  lemma FourWordKey(key: string, a: string, b: string, c: string, d: string)
    requires key == a + " " + b + " " + c + " " + d && NoSpace(a) && NoSpace(b) && NoSpace(c) && NoSpace(d)
    ensures |CanonicalKey(key)| == |a| + |b| + |c| + |d|
  {
    CanonicalKeyIsCompact(key);
    NextWord(a + " " + b + " " + c, d);
    NextWord(a + " " + b, c);
    NextWord(a, b);
    CompactSpaceless(a);
  }

  lemma NextWord(words: string, word: string)
    requires NoSpace(word)
    ensures |Compact(words + " " + word)| == |Compact(words)| + |word|
  {
    CompactConcat(words + " ", word);
    CompactConcat(words, " ");
    CompactSpaceless(word);
    assert Compact(" ") == "" + Compact("");
  }

  // ----- any number of later reconciles

  datatype Start = Start(config: Config, generated: bool, world: World)

  function AfterStarts(file: Option<string>, starts: seq<Start>): Option<string>
    decreases |starts|
  {
    hide ReconcileFile;
    if starts == [] then file
    else AfterStarts(ReconcileFile(file, starts[0].config, starts[0].generated, starts[0].world).0, starts[1..])
  }

  /** Every start has a configuration as it is loaded, whose TLS paths are clear of the parameter. */
  ghost predicate LoadedStarts(starts: seq<Start>, key: string) {
    forall s :: s in starts ==> Loaded(s.config) && AllClear(TLSOptions(s.config), GLOBAL, CanonicalKey(key))
  }

  /**
   An owned parameter that is not one of the three TLS files keeps its values
   through any later starts.
   */
  lemma {:induction false} OwnedSettingSurvives(file: string, starts: seq<Start>, key: string)
    requires LoadedStarts(starts, key)
    requires OwnerOf(CanonicalKey(key)).Some? && CanonicalKey(key) !in Canonicals(TLSKeys())
    ensures AfterStarts(Some(file), starts).Some?
    ensures Reads(AfterStarts(Some(file), starts).value, GLOBAL, CanonicalKey(key)) == Reads(file, GLOBAL, CanonicalKey(key))
    decreases |starts|
  {
    hide ReconcileFile, TLSOptions, AllClear, Reads, CanonicalKey, OwnerOf, Canonicals;
    if starts != [] {
      var s := starts[0];
      assert s in starts;
      var after := ReconcileFile(Some(file), s.config, s.generated, s.world).0;
      ReconcileKeeps(file, s.config, s.generated, s.world, key);
      OwnedSettingSurvives(after.value, starts[1..], key);
    }
  }

  lemma UndeclaredReads(file: string, c: Config, key: string)
    requires Loaded(c) && AllClear(TLSOptions(c), GLOBAL, CanonicalKey(key))
    requires OwnerOf(CanonicalKey(key)).Some? && CanonicalKey(key) !in Canonicals(TLSKeys())
    ensures Reads(Pass(file, c).0, GLOBAL, CanonicalKey(key)) == Reads(file, GLOBAL, CanonicalKey(key))
  {
    hide Pass, Reads, CanonicalKey, OwnerOf, Canonicals, AllClear, Written, Loaded, EffectiveOptions, TLSOptions, Removals;
    OwnedIsUndeclared(c, CanonicalKey(key));
    OnlyPathsMatter(c, GLOBAL, CanonicalKey(key));
    PassReads(file, c, GLOBAL, CanonicalKey(key));
  }

  /** No block can declare an owned parameter. */
  lemma OwnedIsUndeclared(c: Config, key: string)
    requires Loaded(c) && OwnerOf(key).Some? && key !in Canonicals(TLSKeys())
    ensures IndexOfOption(EffectiveOptions(c), key) == |EffectiveOptions(c)| && key !in Canonicals(Removals(c))
  {
    hide CanonicalKey, OwnerOf, Canonicals, GoodKey, Loaded, TLSOptions, Removals;
    EffectiveWritable(c);
    TLSOptionNames(c);
    RemovalNames(c);
    assert forall o :: o in EffectiveOptions(c) ==> o in c.options || o in TLSOptions(c);
    NotAnOption(EffectiveOptions(c), key, {key});
  }

  /** Whatever the gate and the writes do, a reconcile keeps it too. */
  lemma ReconcileKeeps(file: string, c: Config, generated: bool, w: World, key: string)
    requires Loaded(c) && AllClear(TLSOptions(c), GLOBAL, CanonicalKey(key))
    requires OwnerOf(CanonicalKey(key)).Some? && CanonicalKey(key) !in Canonicals(TLSKeys())
    ensures var after := ReconcileFile(Some(file), c, generated, w).0;
            after.Some? && Reads(after.value, GLOBAL, CanonicalKey(key)) == Reads(file, GLOBAL, CanonicalKey(key))
  {
    hide Pass, EffectiveOptions, TLSOptions, AllClear, Reads, CanonicalKey, OwnerOf, Canonicals, Loaded;
    UndeclaredReads(file, c, key);
  }

  lemma RemovalNames(c: Config)
    ensures Canonicals(Removals(c)) <= Canonicals(TLSKeys())
  {
    hide CanonicalKey;
  }

  lemma TLSOptionNames(c: Config)
    ensures forall o :: o in TLSOptions(c) ==> o.name.canonical in Canonicals(TLSKeys())
  {
    hide CanonicalKey;
    var keys, os := TLSKeys(), TLSOptions(c);
    forall i | 0 <= i < |os|
      ensures os[i].name.canonical in Canonicals(keys)
    {
      assert os[i].name.canonical == CanonicalKey(keys[i]);
    }
  }

  /**
   Every setting a join forced in stays in force through any number of later
   starts with any accepted declarations, whatever testparm and the writes do.
   */
  lemma JoinedSettingsSurvive(file: string, level: string, forwarder: string, starts: seq<Start>, o: GlobalOption)
    requires o in JoinedSettings(level, forwarder) && LoadedStarts(starts, o.name.text)
    requires AllClear(JoinedSettings(level, forwarder), GLOBAL, o.name.canonical)
    ensures var joined := SetAll(file, JoinedSettings(level, forwarder)).0;
            && AfterStarts(Some(joined), starts).Some?
            && var vs := Reads(AfterStarts(Some(joined), starts).value, GLOBAL, CanonicalKey(o.name.text));
               vs != [] && vs[0] == Normalize(FirstLine(o.value))
  {
    hide SetAll, Reads, CanonicalKey, OwnerOf, GoodKey, JoinedSettings, AfterStarts, AllClear, Normalize, FirstLine, Written;
    var os := JoinedSettings(level, forwarder);
    JoinedWritable(level, forwarder);
    OptionFound(os, o);
    SetAllReads(file, os, GLOBAL, o.name.canonical);
    var joined := SetAll(file, os).0;
    JoinedKeyName(o.name.text);
    forall i | 0 <= i < 3
      ensures CanonicalKey(TLSKeys()[i]) != CanonicalKey(o.name.text)
    {
      TLSNames(TLSKeys()[i]);
    }
    OwnedSettingSurvives(joined, starts, o.name.text);
  }

  /** The settings of a join are clear of a parameter exactly when the forwarder is. */
  lemma OnlyForwarderMatters(level: string, forwarder: string, section: string, key: string)
    ensures AllClear(JoinedSettings(level, forwarder), section, key)
       <==> Trim(forwarder) == "" || Clear(GlobalOption(NameOf(FORWARDER_KEY), Trim(forwarder)), section, key)
  {
    hide Said, EndsIn, OneLine, Trim, NameOf, DCFunctionalLevel;
    LevelOneLine(level);
    DNSUpdateOneLine();
    var os, f := JoinedSettings(level, forwarder), GlobalOption(NameOf(FORWARDER_KEY), Trim(forwarder));
    var fixed := if Trim(forwarder) == "" then os else os[..|os| - 1];
    assert forall o :: o in os <==> o in fixed || (Trim(forwarder) != "" && o == f);
    OneLineClear(fixed, section, key);
  }

  lemma JoinedWritable(level: string, forwarder: string)
    ensures Writable(JoinedSettings(level, forwarder))
    ensures forall o :: o in JoinedSettings(level, forwarder) ==> o.name.text in [DNS_UPDATE_KEY, LEVEL_KEY, FORWARDER_KEY]
  {
    hide CanonicalKey, OwnerOf, GoodKey, Trim, NameOf, DCFunctionalLevel;
    var os := JoinedSettings(level, forwarder);
    JoinedOptions(16, DNS_UPDATE_KEY, DNS_UPDATE_VALUE);
    var a := [GlobalOption(NameOf(DNS_UPDATE_KEY), DNS_UPDATE_VALUE)];
    var b: seq<GlobalOption> := [];
    if DCFunctionalLevel(level).Some? {
      b := [GlobalOption(NameOf(LEVEL_KEY), DCFunctionalLevel(level).value)];
      JoinedOptions(19, LEVEL_KEY, DCFunctionalLevel(level).value);
    }
    var c: seq<GlobalOption> := [];
    if Trim(forwarder) != "" {
      c := [GlobalOption(NameOf(FORWARDER_KEY), Trim(forwarder))];
      JoinedOptions(12, FORWARDER_KEY, Trim(forwarder));
    }
    PartsJoined(a, b, 16, 19);
    PartsJoined(a, c, 16, 12);
    PartsJoined(b, c, 19, 12);
    WritableConcat(a, b);
    WritableConcat(a + b, c);
    assert os == a + b + c;
  }

  lemma DNSUpdateOneLine()
    ensures OneLine(DNS_UPDATE_VALUE)
  {
  }

  predicate Joined(os: seq<GlobalOption>, length: nat) {
    && Writable(os)
    && forall o :: o in os ==> |o.name.canonical| == length && o.name.text in [DNS_UPDATE_KEY, LEVEL_KEY, FORWARDER_KEY]
  }

  lemma JoinedOptions(length: nat, key: string, value: string)
    requires key in [DNS_UPDATE_KEY, LEVEL_KEY, FORWARDER_KEY]
    requires length == if key == DNS_UPDATE_KEY then 16 else if key == LEVEL_KEY then 19 else 12
    ensures Joined([GlobalOption(NameOf(key), value)], length)
  {
    hide CanonicalKey, OwnerOf, GoodKey;
    JoinedKeyName(key);
  }

  lemma PartsJoined(a: seq<GlobalOption>, b: seq<GlobalOption>, n: nat, m: nat)
    requires Joined(a, n) && Joined(b, m) && n != m
    ensures forall o, p :: o in a && p in b ==> o.name.canonical != p.name.canonical
  {
  }

  lemma WritableConcat(a: seq<GlobalOption>, b: seq<GlobalOption>)
    requires Writable(a) && Writable(b)
    requires forall o, p :: o in a && p in b ==> o.name.canonical != p.name.canonical
    ensures Writable(a + b)
  {
    hide CanonicalKey, GoodKey;
    DistinctConcat(a, b);
  }

  lemma LevelOneLine(level: string)
    ensures DCFunctionalLevel(level).Some? ==> OneLine(DCFunctionalLevel(level).value)
  {
    hide Trim;
  }
}
