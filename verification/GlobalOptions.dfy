/**
 The declared [global] settings of entrypoint/internal/config/config.go: the
 SAMBA_GLOBAL_OPTIONS block, the parameters it may not set because something
 else owns them, and the LDAPS material that is reconciled in front of it.

 A parameter name is carried together with the canonical form in which samba
 compares it.
 */
module GlobalOptions {
  import opened Text
  import opened SmbRows
  import opened SmbConf

  datatype Name = Name(text: string, canonical: string)

  datatype GlobalOption = GlobalOption(name: Name, value: string)

  function NameOf(key: string): Name {
    Name(key, CanonicalKey(key))
  }

  // ----- who owns a parameter

  datatype Owner = Variable(env: string) | Image | Hostname

  const TLS_CERT := "tls certfile"
  const TLS_KEY := "tls keyfile"
  const TLS_CA := "tls cafile"

  const OWNERS: seq<(string, Owner)> := [
    ("realm", Variable("SAMBA_REALM")),
    ("workgroup", Variable("SAMBA_DOMAIN")),
    ("netbios name", Hostname),
    ("ad dc functional level", Variable("SAMBA_FUNCTION_LEVEL")),
    ("dns forwarder", Variable("SAMBA_DNS_FORWARDER")),
    (TLS_CERT, Variable("SAMBA_TLS_CERT_FILE")),
    (TLS_KEY, Variable("SAMBA_TLS_KEY_FILE")),
    (TLS_CA, Variable("SAMBA_TLS_CA_FILE")),
    ("server role", Image),
    ("dns update command", Image),
    ("ntp signd socket directory", Image),
    ("include", Image)
  ]

  function FindOwner(table: seq<(string, Owner)>, canonical: string): Option<Owner> {
    if table == [] then None
    else if CanonicalKey(table[0].0) == canonical then Some(table[0].1)
    else FindOwner(table[1..], canonical)
  }

  function OwnerOf(canonical: string): Option<Owner> {
    FindOwner(OWNERS, canonical)
  }

  /** Every spelling of a listed parameter is owned. */
  lemma {:induction false} ListedIsOwned(table: seq<(string, Owner)>, i: nat)
    requires i < |table|
    ensures FindOwner(table, CanonicalKey(table[i].0)).Some?
  {
    if i > 0 && CanonicalKey(table[0].0) != CanonicalKey(table[i].0) {
      ListedIsOwned(table[1..], i - 1);
    }
  }

  /** Whose a parameter is: that of its first spelling in the list, and nobody's exactly when no listed name is a spelling of it. */
  lemma {:induction false} OwnedIff(table: seq<(string, Owner)>, canonical: string)
    ensures match FindOwner(table, canonical)
            case None => forall i :: 0 <= i < |table| ==> CanonicalKey(table[i].0) != canonical
            case Some(owner) => exists i :: 0 <= i < |table| && CanonicalKey(table[i].0) == canonical && table[i].1 == owner
                                  && forall j :: 0 <= j < i ==> CanonicalKey(table[j].0) != canonical
  {
    if table != [] {
      hide CanonicalKey;
      OwnedIff(table[1..], canonical);
      if CanonicalKey(table[0].0) != canonical && FindOwner(table[1..], canonical).Some? {
        var owner := FindOwner(table[1..], canonical).value;
        var i :| 0 <= i < |table[1..]| && CanonicalKey(table[1..][i].0) == canonical && table[1..][i].1 == owner
                 && forall j :: 0 <= j < i ==> CanonicalKey(table[1..][j].0) != canonical;
        assert forall j :: 0 < j < i + 1 ==> table[j] == table[1..][j - 1];
        assert table[i + 1] == table[1..][i];
      }
    }
  }

  // ----- one line of the block

  datatype Refusal =
    | NotASetting
    | NoName
    | BadName
    | Owned(owner: Owner)
    | LineBreak
    | PartialTrio
    | RelativePath

  datatype LineResult = Skipped | Refused(why: Refusal) | Declared(option: GlobalOption)

  predicate KeyChar(c: char) {
    'a' <= c <= 'z' || '0' <= c <= '9' || c in " :*._-"
  }

  predicate KeyChars(s: string) {
    forall i :: 0 <= i < |s| ==> KeyChar(s[i])
  }

  function ParseSetting(rawKey: string, rawValue: string): LineResult {
    var key, value := Lower(Normalize(rawKey)), Normalize(rawValue);
    if key == "" then Refused(NoName)
    else if !KeyChars(key) then Refused(BadName)
    else
      match OwnerOf(CanonicalKey(key))
      case Some(owner) => Refused(Owned(owner))
      case None =>
        if '\n' in value || '\r' in value then Refused(LineBreak)
        else Declared(GlobalOption(NameOf(key), value))
  }

  function ParseLine(line: string): LineResult {
    var entry := Trim(line);
    if entry == "" || entry[0] == '#' || entry[0] == ';' then Skipped
    else
      match Cut(entry, '=')
      case None => Refused(NotASetting)
      case Some((k, v)) => ParseSetting(k, v)
  }

  // ----- what a line declares

  /** The line's text before its first `=`, and the text after it. */
  predicate Assigns(line: string, before: string, after: string) {
    Trim(line) == before + "=" + after && '=' !in before
  }

  predicate IsSilent(line: string) {
    Trim(line) == "" || Trim(line)[0] in "#;"
  }

  lemma SkippedIff(line: string)
    ensures ParseLine(line) == Skipped <==> IsSilent(line)
  {
    hide IsSpace;
  }

  /** A line that is not silent is a setting or refused as none; every line with a `=` has exactly one name in front of it. */
  lemma NotASettingIff(line: string)
    ensures ParseLine(line) == Refused(NotASetting) <==> !IsSilent(line) && '=' !in Trim(line)
  {
    hide Trim, Normalize, OwnerOf, CanonicalKey;
    CutIff(Trim(line), '=');
  }

  const LETTERS := "abcdefghijklmnopqrstuvwxyz"
  const FIGURES := "0123456789"

  lemma LetterIff(c: char)
    ensures 'a' <= c <= 'z' <==> c in LETTERS
  {
    if 'a' <= c <= 'z' { assert LETTERS[c as int - 'a' as int] == c; }
  }

  lemma FigureIff(c: char)
    ensures '0' <= c <= '9' <==> c in FIGURES
  {
    if '0' <= c <= '9' { assert FIGURES[c as int - '0' as int] == c; }
  }

  /** Letters, figures, the space and five marks. */
  predicate FitForName(name: string) {
    forall c :: c in name ==> c in LETTERS || c in FIGURES || c in " :*._-"
  }

  lemma KeyCharsIff(name: string)
    ensures KeyChars(name) <==> FitForName(name)
  {
    hide LETTERS, FIGURES;
    forall c: char
      ensures KeyChar(c) <==> c in LETTERS || c in FIGURES || c in " :*._-"
    {
      LetterIff(c);
      FigureIff(c);
    }
  }

  /**
   What a line with a `=` declares: the name before the first one, in lower
   case with its white space collapsed, and the value after it; or why it is
   refused, decided by the name alone.
   */
  lemma LineDeclares(line: string, before: string, after: string)
    requires !IsSilent(line) && Assigns(line, before, after)
    ensures var name := Lower(Normalize(before)); var r := ParseLine(line); var fit := FitForName(name);
            && (r == Refused(NoName) <==> name == "")
            && (r == Refused(BadName) <==> name != "" && !fit)
            && (forall owner :: r == Refused(Owned(owner)) <==> name != "" && fit && OwnerOf(CanonicalKey(name)) == Some(owner))
            && (r.Declared? <==> name != "" && fit && OwnerOf(CanonicalKey(name)) == None)
            && (r.Declared? ==> r.option == GlobalOption(NameOf(name), Normalize(after)))
  {
    hide Trim, Normalize, OwnerOf, CanonicalKey, Lower, KeyChars, FitForName;
    CutAtFirst(before, '=', after);
    assert before + "=" + after == before + ['='] + after;
    NormalizedBreaks(after);
    KeyCharsIff(Lower(Normalize(before)));
  }

  lemma LowerNormal(s: string)
    ensures CanonicalKey(Lower(s)) == CanonicalKey(s)
  {
    CanonicalKeyIsCompact(s);
    CanonicalKeyIsCompact(Lower(s));
    LowerCompact(s);
    LowerTwice(Compact(s));
  }

  lemma {:induction false} LowerCompact(s: string)
    ensures Compact(Lower(s)) == Lower(Compact(s))
  {
    if s != "" {
      LowerCompact(s[1..]);
      assert Lower(s)[1..] == Lower(s[1..]);
      assert IsSpace(LowerChar(s[0])) <==> IsSpace(s[0]);
      var rest := Compact(s[1..]);
      if !IsSpace(s[0]) { assert Lower([s[0]] + rest) == [LowerChar(s[0])] + Lower(rest); }
      assert IsSpace(s[0]) ==> Compact(s) == rest;
    }
  }

  lemma LowerTwice(s: string)
    ensures Lower(Lower(s)) == Lower(s)
  {
  }

  lemma NormalCanonical(s: string)
    ensures CanonicalKey(Normalize(s)) == CanonicalKey(s)
  {
    FieldsSpaceless(s);
    FieldsOfJoin(Fields(s));
  }

  /**
   A line that is accepted declares exactly what the editor reads in it: the
   block means what the same lines would mean inside a [global] section.
   */
  lemma DeclaredIsRead(line: string)
    ensures ParseLine(line).Declared? ==>
              Read(line) == Setting(ParseLine(line).option.name.canonical, ParseLine(line).option.value)
    ensures ParseLine(line) == Skipped ==> Read(line) == Silent
  {
    hide IsSpace, TrimRight, CanonicalKey, OwnerOf, IndexOf;
    var t := Trim(line);
    var cut := Cut(t, '=');
    if ParseLine(line).Declared? {
      var (k, v) := cut.value;
      LowerNormal(Normalize(k));
      NormalCanonical(k);
      NoBracket(line);
    }
  }

  /** A line that declares a setting is no section header. */
  lemma NoBracket(line: string)
    requires ParseLine(line).Declared?
    ensures Trim(line)[0] != '['
  {
    hide OwnerOf, Normalize, Trim;
    var t := Trim(line);
    var k := Cut(t, '=').value.0;
    var name := Lower(Normalize(k));
    assert k != "" by { NothingNormal(); }
    TrimmedStart(line);
    FirstWord(k);
    assert k[0] == t[0] && name[0] == LowerChar(t[0]);
    assert KeyChar(name[0]);
  }

  lemma NothingNormal()
    ensures Normalize("") == ""
  {
  }

  lemma TrimmedStart(s: string)
    ensures Trim(s) != "" ==> !IsSpace(Trim(s)[0])
  {
    hide IsSpace;
    TrimLeftStops(s);
    TrimRightPrefix(TrimLeft(s));
  }

  lemma FirstWord(s: string)
    requires s != "" && !IsSpace(s[0])
    ensures Normalize(s) != "" && Normalize(s)[0] == s[0]
  {
    assert Fields(s)[0] == s[..WordLength(s)];
    assert WordLength(s) > 0;
  }

  // ----- the block

  datatype Block = Bad(why: Refusal) | Good(options: seq<GlobalOption>)

  /** Every setting a block declares, in order, or the first thing wrong with it. */
  function ParseAll(lines: seq<LineResult>): Block {
    if lines == [] then Good([])
    else
      match lines[0]
      case Skipped => ParseAll(lines[1..])
      case Refused(why) => Bad(why)
      case Declared(o) => InFront([o], ParseAll(lines[1..]))
  }

  function InFront(os: seq<GlobalOption>, b: Block): Block {
    if b.Bad? then b else Good(os + b.options)
  }

  function LineResults(lines: seq<string>): (rs: seq<LineResult>)
    ensures |rs| == |lines|
  {
    if lines == [] then [] else [ParseLine(lines[0])] + LineResults(lines[1..])
  }

  function Count(os: seq<GlobalOption>, canonical: string): nat {
    if os == [] then 0 else (if os[0].name.canonical == canonical then 1 else 0) + Count(os[1..], canonical)
  }

  /** The settings with no later setting of the same parameter, in order. */
  function LastWins(os: seq<GlobalOption>): seq<GlobalOption> {
    if os == [] then []
    else (if Count(os[1..], os[0].name.canonical) > 0 then [] else [os[0]]) + LastWins(os[1..])
  }

  predicate Distinct(os: seq<GlobalOption>) {
    forall i, j :: 0 <= i < j < |os| ==> os[i].name.canonical != os[j].name.canonical
  }

  function Has(names: seq<Name>, canonical: string): bool {
    exists i :: 0 <= i < |names| && names[i].canonical == canonical
  }

  /** The names list each parameter that the settings repeat, once each, and nothing else. */
  ghost predicate NamesRepeated(names: seq<Name>, os: seq<GlobalOption>) {
    && (forall i, j :: 0 <= i < j < |names| ==> names[i].canonical != names[j].canonical)
    && (forall c :: Has(names, c) <==> Count(os, c) >= 2)
  }

  function IndexOfOption(os: seq<GlobalOption>, canonical: string): (n: nat)
    ensures n <= |os|
    ensures n < |os| ==> os[n].name.canonical == canonical
    ensures forall i :: 0 <= i < n ==> os[i].name.canonical != canonical
  {
    if os == [] || os[0].name.canonical == canonical then 0 else 1 + IndexOfOption(os[1..], canonical)
  }

  datatype ParseResult = Rejected(why: Refusal) | Accepted(options: seq<GlobalOption>, shadowed: seq<Name>)

  /** Reading the block. */
  method ParseGlobalOptions(block: string) returns (r: ParseResult)
    ensures match ParseAll(LineResults(Lines(block)))
            case Bad(why) => r == Rejected(why)
            case Good(all) => r.Accepted? && r.options == LastWins(all) && NamesRepeated(r.shadowed, all)
  {
    r := CollectOptions(LineResults(Lines(block)));
  }

  /** A repeated parameter is taken out where it stood and put at the end; the first refusal ends the scan. */
  method CollectOptions(lines: seq<LineResult>) returns (r: ParseResult)
    ensures match ParseAll(lines)
            case Bad(why) => r == Rejected(why)
            case Good(all) => r.Accepted? && r.options == LastWins(all) && NamesRepeated(r.shadowed, all)
  {
    var opts: seq<GlobalOption> := [];
    var shadowed: seq<Name> := [];
    ghost var seen: seq<GlobalOption> := [];
    for i := 0 to |lines|
      invariant ParseAll(lines) == InFront(seen, ParseAll(lines[i..]))
      invariant opts == LastWins(seen) && NamesRepeated(shadowed, seen)
    {
      ParseStep(seen, lines, i);
      match lines[i] {
        case Skipped =>
        case Refused(why) =>
          return Rejected(why);
        case Declared(opt) =>
          var n := IndexOfOption(opts, opt.name.canonical);
          LastWinsStep(seen, opt, n);
          RepeatedStep(shadowed, seen, opt);
          seen := seen + [opt];
          if n < |opts| {
            opts := opts[..n] + opts[n + 1..];
            if !Has(shadowed, opt.name.canonical) {
              shadowed := shadowed + [opt.name];
            }
          }
          opts := opts + [opt];
      }
    }
    assert seen + [] == seen;
    return Accepted(opts, shadowed);
  }

  lemma ParseStep(seen: seq<GlobalOption>, lines: seq<LineResult>, i: nat)
    requires i < |lines|
    ensures InFront(seen, ParseAll(lines[i..]))
         == match lines[i]
            case Skipped => InFront(seen, ParseAll(lines[i + 1..]))
            case Refused(why) => Bad(why)
            case Declared(o) => InFront(seen + [o], ParseAll(lines[i + 1..]))
  {
    assert lines[i..][0] == lines[i] && lines[i..][1..] == lines[i + 1..];
    var rest := ParseAll(lines[i + 1..]);
    if lines[i].Declared? && rest.Good? {
      assert seen + ([lines[i].option] + rest.options) == seen + [lines[i].option] + rest.options;
    }
  }

  // ----- last wins

  lemma {:induction false} CountConcat(a: seq<GlobalOption>, b: seq<GlobalOption>, canonical: string)
    ensures Count(a + b, canonical) == Count(a, canonical) + Count(b, canonical)
  {
    if a == [] {
      assert a + b == b;
    } else {
      assert (a + b)[1..] == a[1..] + b;
      CountConcat(a[1..], b, canonical);
    }
  }

  lemma {:induction false} CountPositive(os: seq<GlobalOption>, canonical: string)
    ensures Count(os, canonical) > 0 <==> exists i :: 0 <= i < |os| && os[i].name.canonical == canonical
  {
    if os != [] {
      CountPositive(os[1..], canonical);
      if i :| 0 <= i < |os| && os[i].name.canonical == canonical {
        if i > 0 { assert os[1..][i - 1] == os[i]; }
      }
    }
  }

  /** What is left names every declared parameter exactly once. */
  lemma {:induction false} LastWinsCounts(os: seq<GlobalOption>, canonical: string)
    ensures Count(LastWins(os), canonical) == if Count(os, canonical) > 0 then 1 else 0
  {
    if os != [] {
      LastWinsCounts(os[1..], canonical);
      var rest := LastWins(os[1..]);
      assert ([os[0]] + rest)[1..] == rest;
      assert Count(os[1..], os[0].name.canonical) > 0 ==> LastWins(os) == rest;
    }
  }

  lemma {:induction false} CountOneDistinct(os: seq<GlobalOption>)
    requires forall c :: Count(os, c) <= 1
    ensures Distinct(os)
  {
    if os != [] {
      forall c
        ensures Count(os[1..], c) <= 1
      {
        assert Count(os, c) <= 1;
      }
      CountOneDistinct(os[1..]);
      CountPositive(os[1..], os[0].name.canonical);
      assert Count(os, os[0].name.canonical) <= 1;
      forall i, j | 0 <= i < j < |os|
        ensures os[i].name.canonical != os[j].name.canonical
      {
        assert os[j] == os[1..][j - 1];
        if i > 0 { assert os[i] == os[1..][i - 1]; }
      }
    }
  }

  lemma LastWinsDistinct(os: seq<GlobalOption>)
    ensures Distinct(LastWins(os))
  {
    forall c
      ensures Count(LastWins(os), c) <= 1
    {
      LastWinsCounts(os, c);
    }
    CountOneDistinct(LastWins(os));
  }

  function Without(os: seq<GlobalOption>, canonical: string): seq<GlobalOption> {
    if os == [] then []
    else (if os[0].name.canonical == canonical then [] else [os[0]]) + Without(os[1..], canonical)
  }

  lemma {:induction false} LastWinsSnoc(os: seq<GlobalOption>, o: GlobalOption)
    ensures LastWins(os + [o]) == Without(LastWins(os), o.name.canonical) + [o]
  {
    if os == [] {
      assert os + [o] == [o] && [o][1..] == [];
    } else {
      var rest := LastWins(os[1..]);
      assert (os + [o])[1..] == os[1..] + [o];
      LastWinsSnoc(os[1..], o);
      CountConcat(os[1..], [o], os[0].name.canonical);
      assert [o][1..] == [];
      assert ([os[0]] + rest)[1..] == rest;
      assert Count(os[1..], os[0].name.canonical) > 0 ==> LastWins(os) == rest;
    }
  }

  lemma {:induction false} WithoutAbsent(os: seq<GlobalOption>, canonical: string)
    requires forall i :: 0 <= i < |os| ==> os[i].name.canonical != canonical
    ensures Without(os, canonical) == os
  {
    if os != [] { WithoutAbsent(os[1..], canonical); }
  }

  lemma {:induction false} WithoutConcat(a: seq<GlobalOption>, b: seq<GlobalOption>, canonical: string)
    ensures Without(a + b, canonical) == Without(a, canonical) + Without(b, canonical)
  {
    if a == [] {
      assert a + b == b;
    } else {
      assert (a + b)[1..] == a[1..] + b;
      WithoutConcat(a[1..], b, canonical);
    }
  }

  lemma WithoutMiddle(a: seq<GlobalOption>, o: GlobalOption, b: seq<GlobalOption>, canonical: string)
    requires o.name.canonical == canonical
    requires forall i :: 0 <= i < |a| ==> a[i].name.canonical != canonical
    requires forall i :: 0 <= i < |b| ==> b[i].name.canonical != canonical
    ensures Without(a + [o] + b, canonical) == a + b
  {
    WithoutAbsent(a, canonical);
    WithoutAbsent(b, canonical);
    WithoutConcat(a + [o], b, canonical);
    WithoutConcat(a, [o], canonical);
    assert [o][1..] == [];
  }

  lemma WithoutIsRemoval(os: seq<GlobalOption>, canonical: string)
    requires Distinct(os)
    ensures var n := IndexOfOption(os, canonical);
            Without(os, canonical) == if n == |os| then os else os[..n] + os[n + 1..]
  {
    var n := IndexOfOption(os, canonical);
    if n == |os| {
      WithoutAbsent(os, canonical);
    } else {
      var b := os[n + 1..];
      forall i | 0 <= i < |b|
        ensures b[i].name.canonical != canonical
      {
        assert b[i] == os[n + 1 + i];
      }
      WithoutMiddle(os[..n], os[n], b, canonical);
      assert os == os[..n] + [os[n]] + b;
    }
  }

  lemma LastWinsStep(seen: seq<GlobalOption>, opt: GlobalOption, n: nat)
    requires n == IndexOfOption(LastWins(seen), opt.name.canonical)
    ensures var os := LastWins(seen);
            LastWins(seen + [opt]) == (if n < |os| then os[..n] + os[n + 1..] else os) + [opt]
    ensures n < |LastWins(seen)| <==> Count(seen, opt.name.canonical) > 0
  {
    LastWinsSnoc(seen, opt);
    LastWinsDistinct(seen);
    WithoutIsRemoval(LastWins(seen), opt.name.canonical);
    CountPositive(LastWins(seen), opt.name.canonical);
    LastWinsCounts(seen, opt.name.canonical);
  }

  lemma RepeatedStep(names: seq<Name>, seen: seq<GlobalOption>, opt: GlobalOption)
    requires NamesRepeated(names, seen)
    ensures var again := Count(seen, opt.name.canonical) > 0 && !Has(names, opt.name.canonical);
            NamesRepeated(if again then names + [opt.name] else names, seen + [opt])
  {
    var c0 := opt.name.canonical;
    var again := Count(seen, c0) > 0 && !Has(names, c0);
    var after := if again then names + [opt.name] else names;
    forall c
      ensures Has(after, c) <==> Count(seen + [opt], c) >= 2
    {
      CountConcat(seen, [opt], c);
      assert Count([opt], c) == (if c0 == c then 1 else 0) by { assert [opt][1..] == []; }
      assert Has(names, c) <==> Count(seen, c) >= 2;
      if again {
        assert (names + [opt.name])[|names|] == opt.name;
        if i :| 0 <= i < |names| && names[i].canonical == c { assert (names + [opt.name])[i] == names[i]; }
      }
    }
  }

  // ----- what an accepted setting is like

  /** An option samba can be handed: a name and a value that are each one tidy piece of one line. */
  predicate Tidy(o: GlobalOption) {
    && o.name.canonical == CanonicalKey(o.name.text) && KeyChars(o.name.text) && GoodKey(o.name.text)
    && OwnerOf(o.name.canonical).None?
    && Normalize(o.value) == o.value && OneLine(o.value)
  }

  lemma ParseSettingTidy(rawKey: string, rawValue: string)
    ensures ParseSetting(rawKey, rawValue).Declared? ==> Tidy(ParseSetting(rawKey, rawValue).option)
    ensures ParseSetting(rawKey, rawValue) != Refused(LineBreak)
  {
    NormalizeIdempotent(rawValue);
    NormalizedBreaks(rawValue);
    var key := Lower(Normalize(rawKey));
    if key != "" && KeyChars(key) {
      NormalizedStart(rawKey);
      assert key[0] == LowerChar(Normalize(rawKey)[0]);
      KeyCharsGood(key);
    }
  }

  lemma KeyCharsGood(key: string)
    requires key != "" && KeyChars(key) && !IsSpace(key[0])
    ensures GoodKey(key)
  {
    assert KeyChar(key[0]);
    assert forall c :: c in key ==> KeyChar(c);
  }

  lemma NormalizedStart(s: string)
    ensures Normalize(s) != "" ==> !IsSpace(Normalize(s)[0])
  {
    FieldsSpaceless(s);
    var words := Fields(s);
    if words != [] {
      assert words[0] != "" && NoSpace(words[0]);
      assert Join(words, " ")[0] == words[0][0];
    }
  }

  lemma NormalizedBreaks(s: string)
    ensures '\n' !in Normalize(s) && '\r' !in Normalize(s)
  {
    FieldsSpaceless(s);
    JoinedWordsBreaks(Fields(s));
  }

  lemma {:induction false} JoinedWordsBreaks(words: seq<string>)
    requires forall i :: 0 <= i < |words| ==> NoSpace(words[i])
    ensures '\n' !in Join(words, " ") && '\r' !in Join(words, " ")
  {
    if |words| > 0 {
      assert NoSpace(words[0]);
      assert '\n' !in words[0] && '\r' !in words[0];
      JoinedWordsBreaks(words[1..]);
    }
  }

  predicate AllTidy(os: seq<GlobalOption>) {
    forall o :: o in os ==> Tidy(o)
  }

  lemma {:induction false} ParsedAreTidy(lines: seq<string>)
    ensures var b := ParseAll(LineResults(lines));
            if b.Bad? then b.why != LineBreak else AllTidy(b.options)
  {
    if lines != [] {
      var cut := Cut(Trim(lines[0]), '=');
      if cut.Some? { ParseSettingTidy(cut.value.0, cut.value.1); }
      ParsedAreTidy(lines[1..]);
      assert LineResults(lines)[1..] == LineResults(lines[1..]);
    }
  }

  lemma {:induction false} LastWinsSubset(os: seq<GlobalOption>)
    ensures forall o :: o in LastWins(os) ==> o in os
  {
    if os != [] { LastWinsSubset(os[1..]); }
  }

  /** The settings of an accepted block are tidy, unowned and pairwise different parameters. */
  lemma AcceptedOptions(block: string)
    ensures var b := ParseAll(LineResults(Lines(block)));
            b.Good? ==> AllTidy(LastWins(b.options)) && Distinct(LastWins(b.options))
    ensures ParseAll(LineResults(Lines(block))) != Bad(LineBreak)
  {
    ParsedAreTidy(Lines(block));
    var b := ParseAll(LineResults(Lines(block)));
    if b.Good? {
      LastWinsSubset(b.options);
      LastWinsDistinct(b.options);
    }
  }

  // ----- what a block declares

  /** The settings as entries of [global]. */
  function AsEntries(os: seq<GlobalOption>): (es: seq<Entry>)
    ensures |es| == |os|
  {
    if os == [] then [] else [Entry(GLOBAL, os[0].name.canonical, os[0].value)] + AsEntries(os[1..])
  }

  /** The lines of an accepted block, read as lines of a [global] section, hold exactly its settings, in order. */
  lemma {:induction false} BlockIsRead(lines: seq<string>)
    requires ParseAll(LineResults(lines)).Good?
    ensures EntriesFrom(RowsOf(lines), GLOBAL) == AsEntries(ParseAll(LineResults(lines)).options)
  {
    if lines != [] {
      hide ParseLine, Read;
      var results := LineResults(lines);
      assert results[1..] == LineResults(lines[1..]) && RowsOf(lines)[1..] == RowsOf(lines[1..]);
      DeclaredIsRead(lines[0]);
      BlockIsRead(lines[1..]);
      assert results[0] == ParseLine(lines[0]);
      if results[0].Declared? {
        var o, rest := results[0].option, ParseAll(LineResults(lines[1..])).options;
        assert ([o] + rest)[1..] == rest;
      }
    }
  }

  /** The first line that is refused decides; a block without one is accepted. */
  lemma {:induction false} FirstRefusal(lines: seq<string>)
    ensures match ParseAll(LineResults(lines))
            case Bad(why) => exists i :: 0 <= i < |lines| && ParseLine(lines[i]) == Refused(why)
                               && forall j :: 0 <= j < i ==> !ParseLine(lines[j]).Refused?
            case Good(_) => forall i :: 0 <= i < |lines| ==> !ParseLine(lines[i]).Refused?
  {
    if lines != [] {
      hide ParseLine;
      var results := LineResults(lines);
      assert results[1..] == LineResults(lines[1..]) && results[0] == ParseLine(lines[0]);
      FirstRefusal(lines[1..]);
      if results[0].Refused? {
        assert ParseLine(lines[0]) == Refused(results[0].why);
      } else if ParseAll(LineResults(lines[1..])).Bad? {
        var why := ParseAll(LineResults(lines[1..])).why;
        var i :| 0 <= i < |lines[1..]| && ParseLine(lines[1..][i]) == Refused(why)
                 && forall j :: 0 <= j < i ==> !ParseLine(lines[1..][j]).Refused?;
        forall j | 0 <= j < i + 1
          ensures !ParseLine(lines[j]).Refused?
        {
          if j > 0 { assert lines[j] == lines[1..][j - 1]; }
        }
        assert ParseLine(lines[i + 1]) == Refused(why);
      }
    }
  }

  lemma {:induction false} CountValues(os: seq<GlobalOption>, key: string)
    ensures |ValuesOf(AsEntries(os), GLOBAL, key)| == Count(os, key)
  {
    if os != [] {
      CountValues(os[1..], key);
      assert AsEntries(os)[1..] == AsEntries(os[1..]);
    }
  }

  /** Of several values of a parameter the last one in the block survives, alone. */
  lemma {:induction false} LastWinsReads(os: seq<GlobalOption>, key: string)
    ensures var vs := ValuesOf(AsEntries(os), GLOBAL, key);
            ValuesOf(AsEntries(LastWins(os)), GLOBAL, key) == if vs == [] then [] else [vs[|vs| - 1]]
  {
    hide LastWins, AsEntries, ValuesOf, Count;
    if os == [] {
      NothingReads(key);
    } else {
      var rest := os[1..];
      LastWinsReads(rest, key);
      CountValues(rest, os[0].name.canonical);
      HeadReads(os, key);
      LastWinsHead(os);
      if Count(rest, os[0].name.canonical) == 0 {
        assert LastWins(os)[0] == os[0] && LastWins(os)[1..] == LastWins(rest);
        HeadReads(LastWins(os), key);
      }
    }
  }

  lemma NothingReads(key: string)
    ensures ValuesOf(AsEntries([]), GLOBAL, key) == [] && LastWins([]) == []
  {
  }

  lemma LastWinsHead(os: seq<GlobalOption>)
    requires os != []
    ensures LastWins(os) == if Count(os[1..], os[0].name.canonical) > 0 then LastWins(os[1..]) else [os[0]] + LastWins(os[1..])
  {
    hide Count;
    assert [] + LastWins(os[1..]) == LastWins(os[1..]);
  }

  lemma HeadReads(os: seq<GlobalOption>, key: string)
    requires os != []
    ensures ValuesOf(AsEntries(os), GLOBAL, key)
         == (if os[0].name.canonical == key then [os[0].value] else []) + ValuesOf(AsEntries(os[1..]), GLOBAL, key)
  {
    assert AsEntries(os)[1..] == AsEntries(os[1..]);
  }

  /** The line at i sets its parameter for the last time. */
  predicate IsLast(os: seq<GlobalOption>, i: nat) {
    i < |os| && Count(os[i + 1..], os[i].name.canonical) == 0
  }

  /** The surviving settings keep their order, and each is the very one that was set last. */
  lemma {:induction false} LastWinsOrder(os: seq<GlobalOption>, i: nat, j: nat)
    requires i <= j && IsLast(os, i) && IsLast(os, j)
    ensures var left := LastWins(os); var m, n := IndexOfOption(left, os[i].name.canonical), IndexOfOption(left, os[j].name.canonical);
            m < |left| && n < |left| && left[m] == os[i] && left[n] == os[j] && m <= n && (i < j ==> m < n)
  {
    hide Count, LastWins, IndexOfOption;
    LastWinsHead(os);
    LastInTail(os, i);
    LastInTail(os, j);
    var rest := LastWins(os[1..]);
    HeadIndex(os[0], rest, os[i].name.canonical);
    HeadIndex(os[0], rest, os[j].name.canonical);
    if i > 0 {
      LastWinsOrder(os[1..], i - 1, j - 1);
    } else if j > 0 {
      LastWinsOrder(os[1..], j - 1, j - 1);
    }
  }

  lemma HeadIndex(o: GlobalOption, rest: seq<GlobalOption>, canonical: string)
    ensures IndexOfOption([o] + rest, canonical) == if o.name.canonical == canonical then 0 else 1 + IndexOfOption(rest, canonical)
  {
    assert ([o] + rest)[1..] == rest;
  }

  lemma LastInTail(os: seq<GlobalOption>, i: nat)
    requires IsLast(os, i)
    ensures i > 0 ==> IsLast(os[1..], i - 1) && os[1..][i - 1] == os[i]
    ensures i > 0 && Count(os[1..], os[0].name.canonical) == 0 ==> os[i].name.canonical != os[0].name.canonical
  {
    hide Count;
    if i > 0 {
      assert os[1..][i - 1 + 1..] == os[i + 1..];
      if Count(os[1..], os[0].name.canonical) == 0 { NotAgain(os, i); }
    }
  }

  lemma NotAgain(os: seq<GlobalOption>, j: nat)
    requires 0 < j < |os| && Count(os[1..], os[0].name.canonical) == 0
    ensures os[j].name.canonical != os[0].name.canonical
  {
    hide Count;
    CountPositive(os[1..], os[0].name.canonical);
    assert os[1..][j - 1] == os[j];
  }

  /**
   A declared block means what its lines would mean in a [global] section of
   smb.conf in which the last occurrence of a parameter decides.
   */
  lemma BlockMeaning(block: string, key: string)
    requires ParseAll(LineResults(Lines(block))).Good?
    ensures var os := LastWins(ParseAll(LineResults(Lines(block))).options);
            var vs := ValuesOf(EntriesFrom(Rows(block), GLOBAL), GLOBAL, key);
            ValuesOf(AsEntries(os), GLOBAL, key) == if vs == [] then [] else [vs[|vs| - 1]]
  {
    BlockIsRead(Lines(block));
    LastWinsReads(ParseAll(LineResults(Lines(block))).options, key);
  }

  // ----- the LDAPS material and the effective options

  datatype Config = Config(tlsCert: string, tlsKey: string, tlsCA: string, options: seq<GlobalOption>)

  predicate IsAbs(path: string) {
    path != "" && path[0] == '/'
  }

  /** All three files or none, and absolute paths only. */
  function CheckTLSTrio(c: Config): Option<Refusal> {
    var missing := c.tlsCert == "" || c.tlsKey == "" || c.tlsCA == "";
    var present := c.tlsCert != "" || c.tlsKey != "" || c.tlsCA != "";
    if missing && present then Some(PartialTrio)
    else if present && !(IsAbs(c.tlsCert) && IsAbs(c.tlsKey) && IsAbs(c.tlsCA)) then Some(RelativePath)
    else None
  }

  /** The three paths are accepted exactly when none is given or all are, all absolute; each fault has its own refusal. */
  lemma TrioIff(c: Config)
    ensures var paths := {c.tlsCert, c.tlsKey, c.tlsCA};
            && (CheckTLSTrio(c) == None <==> paths == {""} || forall p :: p in paths ==> IsAbs(p))
            && (CheckTLSTrio(c) == Some(PartialTrio) <==> "" in paths && paths != {""})
            && (CheckTLSTrio(c) == Some(RelativePath) <==> "" !in paths && exists p :: p in paths && p[0] != '/')
  {
    var paths := {c.tlsCert, c.tlsKey, c.tlsCA};
    assert c.tlsCert in paths && c.tlsKey in paths && c.tlsCA in paths;
  }

  function TLSKeys(): seq<string> {
    [TLS_CERT, TLS_KEY, TLS_CA]
  }

  function TLSOptions(c: Config): seq<GlobalOption> {
    if c.tlsCert == "" then []
    else [GlobalOption(NameOf(TLS_CERT), c.tlsCert), GlobalOption(NameOf(TLS_KEY), c.tlsKey), GlobalOption(NameOf(TLS_CA), c.tlsCA)]
  }

  function EffectiveOptions(c: Config): seq<GlobalOption> {
    TLSOptions(c) + c.options
  }

  /** A configuration that the loader can return: it trims the three paths, checks them, and parses a block. */
  ghost predicate Loaded(c: Config) {
    && Trim(c.tlsCert) == c.tlsCert && Trim(c.tlsKey) == c.tlsKey && Trim(c.tlsCA) == c.tlsCA
    && CheckTLSTrio(c).None?
    && exists block: string ::
         && ParseAll(LineResults(Lines(block))).Good?
         && c.options == LastWins(ParseAll(LineResults(Lines(block))).options)
  }

  lemma TwoWordKey(key: string, a: string, b: string)
    requires key == a + " " + b && NoSpace(a) && NoSpace(b) && a != "" && b != ""
    requires KeyChars(a) && KeyChars(b)
    ensures |CanonicalKey(key)| == |a| + |b| && GoodKey(key)
  {
    CanonicalKeyIsCompact(key);
    CompactConcat(a + " ", b);
    CompactConcat(a, " ");
    CompactSpaceless(a);
    CompactSpaceless(b);
    assert Compact(" ") == "" + Compact("");
    assert KeyChar(' ');
    KeyCharsGood(key);
  }

  lemma TLSCertName(key: string)
    requires key == TLS_CERT
    ensures |CanonicalKey(key)| == 11 && GoodKey(key)
  {
    TwoWordKey(key, "tls", "certfile");
  }

  lemma TLSKeyName(key: string)
    requires key == TLS_KEY
    ensures |CanonicalKey(key)| == 10 && GoodKey(key)
  {
    TwoWordKey(key, "tls", "keyfile");
  }

  lemma TLSCAName(key: string)
    requires key == TLS_CA
    ensures |CanonicalKey(key)| == 9 && GoodKey(key)
  {
    TwoWordKey(key, "tls", "cafile");
  }

  lemma TLSNames(key: string)
    requires key in TLSKeys()
    ensures |CanonicalKey(key)| == |key| - 1 && GoodKey(key)
  {
    if key == TLS_CERT { TLSCertName(key); }
    else if key == TLS_KEY { TLSKeyName(key); }
    else { TLSCAName(key); }
  }

  lemma TLSOwned(key: string)
    requires key in TLSKeys()
    ensures OwnerOf(CanonicalKey(key)).Some?
  {
    var i := if key == TLS_CERT then 5 else if key == TLS_KEY then 6 else 7;
    assert OWNERS[i].0 == key;
    ListedIsOwned(OWNERS, i);
  }

  /** What the reconcile relies on: every option is writable, and no parameter is set twice. */
  predicate Writable(os: seq<GlobalOption>) {
    && Distinct(os)
    && forall o :: o in os ==> o.name.canonical == CanonicalKey(o.name.text) && GoodKey(o.name.text)
  }

  lemma LoadedOptions(c: Config)
    requires Loaded(c)
    ensures Distinct(c.options) && AllTidy(c.options)
  {
    var block: string :| ParseAll(LineResults(Lines(block))).Good?
                         && c.options == LastWins(ParseAll(LineResults(Lines(block))).options);
    AcceptedOptions(block);
  }

  /** The effective options set different parameters, and the declared ones none that something else owns. */
  lemma EffectiveWritable(c: Config)
    requires Loaded(c)
    ensures Writable(EffectiveOptions(c))
    ensures forall o :: o in c.options ==> OwnerOf(o.name.canonical).None?
  {
    LoadedOptions(c);
    TLSOptionsWritable(c);
    forall o | o in c.options
      ensures OwnerOf(o.name.canonical).None? && o.name.canonical == CanonicalKey(o.name.text) && GoodKey(o.name.text)
    {
      assert Tidy(o);
    }
    DistinctConcat(TLSOptions(c), c.options);
  }

  lemma TLSOptionGood(o: GlobalOption, key: string)
    requires key in TLSKeys() && o.name == NameOf(key)
    ensures o.name.canonical == CanonicalKey(o.name.text) && GoodKey(o.name.text)
    ensures OwnerOf(o.name.canonical).Some? && |o.name.canonical| == |key| - 1
  {
    TLSNames(key);
    TLSOwned(key);
  }

  lemma TLSOptionsWritable(c: Config)
    ensures Writable(TLSOptions(c))
    ensures forall o :: o in TLSOptions(c) ==> OwnerOf(o.name.canonical).Some?
  {
    var os := TLSOptions(c);
    if os != [] {
      TLSOptionGood(os[0], TLS_CERT);
      TLSOptionGood(os[1], TLS_KEY);
      TLSOptionGood(os[2], TLS_CA);
      ThreeWritable(os[0], os[1], os[2], os);
    }
  }

  lemma ThreeWritable(a: GlobalOption, b: GlobalOption, c: GlobalOption, os: seq<GlobalOption>)
    requires |os| == 3 && os[0] == a && os[1] == b && os[2] == c
    requires forall o :: o in {a, b, c} ==>
               o.name.canonical == CanonicalKey(o.name.text) && GoodKey(o.name.text) && OwnerOf(o.name.canonical).Some?
    requires |a.name.canonical| > |b.name.canonical| > |c.name.canonical|
    ensures Writable(os)
    ensures forall o :: o in os ==> OwnerOf(o.name.canonical).Some?
  {
    hide CanonicalKey, GoodKey, OwnerOf;
  }

  lemma DistinctConcat(a: seq<GlobalOption>, b: seq<GlobalOption>)
    requires Distinct(a) && Distinct(b)
    requires forall o, p :: o in a && p in b ==> o.name.canonical != p.name.canonical
    ensures Distinct(a + b)
  {
    forall i, j | 0 <= i < |a| <= j < |a + b|
      ensures (a + b)[i].name.canonical != (a + b)[j].name.canonical
    {
      assert a[i] in a && b[j - |a|] in b;
    }
  }
}
