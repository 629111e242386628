/**
 The string operations the entrypoint and the catalog tools are built from:
 trimming, field splitting, whitespace normalisation, cutting at a separator
 and splitting a file into lines. White space is the Unicode White_Space set
 that Go's strings package uses; letter case is folded for ASCII only.
 */
module Text {

  datatype Option<+T> = None | Some(value: T)

  predicate IsSpace(c: char) {
    || '\t' <= c <= '\r' || c == ' ' || c == '\U{0085}' || c == '\U{00A0}' || c == '\U{1680}'
    || '\U{2000}' <= c <= '\U{200A}' || c == '\U{2028}' || c == '\U{2029}'
    || c == '\U{202F}' || c == '\U{205F}' || c == '\U{3000}'
  }

  predicate NoSpace(s: string) {
    forall i :: 0 <= i < |s| ==> !IsSpace(s[i])
  }

  /** No line break: the text is (part of) a single line. */
  predicate OneLine(s: string) {
    '\n' !in s
  }

  function TrimLeft(s: string): string {
    if s != "" && IsSpace(s[0]) then TrimLeft(s[1..]) else s
  }

  function TrimRight(s: string): string {
    if s != "" && IsSpace(s[|s| - 1]) then TrimRight(s[..|s| - 1]) else s
  }

  function Trim(s: string): string {
    TrimRight(TrimLeft(s))
  }

  function WordLength(s: string): (n: nat)
    ensures n <= |s|
    ensures s != "" && !IsSpace(s[0]) ==> n > 0
  {
    if s == "" || IsSpace(s[0]) then 0 else 1 + WordLength(s[1..])
  }

  function Fields(s: string): seq<string>
    decreases |s|
  {
    if s == "" then []
    else if IsSpace(s[0]) then Fields(s[1..])
    else [s[..WordLength(s)]] + Fields(s[WordLength(s)..])
  }

  function Join(words: seq<string>, sep: string): string {
    if |words| == 0 then ""
    else if |words| == 1 then words[0]
    else words[0] + sep + Join(words[1..], sep)
  }

  /** One smb.conf value with its white space collapsed. */
  function Normalize(s: string): string {
    Join(Fields(s), " ")
  }

  function LowerChar(c: char): char {
    if 'A' <= c <= 'Z' then c - 'A' + 'a' else c
  }

  function Lower(s: string): (r: string)
    ensures |r| == |s|
  {
    seq(|s|, i requires 0 <= i < |s| => LowerChar(s[i]))
  }

  /** The form in which samba compares parameter names. */
  function CanonicalKey(s: string): string {
    Lower(Join(Fields(s), ""))
  }

  /** The text without any of its white space. */
  function Compact(s: string): string {
    if s == "" then "" else (if IsSpace(s[0]) then "" else [s[0]]) + Compact(s[1..])
  }

  function IndexOf(s: string, c: char): (n: nat)
    ensures n <= |s|
  {
    if s == "" || s[0] == c then 0 else 1 + IndexOf(s[1..], c)
  }

  /** The parts before and after the first `c`, if there is one. */
  function Cut(s: string, c: char): Option<(string, string)> {
    var n := IndexOf(s, c);
    if n == |s| then None else Some((s[..n], s[n + 1..]))
  }

  function SplitOn(s: string, sep: char): (parts: seq<string>)
    ensures |parts| >= 1
  {
    if s == "" then [""]
    else
      var rest := SplitOn(s[1..], sep);
      if s[0] == sep then [""] + rest else [[s[0]] + rest[0]] + rest[1..]
  }

  function Lines(s: string): (lines: seq<string>)
    ensures |lines| >= 1
  {
    SplitOn(s, '\n')
  }

  function Unlines(lines: seq<string>): string {
    Join(lines, "\n")
  }

  // ----- trimming

  lemma {:induction false} TrimRightConcat(a: string, b: string)
    ensures TrimRight(a + b) == if TrimRight(b) == "" then TrimRight(a) else a + TrimRight(b)
    decreases |b|
  {
    if b == "" {
      assert a + b == a;
    } else {
      var n := |b| - 1;
      assert (a + b)[..|a + b| - 1] == a + b[..n];
      if IsSpace(b[n]) { TrimRightConcat(a, b[..n]); }
    }
  }

  lemma TrimTwice(s: string)
    ensures Trim(Trim(s)) == Trim(s)
  {
    TrimLeftStops(s);
    TrimRightStops(TrimLeft(s));
    var t := TrimRight(TrimLeft(s));
    if t != "" {
      TrimRightPrefix(TrimLeft(s));
      assert t[0] == TrimLeft(s)[0];
    }
  }

  lemma {:induction false} TrimLeftStops(s: string)
    ensures TrimLeft(s) != "" ==> !IsSpace(TrimLeft(s)[0])
  {
    if s != "" && IsSpace(s[0]) { TrimLeftStops(s[1..]); }
  }

  lemma {:induction false} TrimRightStops(s: string)
    ensures TrimRight(TrimRight(s)) == TrimRight(s)
    decreases |s|
  {
    if s != "" && IsSpace(s[|s| - 1]) { TrimRightStops(s[..|s| - 1]); }
  }

  lemma {:induction false} TrimRightPrefix(s: string)
    ensures |TrimRight(s)| <= |s| && TrimRight(s) == s[..|TrimRight(s)|]
    decreases |s|
  {
    if s != "" && IsSpace(s[|s| - 1]) {
      TrimRightPrefix(s[..|s| - 1]);
      assert s[..|s| - 1][..|TrimRight(s)|] == s[..|TrimRight(s)|];
    }
  }

  lemma {:induction false} LeftSpaces(l: string, t: string)
    requires (forall i :: 0 <= i < |l| ==> IsSpace(l[i])) && (t == "" || !IsSpace(t[0]))
    ensures TrimLeft(l + t) == t
  {
    hide IsSpace;
    if l == "" {
      assert l + t == t;
    } else {
      assert (l + t)[1..] == l[1..] + t;
      LeftSpaces(l[1..], t);
    }
  }

  lemma {:induction false} RightSpaces(t: string, r: string)
    requires (forall i :: 0 <= i < |r| ==> IsSpace(r[i])) && (t == "" || !IsSpace(t[|t| - 1]))
    ensures TrimRight(t + r) == t
    decreases |r|
  {
    hide IsSpace;
    if r == "" {
      assert t + r == t;
    } else {
      assert (t + r)[..|t + r| - 1] == t + r[..|r| - 1];
      RightSpaces(t, r[..|r| - 1]);
    }
  }

  /** Trimming takes the white space off both ends and nothing else. */
  lemma TrimIs(l: string, t: string, r: string)
    requires forall i :: 0 <= i < |l| ==> IsSpace(l[i])
    requires forall i :: 0 <= i < |r| ==> IsSpace(r[i])
    requires t != "" && !IsSpace(t[0]) && !IsSpace(t[|t| - 1])
    ensures Trim(l + t + r) == t
  {
    hide IsSpace;
    assert l + t + r == l + (t + r) && (t + r)[0] == t[0];
    LeftSpaces(l, t + r);
    RightSpaces(t, r);
  }

  // ----- fields and normal forms

  lemma {:induction false} FieldsSpaceless(s: string)
    ensures forall i :: 0 <= i < |Fields(s)| ==> Fields(s)[i] != "" && NoSpace(Fields(s)[i])
    decreases |s|
  {
    if s != "" {
      if IsSpace(s[0]) {
        FieldsSpaceless(s[1..]);
      } else {
        WordIsSpaceless(s);
        FieldsSpaceless(s[WordLength(s)..]);
      }
    }
  }

  lemma {:induction false} WordIsSpaceless(s: string)
    ensures NoSpace(s[..WordLength(s)])
    ensures WordLength(s) < |s| ==> IsSpace(s[WordLength(s)])
  {
    if s != "" && !IsSpace(s[0]) {
      WordIsSpaceless(s[1..]);
      var n := WordLength(s[1..]);
      assert s[..n + 1] == [s[0]] + s[1..][..n];
    }
  }

  lemma {:induction false} WordLengthOfWord(w: string, rest: string)
    requires NoSpace(w) && (rest == "" || IsSpace(rest[0]))
    ensures WordLength(w + rest) == |w|
  {
    if w == "" {
      assert w + rest == rest;
    } else {
      assert (w + rest)[1..] == w[1..] + rest;
      WordLengthOfWord(w[1..], rest);
    }
  }

  lemma {:induction false} FieldsOfJoin(words: seq<string>)
    requires forall i :: 0 <= i < |words| ==> words[i] != "" && NoSpace(words[i])
    ensures Fields(Join(words, " ")) == words
  {
    if |words| == 1 {
      WordLengthOfWord(words[0], "");
      assert words[0] + "" == words[0];
      assert Fields(words[0]) == [words[0]] + Fields("");
    } else if |words| > 1 {
      var tail := Join(words[1..], " ");
      var rest := " " + tail;
      var s := Join(words, " ");
      assert s == words[0] + rest;
      WordLengthOfWord(words[0], rest);
      assert s[..|words[0]|] == words[0] && s[|words[0]|..] == rest;
      assert rest[1..] == tail;
      FieldsOfJoin(words[1..]);
    }
  }

  /** White space stands between words only, and is one space. */
  predicate SinglySpaced(s: string) {
    forall i :: 0 <= i < |s| && IsSpace(s[i]) ==>
      s[i] == ' ' && 0 < i < |s| - 1 && !IsSpace(s[i - 1]) && !IsSpace(s[i + 1])
  }

  lemma {:induction false} JoinedSinglySpaced(words: seq<string>)
    requires forall i :: 0 <= i < |words| ==> words[i] != "" && NoSpace(words[i])
    ensures SinglySpaced(Join(words, " ")) && (words != [] ==> Join(words, " ") != "" && !IsSpace(Join(words, " ")[0]))
  {
    hide IsSpace;
    if |words| > 1 {
      JoinedSinglySpaced(words[1..]);
      var rest := Join(words[1..], " ");
      var s, n := Join(words, " "), |words[0]|;
      assert s == words[0] + " " + rest;
      assert s[n] == ' ';
      assert forall i :: 0 <= i < n ==> s[i] == words[0][i] && !IsSpace(s[i]);
      forall i | 0 <= i < |s| && IsSpace(s[i])
        ensures s[i] == ' ' && 0 < i < |s| - 1 && !IsSpace(s[i - 1]) && !IsSpace(s[i + 1])
      {
        if i > n {
          assert s[i] == rest[i - n - 1] && s[i - 1] == (if i == n + 1 then ' ' else rest[i - n - 2]);
        }
      }
    }
  }

  /** The normal form has the same words, one space apart. */
  lemma NormalizeIs(s: string)
    ensures Fields(Normalize(s)) == Fields(s) && SinglySpaced(Normalize(s))
  {
    FieldsSpaceless(s);
    FieldsOfJoin(Fields(s));
    JoinedSinglySpaced(Fields(s));
  }

  /** Normalising twice is normalising once. */
  lemma NormalizeIdempotent(s: string)
    ensures Normalize(Normalize(s)) == Normalize(s)
    ensures OneLine(Normalize(s))
  {
    FieldsSpaceless(s);
    FieldsOfJoin(Fields(s));
    JoinedWordsOneLine(Fields(s));
  }

  lemma {:induction false} JoinedWordsOneLine(words: seq<string>)
    requires forall i :: 0 <= i < |words| ==> NoSpace(words[i])
    ensures OneLine(Join(words, " "))
  {
    if |words| > 0 {
      assert OneLine(words[0]);
      JoinedWordsOneLine(words[1..]);
    }
  }

  lemma {:induction false} FieldsTrailingSpace(s: string, c: char)
    requires IsSpace(c)
    ensures Fields(s + [c]) == Fields(s)
    decreases |s|
  {
    if s == "" {
      assert ([c])[1..] == "";
      assert s + [c] == [c];
    } else if IsSpace(s[0]) {
      assert (s + [c])[1..] == s[1..] + [c];
      FieldsTrailingSpace(s[1..], c);
    } else {
      var n := WordLength(s);
      WordIsSpaceless(s);
      var rest := s[n..] + [c];
      assert s + [c] == s[..n] + rest;
      WordLengthOfWord(s[..n], rest);
      assert (s + [c])[..n] == s[..n] && (s + [c])[n..] == rest;
      FieldsTrailingSpace(s[n..], c);
    }
  }

  lemma {:induction false} FieldsTrimRight(s: string)
    ensures Fields(TrimRight(s)) == Fields(s)
    decreases |s|
  {
    if s != "" && IsSpace(s[|s| - 1]) {
      var init := s[..|s| - 1];
      assert s == init + [s[|s| - 1]];
      FieldsTrailingSpace(init, s[|s| - 1]);
      FieldsTrimRight(init);
    }
  }

  lemma {:induction false} CompactConcat(a: string, b: string)
    ensures Compact(a + b) == Compact(a) + Compact(b)
  {
    if a == "" {
      assert a + b == b;
    } else {
      assert (a + b)[1..] == a[1..] + b;
      CompactConcat(a[1..], b);
    }
  }

  lemma {:induction false} CompactSpaceless(s: string)
    requires NoSpace(s)
    ensures Compact(s) == s
  {
    if s != "" { CompactSpaceless(s[1..]); }
  }

  lemma {:induction false} JoinedFieldsCompact(s: string)
    ensures Join(Fields(s), "") == Compact(s)
    decreases |s|
  {
    if s != "" {
      if IsSpace(s[0]) {
        JoinedFieldsCompact(s[1..]);
      } else {
        var n := WordLength(s);
        WordIsSpaceless(s);
        CompactSpaceless(s[..n]);
        assert s == s[..n] + s[n..];
        CompactConcat(s[..n], s[n..]);
        JoinedFieldsCompact(s[n..]);
        var rest := Fields(s[n..]);
        assert Fields(s)[1..] == rest;
        assert Join(Fields(s), "") == s[..n] + Join(rest, "");
      }
    }
  }

  /** White space never decides which parameter a name denotes. */
  lemma CanonicalKeyIsCompact(s: string)
    ensures CanonicalKey(s) == Lower(Compact(s))
    ensures CanonicalKey(s + " ") == CanonicalKey(s)
  {
    JoinedFieldsCompact(s);
    JoinedFieldsCompact(s + " ");
    CompactConcat(s, " ");
    assert Compact(" ") == "" + Compact("");
  }

  // ----- cutting

  lemma {:induction false} CutAtFirst(a: string, c: char, b: string)
    requires c !in a
    ensures IndexOf(a + [c] + b, c) == |a|
    ensures Cut(a + [c] + b, c) == Some((a, b))
  {
    var s := a + [c] + b;
    if a != "" {
      assert s[1..] == a[1..] + [c] + b;
      CutAtFirst(a[1..], c, b);
    }
    assert s[..|a|] == a && s[|a| + 1..] == b;
  }

  lemma {:induction false} IndexFacts(s: string, c: char)
    ensures c !in s[..IndexOf(s, c)] && (IndexOf(s, c) < |s| ==> s[IndexOf(s, c)] == c)
  {
    if s != "" && s[0] != c {
      IndexFacts(s[1..], c);
      assert s[..IndexOf(s, c)] == [s[0]] + s[1..][..IndexOf(s[1..], c)];
    }
  }

  lemma CutParts(s: string, c: char)
    ensures Cut(s, c).Some? ==> s == Cut(s, c).value.0 + [c] + Cut(s, c).value.1
  {
    IndexFacts(s, c);
  }

  lemma {:induction false} CutIff(s: string, c: char)
    ensures Cut(s, c).Some? <==> c in s
  {
    if s != "" && s[0] != c {
      assert s == [s[0]] + s[1..];
      CutIff(s[1..], c);
    }
  }

  // ----- lines

  lemma {:induction false} SplitOnConcat(a: string, sep: char, b: string)
    ensures SplitOn(a + [sep] + b, sep) == SplitOn(a, sep) + SplitOn(b, sep)
  {
    hide SplitOn;
    EmptySplit(sep);
    if a == "" {
      assert a + [sep] + b == [sep] + b;
      SplitOnCons(sep, b, sep);
      SplitOnCons(sep, "", sep);
    } else {
      var tail := a[1..] + [sep] + b;
      SplitOnConcat(a[1..], sep, b);
      SplitOnCons(a[0], tail, sep);
      SplitOnCons(a[0], a[1..], sep);
      PutInFront(a[0], SplitOn(a[1..], sep), SplitOn(b, sep));
      assert a + [sep] + b == [a[0]] + tail && a == [a[0]] + a[1..];
    }
  }

  lemma EmptySplit(sep: char)
    ensures SplitOn("", sep) == [""]
  {
  }

  lemma SplitOnCons(c: char, s: string, sep: char)
    ensures SplitOn([c] + s, sep)
         == if c == sep then [""] + SplitOn(s, sep) else [[c] + SplitOn(s, sep)[0]] + SplitOn(s, sep)[1..]
  {
    assert ([c] + s)[1..] == s;
  }

  lemma PutInFront(c: char, front: seq<string>, back: seq<string>)
    requires |front| >= 1
    ensures [[c] + (front + back)[0]] + (front + back)[1..] == [[c] + front[0]] + front[1..] + back
    ensures [""] + (front + back) == [""] + front + back
  {
    assert (front + back)[0] == front[0];
    assert (front + back)[1..] == front[1..] + back;
  }

  lemma {:induction false} SplitOnAbsent(s: string, sep: char)
    requires sep !in s
    ensures SplitOn(s, sep) == [s]
  {
    if s != "" {
      assert s[0] in s;
      SplitOnAbsent(s[1..], sep);
      assert [s[0]] + s[1..] == s;
    }
  }

  lemma {:induction false} SplitOnParts(s: string, sep: char)
    ensures forall i :: 0 <= i < |SplitOn(s, sep)| ==> sep !in SplitOn(s, sep)[i]
  {
    if s != "" { SplitOnParts(s[1..], sep); }
  }

  lemma {:induction false} JoinSplit(s: string, sep: char)
    ensures Join(SplitOn(s, sep), [sep]) == s
  {
    if s != "" {
      JoinSplit(s[1..], sep);
      var rest := SplitOn(s[1..], sep);
      if s[0] == sep {
        assert SplitOn(s, sep)[1..] == rest;
        assert Join(SplitOn(s, sep), [sep]) == "" + [sep] + Join(rest, [sep]);
      } else {
        var parts := SplitOn(s, sep);
        assert parts[1..] == rest[1..];
        assert Join(parts, [sep]) == [s[0]] + Join(rest, [sep]);
      }
    }
  }

  lemma {:induction false} SplitJoin(parts: seq<string>, sep: char)
    requires |parts| >= 1
    requires forall i :: 0 <= i < |parts| ==> sep !in parts[i]
    ensures SplitOn(Join(parts, [sep]), sep) == parts
  {
    if |parts| == 1 {
      SplitOnAbsent(parts[0], sep);
    } else {
      SplitJoin(parts[1..], sep);
      SplitOnConcat(parts[0], sep, Join(parts[1..], [sep]));
      SplitOnAbsent(parts[0], sep);
      assert parts == [parts[0]] + parts[1..];
    }
  }

  /** A file is its lines: splitting and joining undo each other. */
  lemma LinesRoundTrip(s: string, lines: seq<string>)
    ensures Unlines(Lines(s)) == s
    ensures forall i :: 0 <= i < |Lines(s)| ==> OneLine(Lines(s)[i])
    ensures |lines| >= 1 && (forall i :: 0 <= i < |lines| ==> OneLine(lines[i])) ==> Lines(Unlines(lines)) == lines
  {
    JoinSplit(s, '\n');
    SplitOnParts(s, '\n');
    if |lines| >= 1 && forall i :: 0 <= i < |lines| ==> OneLine(lines[i]) {
      SplitJoin(lines, '\n');
    }
  }
}
