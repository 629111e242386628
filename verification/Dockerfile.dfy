/**
 The Dockerfile mirror of scripts/watch.py: the ARG defaults that have to
 repeat the pins of the catalog's default branch, edited line by line. A file
 is its lines, each with its own line break; an ARG is a name and a value.
 */
module Dockerfile {
  import opened Text

  function Prefix(name: string): string {
    "ARG " + name + "="
  }

  function ArgLine(name: string, value: string): string {
    Prefix(name) + value + "\n"
  }

  datatype Arg = Arg(name: string, value: string)

  /** Names that cannot run into one another: none holds an equals sign, no two are the same. */
  predicate GoodArgs(args: seq<Arg>) {
    && (forall i :: 0 <= i < |args| ==> '=' !in args[i].name)
    && (forall i, j :: 0 <= i < j < |args| ==> args[i].name != args[j].name)
  }

  predicate Sets(line: string, name: string) {
    Prefix(name) <= line
  }

  /** What one line becomes: the wanted line when it sets one of the names. */
  function Synced(line: string, args: seq<Arg>): string {
    if args == [] then line
    else if Sets(line, args[0].name) then ArgLine(args[0].name, args[0].value)
    else Synced(line, args[1..])
  }

  function SyncedLines(lines: seq<string>, args: seq<Arg>): (r: seq<string>)
    ensures |r| == |lines|
  {
    if lines == [] then [] else [Synced(lines[0], args)] + SyncedLines(lines[1..], args)
  }

  predicate Present(lines: seq<string>, name: string) {
    exists i :: 0 <= i < |lines| && Sets(lines[i], name)
  }

  predicate AllPresent(lines: seq<string>, args: seq<Arg>) {
    forall i :: 0 <= i < |args| ==> Present(lines, args[i].name)
  }

  /** The file after a sync, or nothing when an ARG has no default to mirror into. */
  function SyncFile(lines: seq<string>, args: seq<Arg>): Option<seq<string>> {
    if AllPresent(lines, args) then Some(SyncedLines(lines, args)) else None
  }

  /** Every ARG has a default, and every default of it is the wanted one. */
  predicate Agrees(lines: seq<string>, args: seq<Arg>) {
    forall k :: 0 <= k < |args| ==>
      && Present(lines, args[k].name)
      && forall i :: 0 <= i < |lines| && Sets(lines[i], args[k].name) ==> lines[i] == ArgLine(args[k].name, args[k].value)
  }

  method SyncLine(line: string, args: seq<Arg>) returns (out: string, hits: set<string>)
    requires GoodArgs(args)
    ensures out == Synced(line, args)
    ensures forall k :: 0 <= k < |args| ==> (args[k].name in hits <==> Sets(line, args[k].name))
  {
    out, hits := line, {};
    assert args[0..] == args;
    for n := 0 to |args|
      invariant if hits == {} then out == line && Synced(line, args) == Synced(line, args[n..])
                else out == Synced(line, args) && exists k :: 0 <= k < n && Sets(line, args[k].name)
      invariant forall k :: 0 <= k < |args| ==> (args[k].name in hits <==> k < n && Sets(line, args[k].name))
    {
      assert args[n..][0] == args[n] && args[n..][1..] == args[n + 1..];
      if !Sets(line, args[n].name) {
        continue;
      }
      OneArgPerLine(line, args, n);
      hits := hits + {args[n].name};
      var wanted := ArgLine(args[n].name, args[n].value);
      if line != wanted {
        out := wanted;
      }
    }
    assert args[|args|..] == [];
  }

  method SyncDockerfileArgs(lines: seq<string>, args: seq<Arg>) returns (r: Option<seq<string>>)
    requires GoodArgs(args)
    ensures r == SyncFile(lines, args)
  {
    hide Synced, Sets;
    var out := lines;
    var seen: set<string> := {};
    for index := 0 to |lines|
      invariant |out| == |lines|
      invariant forall i :: 0 <= i < |lines| ==> out[i] == if i < index then Synced(lines[i], args) else lines[i]
      invariant forall k :: 0 <= k < |args| ==> (args[k].name in seen <==> Present(lines[..index], args[k].name))
    {
      var wanted, hits := SyncLine(lines[index], args);
      out := out[index := wanted];
      PresentSnoc(lines, index, args);
      seen := seen + hits;
    }
    assert lines[..|lines|] == lines;
    SyncedEverywhere(lines, out, args);
    for n := 0 to |args|
      invariant forall k :: 0 <= k < n ==> args[k].name in seen
    {
      if args[n].name !in seen {
        return None;
      }
    }
    return Some(out);
  }

  lemma SyncedEverywhere(lines: seq<string>, out: seq<string>, args: seq<Arg>)
    requires |out| == |lines| && forall i :: 0 <= i < |lines| ==> out[i] == Synced(lines[i], args)
    ensures out == SyncedLines(lines, args)
  {
    forall i | 0 <= i < |lines|
      ensures out[i] == SyncedLines(lines, args)[i]
    {
      SyncedAt(lines, args, i);
    }
  }

  lemma PresentSnoc(lines: seq<string>, index: nat, args: seq<Arg>)
    requires index < |lines|
    ensures forall k :: 0 <= k < |args| ==>
              (Present(lines[..index + 1], args[k].name) <==> Present(lines[..index], args[k].name) || Sets(lines[index], args[k].name))
  {
    hide Sets;
    forall k | 0 <= k < |args|
      ensures Present(lines[..index + 1], args[k].name) <==> Present(lines[..index], args[k].name) || Sets(lines[index], args[k].name)
    {
      assert lines[..index + 1][index] == lines[index];
      assert forall i :: 0 <= i < index ==> lines[..index + 1][i] == lines[..index][i];
    }
  }

  /** A line sets at most one of the names. */
  lemma OneName(line: string, a: string, b: string)
    requires '=' !in a && '=' !in b && Sets(line, a) && Sets(line, b)
    ensures a == b
  {
    var x, y := "ARG " + a, "ARG " + b;
    CutAtFirst(x, '=', line[|x| + 1..]);
    CutAtFirst(y, '=', line[|y| + 1..]);
    assert line == x + ['='] + line[|x| + 1..] by { assert Prefix(a) == x + ['=']; }
    assert line == y + ['='] + line[|y| + 1..] by { assert Prefix(b) == y + ['=']; }
    assert x == line[..|x|] && y == line[..|y|] && a == x[4..] && b == y[4..];
  }

  lemma OneArgPerLine(line: string, args: seq<Arg>, n: nat)
    requires GoodArgs(args) && n < |args| && Sets(line, args[n].name)
    ensures forall k :: 0 <= k < n ==> !Sets(line, args[k].name)
  {
    forall k | 0 <= k < n
      ensures !Sets(line, args[k].name)
    {
      if Sets(line, args[k].name) { OneName(line, args[k].name, args[n].name); }
    }
  }

  lemma {:induction false} SyncedArg(line: string, args: seq<Arg>, k: nat)
    requires GoodArgs(args) && k < |args|
    ensures Sets(line, args[k].name) ==> Synced(line, args) == ArgLine(args[k].name, args[k].value)
    ensures Sets(Synced(line, args), args[k].name) <==> Sets(line, args[k].name)
  {
    if Sets(line, args[0].name) {
      assert Sets(ArgLine(args[0].name, args[0].value), args[0].name);
      if k > 0 {
        if Sets(line, args[k].name) { OneName(line, args[0].name, args[k].name); }
        if Sets(Synced(line, args), args[k].name) { OneName(Synced(line, args), args[0].name, args[k].name); }
      }
    } else if k > 0 {
      assert forall i :: 0 <= i < |args[1..]| ==> args[1..][i] == args[i + 1];
      SyncedArg(line, args[1..], k - 1);
    } else {
      SyncedOther(line, args[1..], args[0].name);
    }
  }

  lemma {:induction false} SyncedOther(line: string, rest: seq<Arg>, name: string)
    requires '=' !in name && !Sets(line, name)
    requires forall i :: 0 <= i < |rest| ==> '=' !in rest[i].name && rest[i].name != name
    ensures !Sets(Synced(line, rest), name)
  {
    if rest != [] {
      if Sets(line, rest[0].name) {
        var wanted := ArgLine(rest[0].name, rest[0].value);
        assert Sets(wanted, rest[0].name);
        if Sets(wanted, name) { OneName(wanted, rest[0].name, name); }
      } else {
        SyncedOther(line, rest[1..], name);
      }
    }
  }

  lemma {:induction false} SyncedAt(lines: seq<string>, args: seq<Arg>, i: nat)
    requires i < |lines|
    ensures SyncedLines(lines, args)[i] == Synced(lines[i], args)
  {
    if i > 0 { SyncedAt(lines[1..], args, i - 1); }
  }

  /** After a sync the file agrees with the catalog, and every line that sets none of the ARGs is as it was. */
  lemma SyncAgrees(lines: seq<string>, args: seq<Arg>)
    requires GoodArgs(args) && SyncFile(lines, args).Some?
    ensures Agrees(SyncFile(lines, args).value, args)
    ensures forall i :: 0 <= i < |lines| && (forall k :: 0 <= k < |args| ==> !Sets(lines[i], args[k].name))
              ==> SyncFile(lines, args).value[i] == lines[i]
  {
    var after := SyncFile(lines, args).value;
    forall i | 0 <= i < |lines|
      ensures after[i] == Synced(lines[i], args)
    {
      SyncedAt(lines, args, i);
    }
    forall k | 0 <= k < |args|
      ensures Present(after, args[k].name)
      ensures forall i :: 0 <= i < |lines| && Sets(after[i], args[k].name) ==> after[i] == ArgLine(args[k].name, args[k].value)
    {
      forall i | 0 <= i < |lines|
        ensures Sets(after[i], args[k].name) <==> Sets(lines[i], args[k].name)
        ensures Sets(lines[i], args[k].name) ==> after[i] == ArgLine(args[k].name, args[k].value)
      {
        SyncedArg(lines[i], args, k);
      }
      assert Present(lines, args[k].name);
    }
    forall i | 0 <= i < |lines| && forall k :: 0 <= k < |args| ==> !Sets(lines[i], args[k].name)
      ensures after[i] == lines[i]
    {
      SyncedNone(lines[i], args);
    }
  }

  lemma {:induction false} SyncedNone(line: string, args: seq<Arg>)
    requires forall k :: 0 <= k < |args| ==> !Sets(line, args[k].name)
    ensures Synced(line, args) == line
  {
    if args != [] {
      assert forall i :: 0 <= i < |args[1..]| ==> args[1..][i] == args[i + 1];
      SyncedNone(line, args[1..]);
    }
  }

  /** The mirror is in step exactly when a sync would change nothing. */
  lemma AgreesIffStable(lines: seq<string>, args: seq<Arg>)
    requires GoodArgs(args)
    ensures Agrees(lines, args) <==> SyncFile(lines, args) == Some(lines)
  {
    if Agrees(lines, args) {
      hide Sets, ArgLine;
      forall i | 0 <= i < |lines|
        ensures Synced(lines[i], args) == lines[i]
      {
        if k :| 0 <= k < |args| && Sets(lines[i], args[k].name) {
          SyncedArg(lines[i], args, k);
        } else {
          SyncedNone(lines[i], args);
        }
      }
      SyncedEverywhere(lines, lines, args);
    }
    if SyncFile(lines, args) == Some(lines) { SyncAgrees(lines, args); }
  }
}
