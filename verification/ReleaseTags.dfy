/**
 Version bumps and the release tags that catalog entries stand for: the
 `bump-version`, `git-tag` and `branch-of-tag` commands of scripts/catalog.py.
 */
module ReleaseTags {
  import opened Text
  import opened Versions
  import opened Catalog
  import opened CatalogEdits
  import opened CatalogFinds
  import Watcher

  // ----- bumps

  /** `bump-version`: a new upstream version is revision 1. */
  function BumpVersion(decode: string -> Option<string>, lines: seq<string>, branch: string, version: string, sha: string): Option<seq<string>> {
    if !Watcher.Belongs(version, branch) then None
    else SetKeys(decode, lines, branch,
                 [Pair(Scalar("samba_version"), version), Pair(Scalar("tarball_sha256"), sha), Pair(Scalar("revision"), "1")])
  }

  // ----- tags

  function TagText(version: string, revision: string): string {
    version + "-r" + revision
  }

  /** A final line break passes unnoticed. */
  function Chomped(tag: string): string {
    if tag != "" && tag[|tag| - 1] == '\n' then tag[..|tag| - 1] else tag
  }

  /** A release tag taken apart: vX.Y.Z-rN, where a final line break passes unnoticed. */
  function ParseTag(tag: string): Option<(string, string)> {
    var t := Chomped(tag);
    if t == "" || t[0] != 'v' then None
    else
      match Cut(t[1..], '-')
      case None => None
      case Some((version, rest)) =>
        if rest != "" && rest[0] == 'r' && Watcher.Digits(rest[1..]) && Watcher.IsRelease(version) then Some((version, rest[1..])) else None
  }

  /** `branch-of-tag`: the series of the tag, when the catalog's entry for it is that version and revision. */
  function BranchOfTag(values: map<Address, string>, tag: string): Option<string> {
    match ParseTag(tag)
    case None => None
    case Some((version, revision)) =>
      var branch := Watcher.Series(version);
      var v, r := Pin(branch, Scalar("samba_version")), Pin(branch, Scalar("revision"));
      if v in values && r in values && values[v] == version && values[r] == revision then Some(branch) else None
  }

  /** What `git-tag` prints of a branch. */
  function GitTag(values: map<Address, string>, branch: string): Option<string> {
    var v, r := Pin(branch, Scalar("samba_version")), Pin(branch, Scalar("revision"));
    if v in values && r in values then Some("v" + TagText(values[v], values[r])) else None
  }

  lemma ReleaseHasNoDash(version: string)
    requires Watcher.IsRelease(version)
    ensures '-' !in version
  {
    var parts := SplitOn(version, '.');
    JoinSplit(version, '.');
    DashFree(parts);
  }

  lemma {:induction false} DashFree(parts: seq<string>)
    requires forall i :: 0 <= i < |parts| ==> AllDigits(parts[i])
    ensures '-' !in Join(parts, ".")
  {
    if parts != [] {
      assert '-' !in parts[0];
      DashFree(parts[1..]);
    }
  }

  lemma ChompedTag(tag: string, text: string)
    requires text != "" && text[|text| - 1] != '\n'
    ensures Chomped(tag) == text <==> tag == text || tag == text + "\n"
  {
    if tag == text + "\n" { assert tag[..|tag| - 1] == text; }
    if Chomped(tag) == text && tag != text { assert tag == tag[..|tag| - 1] + "\n"; }
  }

  lemma CutTag(t: string, version: string, revision: string)
    requires '-' !in version
    ensures t != "" && t[0] == 'v' && Cut(t[1..], '-') == Some((version, "r" + revision))
       <==> t == "v" + TagText(version, revision)
  {
    var text := "v" + TagText(version, revision);
    assert text[1..] == version + ['-'] + ("r" + revision);
    CutAtFirst(version, '-', "r" + revision);
    if t != "" {
      CutParts(t[1..], '-');
      assert t == [t[0]] + t[1..];
    }
  }

  /** Taking a tag apart inverts putting it together: tags name one version and one revision. */
  lemma ParseTagIff(tag: string, version: string, revision: string)
    ensures ParseTag(tag) == Some((version, revision)) <==>
              && Watcher.IsRelease(version) && Watcher.Digits(revision)
              && (tag == "v" + version + "-r" + revision || tag == "v" + version + "-r" + revision + "\n")
  {
    hide Watcher.IsRelease, AllDigits, Cut, TagText, Chomped;
    if Watcher.IsRelease(version) && Watcher.Digits(revision) {
      var t, text := Chomped(tag), "v" + TagText(version, revision);
      ReleaseHasNoDash(version);
      TagSpelledOut(version, revision);
      LastOfTag(version, revision);
      ChompedTag(tag, text);
      CutTag(t, version, revision);
      assert ("r" + revision)[1..] == revision && ("r" + revision)[0] == 'r';
      RestOfTag(t, revision);
    }
  }

  lemma TagSpelledOut(version: string, revision: string)
    ensures "v" + TagText(version, revision) == "v" + version + "-r" + revision
  {
  }

  lemma RestOfTag(t: string, revision: string)
    ensures forall rest: string :: rest != "" && rest[0] == 'r' && rest[1..] == revision ==> rest == "r" + revision
  {
    forall rest: string | rest != "" && rest[0] == 'r' && rest[1..] == revision
      ensures rest == "r" + revision
    {
      assert rest == [rest[0]] + rest[1..];
    }
  }

  lemma LastOfTag(version: string, revision: string)
    requires Watcher.Digits(revision)
    ensures var text := "v" + TagText(version, revision); text[|text| - 1] != '\n'
  {
    LastDigit(revision);
    var text := "v" + TagText(version, revision);
    assert text[|text| - 1] == revision[|revision| - 1];
  }

  lemma LastDigit(s: string)
    requires Watcher.Digits(s)
    ensures s[|s| - 1] != '\n'
  {
  }

  /**
   `branch-of-tag` answers a branch exactly for that branch's own git tag (or
   that tag and a line break), provided the entry holds a release of the branch
   and a number.
   */
  lemma BranchOfTagIff(values: map<Address, string>, tag: string, branch: string)
    ensures BranchOfTag(values, tag) == Some(branch) <==>
              && GitTag(values, branch).Some?
              && Watcher.Belongs(values[Pin(branch, Scalar("samba_version"))], branch)
              && Watcher.Digits(values[Pin(branch, Scalar("revision"))])
              && (tag == GitTag(values, branch).value || tag == GitTag(values, branch).value + "\n")
  {
    hide ParseTag, Watcher.IsRelease, Watcher.Series, AllDigits, TagText;
    forall version, revision
      ensures "v" + TagText(version, revision) == "v" + version + "-r" + revision
    {
      TagSpelledOut(version, revision);
    }
    var p := ParseTag(tag);
    if p.Some? { ParseTagIff(tag, p.value.0, p.value.1); }
    if GitTag(values, branch).Some? {
      ParseTagIff(tag, values[Pin(branch, Scalar("samba_version"))], values[Pin(branch, Scalar("revision"))]);
    }
  }

  /** Two branches never share a tag. */
  lemma TagsNeverCollide(values: map<Address, string>, a: string, b: string)
    requires GitTag(values, a).Some? && GitTag(values, a) == GitTag(values, b)
    requires Watcher.Belongs(values[Pin(a, Scalar("samba_version"))], a) && Watcher.Digits(values[Pin(a, Scalar("revision"))])
    requires Watcher.Belongs(values[Pin(b, Scalar("samba_version"))], b) && Watcher.Digits(values[Pin(b, Scalar("revision"))])
    ensures a == b
  {
    hide BranchOfTag, GitTag, Watcher.Belongs, AllDigits;
    BranchOfTagIff(values, GitTag(values, a).value, a);
    BranchOfTagIff(values, GitTag(values, a).value, b);
  }

  /**
   After a version bump the branch's git tag is the new version's first
   revision, that tag leads back to the branch, and every other branch has the
   tag it had.
   */
  lemma BumpedTag(decode: string -> Option<string>, lines: seq<string>, branch: string, version: string, sha: string, other: string)
    requires Load(decode, lines).Some? && BumpVersion(decode, lines, branch, version, sha).Some?
    ensures var out := BumpVersion(decode, lines, branch, version, sha).value;
            && Load(decode, out).Some?
            && var after := Load(decode, out).value.values;
               && GitTag(after, branch) == Some("v" + version + "-r1")
               && BranchOfTag(after, "v" + version + "-r1") == Some(branch)
               && (other != branch ==> GitTag(after, other) == GitTag(Load(decode, lines).value.values, other))
  {
    hide Load, SetKeys, Watcher.Belongs, BranchOfTag;
    var pairs := [Pair(Scalar("samba_version"), version), Pair(Scalar("tarball_sha256"), sha), Pair(Scalar("revision"), "1")];
    SetKeysRefinesUpdate(decode, lines, branch, pairs);
    var before := Load(decode, lines).value.values;
    var after := Load(decode, BumpVersion(decode, lines, branch, version, sha).value).value.values;
    BumpUpdates(before, branch, version, sha, pairs);
    assert "v" + version + "-r1" == "v" + TagText(version, "1");
    BranchOfTagIff(after, "v" + version + "-r1", branch);
  }

  /** A version bump writes the version, the checksum of its tarball and revision 1, and no other pair of any branch. */
  lemma BumpWrites(decode: string -> Option<string>, lines: seq<string>, branch: string, version: string, sha: string)
    requires Load(decode, lines).Some? && BumpVersion(decode, lines, branch, version, sha).Some?
    ensures var out := BumpVersion(decode, lines, branch, version, sha).value;
            && Watcher.Belongs(version, branch) && Load(decode, out).Some?
            && Load(decode, out).value.values
               == Load(decode, lines).value.values[Pin(branch, Scalar("samba_version")) := version]
                    [Pin(branch, Scalar("tarball_sha256")) := sha][Pin(branch, Scalar("revision")) := "1"]
  {
    hide Load, SetKeys, Watcher.Belongs;
    var pairs := [Pair(Scalar("samba_version"), version), Pair(Scalar("tarball_sha256"), sha), Pair(Scalar("revision"), "1")];
    SetKeysRefinesUpdate(decode, lines, branch, pairs);
    BumpUpdates(Load(decode, lines).value.values, branch, version, sha, pairs);
  }

  /** A bump to a release of the branch is accepted when its three edits are, one after the other, and has their outcome. */
  lemma BumpAccepted(decode: string -> Option<string>, lines: seq<string>, branch: string, version: string, sha: string)
    requires Catalog.Plain(branch) && Load(decode, lines).Some? && Watcher.Belongs(version, branch)
    ensures var one := SetKeys(decode, lines, branch, [Pair(Scalar("samba_version"), version)]);
            one.Some? ==>
              var two := SetKeys(decode, one.value, branch, [Pair(Scalar("tarball_sha256"), sha)]);
              two.Some? ==>
                var three := SetKeys(decode, two.value, branch, [Pair(Scalar("revision"), "1")]);
                three.Some? ==> BumpVersion(decode, lines, branch, version, sha) == three
  {
    hide Load, SetKeys, Watcher.Belongs;
    var p, q, r := Pair(Scalar("samba_version"), version), Pair(Scalar("tarball_sha256"), sha), Pair(Scalar("revision"), "1");
    var one := SetKeys(decode, lines, branch, [p]);
    if one.Some? {
      SetKeysRefinesUpdate(decode, lines, branch, [p]);
      var two := SetKeys(decode, one.value, branch, [q]);
      if two.Some? && SetKeys(decode, two.value, branch, [r]).Some? {
        EditsCompose(decode, one.value, branch, q, [r]);
        assert [q] + [r] == [q, r] && [p] + [q, r] == [p, q, r];
        EditsCompose(decode, lines, branch, p, [q, r]);
      }
    }
  }

  /** What `git-tag` prints is v, the pinned version, -r and the revision. */
  lemma GitTagIs(values: map<Address, string>, branch: string)
    ensures GitTag(values, branch).Some? <==> Pin(branch, Scalar("samba_version")) in values && Pin(branch, Scalar("revision")) in values
    ensures GitTag(values, branch).Some? ==>
              GitTag(values, branch).value == "v" + values[Pin(branch, Scalar("samba_version"))] + "-r" + values[Pin(branch, Scalar("revision"))]
  {
    hide TagText;
    if GitTag(values, branch).Some? {
      TagSpelledOut(values[Pin(branch, Scalar("samba_version"))], values[Pin(branch, Scalar("revision"))]);
    }
  }

  lemma BumpUpdates(values: map<Address, string>, branch: string, version: string, sha: string, pairs: seq<Pair>)
    requires pairs == [Pair(Scalar("samba_version"), version), Pair(Scalar("tarball_sha256"), sha), Pair(Scalar("revision"), "1")]
    ensures Updated(values, branch, pairs)
         == values[Pin(branch, Scalar("samba_version")) := version][Pin(branch, Scalar("tarball_sha256")) := sha][Pin(branch, Scalar("revision")) := "1"]
  {
    var one, two := [pairs[0]], [pairs[0], pairs[1]];
    assert pairs[..2] == two && two[..1] == one && one[..0] == [];
    assert Updated(values, branch, one) == values[Pin(branch, pairs[0].key) := version];
    assert Updated(values, branch, two) == Updated(values, branch, one)[Pin(branch, pairs[1].key) := sha];
  }
}
