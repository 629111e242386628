/**
 The release watcher of scripts/watch.py: the decision table for one branch,
 and carrying the decisions out on the catalog, the build state, the
 Dockerfile mirror and the changelog.

 Probing upstream, the registry and the remote is the environment's part.
 Time is a real number of hours.
 */
module Watcher {
  import opened Text
  import opened Versions
  import Docker = Dockerfile

  // ----- the catalog and the build state

  datatype Ref = Ref(name: string, digest: string)

  datatype Entry = Entry(
    version: string, revision: nat, sha: string, runtime: Ref, builder: Ref, gobuild: Ref, pkg: string)

  datatype Tag = Tag(version: string, revision: nat)

  function TagOf(e: Entry): Tag {
    Tag(e.version, e.revision)
  }

  /** Digests and closure hash of a branch; the empty text is the absence of an answer. */
  datatype Seen = Seen(runtime: string, builder: string, gobuild: string, pkg: string)

  const NOTHING := Seen("", "", "", "")

  predicate Complete(s: Seen) {
    s.runtime != "" && s.builder != "" && s.gobuild != "" && s.pkg != ""
  }

  datatype Pending = Pending(version: string, firstSeen: real)

  datatype BranchState = BranchState(seen: Seen, pending: Option<Pending>, publishedTag: Option<Tag>)

  // ----- the decision table

  datatype Action = Rest | VersionBump | RevisionBump | Publish

  datatype Cause = NoCause | SambaRelease | BaseDigest | PkgUpdate | FirstPublication

  datatype Decision = Decision(
    action: Action, cause: Cause, version: string, tag: Tag, seen: Seen, pending: Option<Pending>, clearPending: bool)

  /** What one run observes of one branch: the newest upstream version, "" for no listing, and the probes. */
  datatype Observation = Observation(latest: string, seen: Seen)

  datatype Policy = Policy(now: real, soakHours: real, security: bool)

  function Required(p: Policy): real {
    if p.security then 0.0 else p.soakHours
  }

  /** The first sighting that counts for this version: a record for another one is not its clock. */
  function FirstSeen(s: BranchState, latest: string): Option<real> {
    if s.pending.Some? && s.pending.value.version == latest then Some(s.pending.value.firstSeen) else None
  }

  function SelfHeal(d: Decision, current: Tag, published: set<Tag>): Decision {
    if current !in published then d.(action := Publish, cause := FirstPublication) else d
  }

  predicate IsNewer(o: Observation, e: Entry) {
    o.latest != "" && Newer(o.latest, e.version)
  }

  predicate BaseMoved(s: Seen, o: Seen) {
    || (o.runtime != "" && o.runtime != s.runtime)
    || (o.builder != "" && o.builder != s.builder)
    || (o.gobuild != "" && o.gobuild != s.gobuild)
  }

  function Decide(e: Entry, s: BranchState, o: Observation, published: set<Tag>, p: Policy): Decision {
    var current := TagOf(e);
    var d := Decision(Rest, NoCause, e.version, current, NOTHING, None, false);
    if IsNewer(o, e) then
      var release := d.(action := VersionBump, cause := SambaRelease, version := o.latest, tag := Tag(o.latest, 1),
                        clearPending := true, seen := o.seen);
      if Required(p) > 0.0 then
        match FirstSeen(s, o.latest)
        case None => d.(pending := Some(Pending(o.latest, p.now)))
        case Some(first) => if Required(p) - (p.now - first) > 0.0 then d else release
      else release
    else
      var d := if s.pending.Some? && o.latest != "" then d.(clearPending := true) else d;
      if s.seen == NOTHING && current !in published then SelfHeal(d.(seen := o.seen), current, published)
      else if BaseMoved(s.seen, o.seen) then d.(action := RevisionBump, cause := BaseDigest, seen := o.seen)
      else if o.seen.pkg != "" && o.seen.pkg != s.seen.pkg then d.(action := RevisionBump, cause := PkgUpdate, seen := o.seen)
      else SelfHeal(d, current, published)
  }

  /** Some base that the probes answered for differs from the one remembered. */
  predicate SomeBaseDiffers(s: Seen, o: Seen) {
    o.runtime !in {"", s.runtime} || o.builder !in {"", s.builder} || o.gobuild !in {"", s.gobuild}
  }

  /**
   The decision table in full. A newer release is taken at once by a security
   run and without a soak, and otherwise when its own record is old enough;
   while it is waited for nothing else is done. Without one, an unpublished
   branch that was never observed is published, then moved bases and moved
   packages are rebuilt, then an unpublished tag is published.
   */
  lemma DecisionTable(e: Entry, s: BranchState, o: Observation, published: set<Tag>, p: Policy)
    ensures var d := Decide(e, s, o, published, p);
            var newer := o.latest != "" && Newer(o.latest, e.version);
            var recorded := s.pending.Some? && s.pending.value.version == o.latest;
            var waited := recorded && p.now - s.pending.value.firstSeen >= p.soakHours;
            var unpublished := Tag(e.version, e.revision) !in published;
            var unseen := s.seen == NOTHING && unpublished;
            var moved := SomeBaseDiffers(s.seen, o.seen);
            var rebuilt := o.seen.pkg !in {"", s.seen.pkg};
            && (d.action == VersionBump <==> newer && (p.security || p.soakHours <= 0.0 || waited))
            && (d.pending.Some? <==> newer && !p.security && p.soakHours > 0.0 && !recorded)
            && (d.pending.Some? ==> d.pending == Some(Pending(o.latest, p.now)) && d.action == Rest)
            && (d.action == RevisionBump <==> !newer && !unseen && (moved || rebuilt))
            && (d.action == Publish <==> !newer && unpublished && (unseen || !(moved || rebuilt)))
            && d.cause == (if d.action == VersionBump then SambaRelease
                           else if d.action == Publish then FirstPublication
                           else if d.action == Rest then NoCause
                           else if moved then BaseDigest else PkgUpdate)
            && d.version == (if d.action == VersionBump then o.latest else e.version)
            && d.tag == (if d.action == VersionBump then Tag(o.latest, 1) else Tag(e.version, e.revision))
            && d.seen == (if Bumps(d) || (unseen && !newer) then o.seen else NOTHING)
            && (d.clearPending <==> d.action == VersionBump || (!newer && s.pending.Some? && o.latest != ""))
  {
    hide Newer;
  }

  // ----- versions that belong to a branch

  predicate IsRelease(v: string) {
    var parts := SplitOn(v, '.');
    |parts| == 3 && forall i :: 0 <= i < 3 ==> parts[i] != "" && AllDigits(parts[i])
  }

  /** The series of a release: its first two numbers. */
  function Series(v: string): string {
    var parts := SplitOn(v, '.');
    if |parts| < 2 then v else parts[0] + "." + parts[1]
  }

  predicate Belongs(v: string, branch: string) {
    IsRelease(v) && Series(v) == branch
  }

  predicate Digits(s: string) {
    s != "" && AllDigits(s)
  }

  /** A release belongs to the branch that its first two numbers name, and to no other. */
  lemma BelongsIff(v: string, branch: string)
    ensures Belongs(v, branch) <==>
              exists a, b, c {:trigger a + "." + b + "." + c} ::
                Digits(a) && Digits(b) && Digits(c) && v == a + "." + b + "." + c && branch == a + "." + b
  {
    hide AllDigits;
    if Belongs(v, branch) {
      var p := SplitOn(v, '.');
      JoinSplit(v, '.');
      assert p == [p[0], p[1], p[2]];
      JoinDots(p[0], p[1], p[2]);
      assert v == p[0] + "." + p[1] + "." + p[2];
    }
    if a, b, c :| Digits(a) && Digits(b) && Digits(c) && v == a + "." + b + "." + c && branch == a + "." + b {
      DigitsNoDot(a);
      DigitsNoDot(b);
      DigitsNoDot(c);
      SplitJoin([a, b, c], '.');
      JoinDots(a, b, c);
      assert SplitOn(v, '.') == [a, b, c];
    }
  }

  lemma DigitsNoDot(s: string)
    requires AllDigits(s)
    ensures '.' !in s
  {
  }

  // ----- carrying one decision out

  function Pinned(r: Ref, digest: string): Ref {
    if digest == "" then r else r.(digest := digest)
  }

  function WithPins(e: Entry, s: Seen): Entry {
    e.(runtime := Pinned(e.runtime, s.runtime), builder := Pinned(e.builder, s.builder),
       gobuild := Pinned(e.gobuild, s.gobuild), pkg := if s.pkg == "" then e.pkg else s.pkg)
  }

  function EntryAfter(e: Entry, d: Decision, sha: string): Entry {
    var bumped :=
      match d.action
      case VersionBump => e.(version := d.version, sha := sha, revision := 1)
      case RevisionBump => e.(revision := e.revision + 1)
      case _ => e;
    WithPins(bumped, d.seen)
  }

  function Remembered(s: Seen, o: Seen): Seen {
    Seen(if o.runtime == "" then s.runtime else o.runtime, if o.builder == "" then s.builder else o.builder,
         if o.gobuild == "" then s.gobuild else o.gobuild, if o.pkg == "" then s.pkg else o.pkg)
  }

  /** The tag a decision dispatches. */
  function Dispatched(e: Entry, d: Decision): Option<Tag> {
    match d.action
    case VersionBump => Some(Tag(d.version, 1))
    case RevisionBump => Some(Tag(e.version, e.revision + 1))
    case Publish => Some(d.tag)
    case Rest => None
  }

  function StateAfter(s: BranchState, e: Entry, d: Decision): BranchState {
    BranchState(
      Remembered(s.seen, d.seen),
      if d.pending.Some? then d.pending else if d.clearPending then None else s.pending,
      if Dispatched(e, d).Some? then Dispatched(e, d) else s.publishedTag)
  }

  predicate Bumps(d: Decision) {
    d.action == VersionBump || d.action == RevisionBump
  }

  /** The ARG defaults that mirror an entry of the catalog. */
  function MirrorArgs(e: Entry): seq<Docker.Arg> {
    [Docker.Arg("SAMBA_VERSION", e.version), Docker.Arg("SAMBA_TARBALL_SHA256", e.sha),
     Docker.Arg("BUILDER_BASE", RefText(e.builder)), Docker.Arg("RUNTIME_BASE", RefText(e.runtime)),
     Docker.Arg("GOBUILD_BASE", RefText(e.gobuild)), Docker.Arg("BASE_NAME", e.runtime.name),
     Docker.Arg("BASE_DIGEST", e.runtime.digest)]
  }

  function RefText(r: Ref): string {
    if r.digest == "" then r.name else r.name + "@" + r.digest
  }

  datatype Repo = Repo(
    defaultBranch: string, catalog: map<string, Entry>, state: map<string, BranchState>,
    docker: seq<string>, changelog: set<Tag>)

  function StateOf(r: Repo, branch: string): BranchState {
    if branch in r.state then r.state[branch] else BranchState(NOTHING, None, None)
  }

  /**
   How the commands of one decision fare, by branch and version: the checksum
   of the verified tarball, or nothing when the verification or one of the
   edits fails.
   */
  type Steps = (string, string) -> Option<string>

  function ShaOf(step: Option<string>): string {
    if step.Some? then step.value else ""
  }

  /** Everything the branch remembers is what the catalog pins. */
  predicate Agree(e: Entry, s: Seen) {
    && (s.runtime == "" || s.runtime == e.runtime.digest)
    && (s.builder == "" || s.builder == e.builder.digest)
    && (s.gobuild == "" || s.gobuild == e.gobuild.digest)
    && (s.pkg == "" || s.pkg == e.pkg)
  }

  /**
   What stops a decision: a command that fails; and for a bump a released tag, a
   foreign version, an unpinned base, a missing ARG, a listed tag.
   */
  function ApplyOne(r: Repo, branch: string, d: Decision, remote: set<Tag>, sha: Option<string>): Option<Repo>
    requires branch in r.catalog
  {
    var e, s := r.catalog[branch], StateOf(r, branch);
    var after := EntryAfter(e, d, ShaOf(sha));
    var edited := r.(catalog := r.catalog[branch := after], state := r.state[branch := StateAfter(s, e, d)]);
    if sha.None? then None
    else if !Bumps(d) then Some(edited)
    else if Dispatched(e, d).value in remote then None
    else if d.action == VersionBump && !Belongs(d.version, branch) then None
    else if TagOf(after) in r.changelog then None
    else
      var listed := edited.(changelog := r.changelog + {TagOf(after)});
      if branch != r.defaultBranch then Some(listed)
      else if after.runtime.digest == "" then None
      else
        match Docker.SyncFile(r.docker, MirrorArgs(after))
        case None => None
        case Some(lines) => Some(listed.(docker := lines))
  }

  /**
   When a decision is carried out: its commands succeed, and a bump names a tag
   that is neither on the remote nor in the changelog, of a release of the
   branch, and for the default branch on a pinned base with every mirrored ARG.
   */
  lemma CarriedOutIff(r: Repo, branch: string, d: Decision, remote: set<Tag>, sha: Option<string>)
    requires branch in r.catalog
    ensures var tag := if d.action == VersionBump then Tag(d.version, 1) else Tag(r.catalog[branch].version, r.catalog[branch].revision + 1);
            var runtime := if d.seen.runtime == "" then r.catalog[branch].runtime.digest else d.seen.runtime;
            ApplyOne(r, branch, d, remote, sha).Some? <==>
              && sha.Some?
              && (Bumps(d) ==>
                    && tag !in remote && tag !in r.changelog
                    && (d.action == VersionBump ==> Belongs(d.version, branch))
                    && (branch == r.defaultBranch ==> runtime != "" && Docker.AllPresent(r.docker, MirrorArgs(r.catalog[branch]))))
  {
    hide Belongs, MirrorArgs, Docker.AllPresent, Docker.SyncedLines;
    PresentByName(r.docker, r.catalog[branch], EntryAfter(r.catalog[branch], d, ShaOf(sha)));
  }

  lemma PresentByName(lines: seq<string>, e: Entry, f: Entry)
    ensures Docker.AllPresent(lines, MirrorArgs(e)) <==> Docker.AllPresent(lines, MirrorArgs(f))
  {
    hide RefText, Docker.Present;
    var x, y := MirrorArgs(e), MirrorArgs(f);
    assert |x| == |y| && forall k :: 0 <= k < |x| ==> x[k].name == y[k].name;
    assert (forall i :: 0 <= i < |x| ==> Docker.Present(lines, x[i].name)) <==> (forall i :: 0 <= i < |y| ==> Docker.Present(lines, y[i].name));
  }

  datatype Job = Job(branch: string, decision: Decision)

  /** Carrying a list of decisions out: the repository, and the tags to dispatch, or nothing at all. */
  function ApplyAll(r: Repo, jobs: seq<Job>, remote: set<Tag>, steps: Steps): Option<(Repo, seq<Tag>)>
    requires forall j :: j in jobs ==> j.branch in r.catalog
    decreases |jobs|
  {
    if jobs == [] then Some((r, []))
    else
      var j := jobs[0];
      match ApplyOne(r, j.branch, j.decision, remote, steps(j.branch, j.decision.version))
      case None => None
      case Some(next) =>
        match ApplyAll(next, jobs[1..], remote, steps)
        case None => None
        case Some((last, tags)) =>
          var t := Dispatched(r.catalog[j.branch], j.decision);
          Some((last, (if t.Some? then [t.value] else []) + tags))
  }

  /**
   A whole run. A decision that names a branch the catalog does not have stops
   it before anything is edited; a README matrix that cannot be rewritten stops
   it at the end.
   */
  function Carried(r: Repo, jobs: seq<Job>, remote: set<Tag>, steps: Steps, matrix: bool): Option<(Repo, seq<Tag>)> {
    if (forall j :: j in jobs ==> j.branch in r.catalog) && matrix then ApplyAll(r, jobs, remote, steps) else None
  }

  function Without(tags: seq<Tag>, remote: set<Tag>): seq<Tag> {
    if tags == [] then [] else (if tags[0] in remote then [] else [tags[0]]) + Without(tags[1..], remote)
  }

  datatype Outputs = Outputs(tags: seq<Tag>, newTags: seq<Tag>, existing: seq<Tag>)

  /**
   The catalog edits of one decision, key by key. The entry then names the tag
   that a bump dispatches, pins the verified tarball's checksum on a version
   bump and no other otherwise, pins everything the decision observed, and
   agrees with what will be remembered if it agreed with what was.
   */
  method Rewrite(e: Entry, d: Decision, sha: string) returns (after: Entry)
    ensures after == EntryAfter(e, d, sha)
    ensures if Bumps(d) then Some(TagOf(after)) == Dispatched(e, d) else TagOf(after) == TagOf(e)
    ensures after.sha == if d.action == VersionBump then sha else e.sha
    ensures Agree(after, d.seen)
    ensures forall s: Seen :: Agree(e, s) ==> Agree(after, Remembered(s, d.seen))
    ensures after.runtime.name == e.runtime.name && after.builder.name == e.builder.name && after.gobuild.name == e.gobuild.name
  {
    after := e;
    match d.action {
      case VersionBump =>
        after := after.(version := d.version, sha := sha, revision := 1);
      case RevisionBump =>
        after := after.(revision := e.revision + 1);
      case _ =>
    }
    if d.seen.pkg != "" {
      after := after.(pkg := d.seen.pkg);
    }
    if d.seen.runtime != "" {
      after := after.(runtime := e.runtime.(digest := d.seen.runtime));
    }
    if d.seen.builder != "" {
      after := after.(builder := e.builder.(digest := d.seen.builder));
    }
    if d.seen.gobuild != "" {
      after := after.(gobuild := e.gobuild.(digest := d.seen.gobuild));
    }
  }

  /** The build-state edits of one decision. What is remembered agrees with any entry that both the old memory and the observation agree with. */
  method Remember(s: BranchState, d: Decision, tag: Option<Tag>) returns (after: BranchState)
    ensures after == BranchState(Remembered(s.seen, d.seen),
                                 if d.pending.Some? then d.pending else if d.clearPending then None else s.pending,
                                 if tag.Some? then tag else s.publishedTag)
    ensures forall e: Entry :: Agree(e, s.seen) && Agree(e, d.seen) ==> Agree(e, after.seen)
    ensures Remembered(after.seen, d.seen) == after.seen
  {
    after := s;
    if d.clearPending {
      after := after.(pending := None);
    }
    if d.pending.Some? {
      after := after.(pending := d.pending);
    }
    after := after.(seen := Remembered(s.seen, d.seen));
    if tag.Some? {
      after := after.(publishedTag := tag);
    }
  }

  /** Which of the dispatched tags are to be created, and which are on the remote already. */
  method SplitTags(tags: seq<Tag>, remote: set<Tag>) returns (newTags: seq<Tag>, existing: seq<Tag>)
    ensures newTags == Without(tags, remote)
    ensures forall t :: t in existing <==> t in tags && t in remote
  {
    hide Without;
    newTags, existing := [], [];
    assert tags[0..] == tags;
    for i := 0 to |tags|
      invariant newTags + Without(tags[i..], remote) == Without(tags, remote)
      invariant forall t :: t in existing <==> t in tags[..i] && t in remote
    {
      WithoutNext(tags, i, remote, newTags);
      assert tags[..i + 1] == tags[..i] + [tags[i]];
      if tags[i] in remote {
        existing := existing + [tags[i]];
      } else {
        newTags := newTags + [tags[i]];
      }
    }
    WithoutNothing(remote);
    assert tags[|tags|..] == [] && tags[..|tags|] == tags && newTags + [] == newTags;
  }

  lemma WithoutNext(tags: seq<Tag>, i: nat, remote: set<Tag>, done: seq<Tag>)
    requires i < |tags|
    ensures done + Without(tags[i..], remote)
         == (if tags[i] in remote then done else done + [tags[i]]) + Without(tags[i + 1..], remote)
  {
    assert tags[i..][0] == tags[i] && tags[i..][1..] == tags[i + 1..];
  }

  lemma WithoutNothing(remote: set<Tag>)
    ensures Without([], remote) == []
  {
  }

  /** The working tree the watcher edits. */
  class WorkingTree {
    const defaultBranch: string
    var catalog: map<string, Entry>
    var state: map<string, BranchState>
    var docker: seq<string>
    var changelog: set<Tag>

    constructor (r: Repo)
      ensures View() == r
    {
      defaultBranch, catalog, state, docker, changelog := r.defaultBranch, r.catalog, r.state, r.docker, r.changelog;
    }

    function View(): Repo
      reads this
    {
      Repo(defaultBranch, catalog, state, docker, changelog)
    }

    /** One decision. A refusal may leave edits behind; the run that made them commits nothing. */
    method Carry(branch: string, d: Decision, remote: set<Tag>, sha: Option<string>) returns (tag: Option<Tag>, refused: bool)
      requires branch in catalog
      modifies this
      ensures refused <==> ApplyOne(old(View()), branch, d, remote, sha).None?
      ensures !refused ==> Some(View()) == ApplyOne(old(View()), branch, d, remote, sha)
      ensures !refused ==> tag == Dispatched(old(catalog)[branch], d)
    {
      hide Docker.SyncFile, Belongs, MirrorArgs, EntryAfter, Remembered;
      var entry, s := catalog[branch], StateOf(View(), branch);
      tag, refused := Dispatched(entry, d), true;
      if Bumps(d) && tag.value in remote {
        return;
      }
      if sha.None? {
        return;
      }
      if d.action == VersionBump && !Belongs(d.version, branch) {
        return;
      }
      var after := Rewrite(entry, d, ShaOf(sha));
      catalog := catalog[branch := after];
      if branch == defaultBranch && Bumps(d) {
        if after.runtime.digest == "" {
          return;
        }
        var lines := Docker.SyncFile(docker, MirrorArgs(after));
        if lines.None? {
          return;
        }
        docker := lines.value;
      }
      if Bumps(d) {
        if TagOf(after) in changelog {
          return;
        }
        changelog := changelog + {TagOf(after)};
      }
      var remembered := Remember(s, d, tag);
      state := state[branch := remembered];
      refused := false;
    }

    /** Every decision in order; the first refusal stops the run. */
    method Apply(jobs: seq<Job>, remote: set<Tag>, steps: Steps, matrix: bool) returns (out: Option<Outputs>)
      modifies this
      ensures (exists j :: j in jobs && j.branch !in old(catalog)) ==> out.None? && View() == old(View())
      ensures !matrix ==> out.None?
      ensures match Carried(old(View()), jobs, remote, steps, matrix)
              case None => out.None?
              case Some((after, tags)) =>
                && View() == after && out.Some? && out.value.tags == tags
                && out.value.newTags == Without(tags, remote)
                && forall t :: t in out.value.existing <==> t in tags && t in remote
    {
      hide ApplyOne, ApplyAll, Dispatched;
      for i := 0 to |jobs|
        invariant View() == old(View())
        invariant forall k :: 0 <= k < i ==> jobs[k].branch in catalog
      {
        if jobs[i].branch !in catalog {
          assert jobs[i] in jobs;
          return None;
        }
      }
      var tags: seq<Tag> := [];
      ghost var before := View();
      ContinuesStart(before, jobs, remote, steps);
      for i := 0 to |jobs|
        invariant Continues(before, jobs, View(), tags, i, remote, steps)
      {
        ContinuesStep(before, jobs, View(), tags, i, remote, steps);
        assert jobs[i] in jobs;
        var tag, refused := Carry(jobs[i].branch, jobs[i].decision, remote, steps(jobs[i].branch, jobs[i].decision.version));
        if refused {
          return None;
        }
        tags := tags + (if tag.Some? then [tag.value] else []);
      }
      ContinuesEnd(before, jobs, View(), tags, remote, steps);
      if !matrix {
        return None;
      }
      var newTags, existing := SplitTags(tags, remote);
      return Some(Outputs(tags, newTags, existing));
    }
  }

  /** What is left of a list of jobs leads to the same end as the whole list. */
  ghost predicate Continues(before: Repo, jobs: seq<Job>, now: Repo, tags: seq<Tag>, i: nat, remote: set<Tag>, steps: Steps)
    requires i <= |jobs|
  {
    && (forall j :: j in jobs ==> j.branch in before.catalog && j.branch in now.catalog)
    && match (ApplyAll(before, jobs, remote, steps), ApplyAll(now, jobs[i..], remote, steps))
       case (None, None) => true
       case (Some((a, all)), Some((b, rest))) => a == b && all == tags + rest
       case _ => false
  }

  lemma ContinuesStep(before: Repo, jobs: seq<Job>, now: Repo, tags: seq<Tag>, i: nat, remote: set<Tag>, steps: Steps)
    requires i < |jobs| && Continues(before, jobs, now, tags, i, remote, steps)
    ensures match ApplyOne(now, jobs[i].branch, jobs[i].decision, remote, steps(jobs[i].branch, jobs[i].decision.version))
            case None => ApplyAll(before, jobs, remote, steps).None?
            case Some(next) =>
              Continues(before, jobs, next,
                        tags + (var t := Dispatched(now.catalog[jobs[i].branch], jobs[i].decision); if t.Some? then [t.value] else []),
                        i + 1, remote, steps)
  {
    hide ApplyOne, Dispatched;
    assert jobs[i..][0] == jobs[i] && jobs[i..][1..] == jobs[i + 1..];
    var next := ApplyOne(now, jobs[i].branch, jobs[i].decision, remote, steps(jobs[i].branch, jobs[i].decision.version));
    assert jobs[i] in jobs;
    if next.Some? {
      ApplyOneKeys(now, jobs[i].branch, jobs[i].decision, remote, steps(jobs[i].branch, jobs[i].decision.version));
      assert forall j :: j in jobs[i + 1..] ==> j in jobs;
      var t := Dispatched(now.catalog[jobs[i].branch], jobs[i].decision);
      var head := if t.Some? then [t.value] else [];
      var rest := ApplyAll(next.value, jobs[i + 1..], remote, steps);
      if rest.Some? { assert tags + (head + rest.value.1) == tags + head + rest.value.1; }
    }
  }

  lemma ApplyOneKeys(r: Repo, branch: string, d: Decision, remote: set<Tag>, sha: Option<string>)
    requires branch in r.catalog && ApplyOne(r, branch, d, remote, sha).Some?
    ensures ApplyOne(r, branch, d, remote, sha).value.catalog.Keys == r.catalog.Keys
    ensures ApplyOne(r, branch, d, remote, sha).value.defaultBranch == r.defaultBranch
  {
    hide EntryAfter, StateAfter, Belongs, Docker.SyncFile, MirrorArgs;
  }

  lemma ContinuesStart(before: Repo, jobs: seq<Job>, remote: set<Tag>, steps: Steps)
    requires forall j :: j in jobs ==> j.branch in before.catalog
    ensures Continues(before, jobs, before, [], 0, remote, steps)
  {
    hide ApplyAll;
    assert jobs[0..] == jobs;
    var all := ApplyAll(before, jobs, remote, steps);
    if all.Some? { assert [] + all.value.1 == all.value.1; }
  }

  lemma ContinuesEnd(before: Repo, jobs: seq<Job>, now: Repo, tags: seq<Tag>, remote: set<Tag>, steps: Steps)
    requires Continues(before, jobs, now, tags, |jobs|, remote, steps)
    ensures ApplyAll(before, jobs, remote, steps) == Some((now, tags))
  {
    assert jobs[|jobs|..] == [] && tags + [] == tags;
  }
}
