/**
 Whole histories of the release watcher: what the soak, the tags, the pins
 and the Dockerfile mirror keep over any sequence of runs, whatever upstream,
 the registry, the remote and the clock do in between.

 A run works on a fresh checkout. Unless every step succeeds and the result
 is pushed, it leaves no trace: the next run starts from the same checkout.
 */
module WatcherRuns {
  import opened Text
  import opened Versions
  import opened Watcher
  import Docker = Dockerfile

  datatype Run = Run(
    policy: Policy,
    observed: map<string, Observation>,
    published: set<Tag>,
    steps: Steps,
    matrix: bool,            // the README matrix is rewritten
    goesThrough: bool,       // the probes give an observation, and the commit and the push are accepted
    others: set<Tag>)        // tags that reach the remote from elsewhere by the next run

  datatype Sys = Sys(repo: Repo, remote: set<Tag>)

  function Observed(run: Run, b: string): Observation {
    if b in run.observed then run.observed[b] else Observation("", NOTHING)
  }

  function Decided(s: Sys, run: Run, b: string): Decision
    requires b in s.repo.catalog
  {
    Decide(s.repo.catalog[b], StateOf(s.repo, b), Observed(run, b), run.published, run.policy)
  }

  /** The branches of the catalog, each once, in the order in which they are planned. */
  predicate Enumerates(order: seq<string>, r: Repo) {
    && (forall b :: b in order ==> b in r.catalog)
    && (forall b :: b in r.catalog ==> b in order)
    && (forall i, j :: 0 <= i < j < |order| ==> order[i] != order[j])
  }

  function Jobs(s: Sys, order: seq<string>, run: Run): (jobs: seq<Job>)
    requires forall b :: b in order ==> b in s.repo.catalog
    ensures |jobs| == |order|
    ensures forall i :: 0 <= i < |jobs| ==> jobs[i] == Job(order[i], Decided(s, run, order[i]))
  {
    hide Decide;
    seq(|order|, i requires 0 <= i < |order| => assert order[i] in order; Job(order[i], Decided(s, run, order[i])))
  }

  function Outcome(s: Sys, order: seq<string>, run: Run): Option<(Repo, seq<Tag>)>
    requires Enumerates(order, s.repo)
  {
    if run.goesThrough then Carried(s.repo, Jobs(s, order, run), s.remote, run.steps, run.matrix) else None
  }

  lemma {:induction false} ApplyAllShape(r: Repo, jobs: seq<Job>, remote: set<Tag>, steps: Steps)
    requires forall j :: j in jobs ==> j.branch in r.catalog
    requires ApplyAll(r, jobs, remote, steps).Some?
    ensures ApplyAll(r, jobs, remote, steps).value.0.catalog.Keys == r.catalog.Keys
    ensures ApplyAll(r, jobs, remote, steps).value.0.defaultBranch == r.defaultBranch
    decreases |jobs|
  {
    hide ApplyOne, Dispatched;
    if jobs != [] {
      var d := jobs[0].decision;
      assert jobs[0] in jobs;
      ApplyOneKeys(r, jobs[0].branch, d, remote, steps(jobs[0].branch, d.version));
      assert forall j :: j in jobs[1..] ==> j in jobs;
      ApplyAllShape(ApplyOne(r, jobs[0].branch, d, remote, steps(jobs[0].branch, d.version)).value, jobs[1..], remote, steps);
    }
  }

  lemma OutcomeShape(s: Sys, order: seq<string>, run: Run)
    requires Enumerates(order, s.repo) && Outcome(s, order, run).Some?
    ensures Outcome(s, order, run).value.0.catalog.Keys == s.repo.catalog.Keys
    ensures Outcome(s, order, run).value.0.defaultBranch == s.repo.defaultBranch
  {
    hide ApplyAll, Jobs;
    ApplyAllShape(s.repo, Jobs(s, order, run), s.remote, run.steps);
  }

  function RunStep(s: Sys, order: seq<string>, run: Run): (r: Sys)
    requires Enumerates(order, s.repo)
    ensures r.repo.catalog.Keys == s.repo.catalog.Keys && r.repo.defaultBranch == s.repo.defaultBranch
    ensures Enumerates(order, r.repo)
    ensures s.remote + run.others <= r.remote
  {
    hide Outcome;
    match Outcome(s, order, run)
    case None => s.(remote := s.remote + run.others)
    case Some((repo, tags)) =>
      OutcomeShape(s, order, run);
      Sys(repo, s.remote + (set t | t in tags) + run.others)
  }

  // ----- one run, branch by branch

  predicate DistinctJobs(jobs: seq<Job>) {
    forall i, j :: 0 <= i < j < |jobs| ==> jobs[i].branch != jobs[j].branch
  }

  /** Carrying out one decision touches its own branch only. */
  lemma ApplyOneFacts(r: Repo, branch: string, d: Decision, remote: set<Tag>, sha: Option<string>)
    requires branch in r.catalog && ApplyOne(r, branch, d, remote, sha).Some?
    ensures var after := ApplyOne(r, branch, d, remote, sha).value;
            && after.defaultBranch == r.defaultBranch && after.catalog.Keys == r.catalog.Keys
            && after.catalog[branch] == EntryAfter(r.catalog[branch], d, ShaOf(sha))
            && StateOf(after, branch) == StateAfter(StateOf(r, branch), r.catalog[branch], d)
            && (forall b :: b in r.catalog && b != branch ==> after.catalog[b] == r.catalog[b] && StateOf(after, b) == StateOf(r, b))
            && sha.Some? && Checksummed(r.catalog[branch], d, sha.value, after.catalog[branch])
            && (Bumps(d) ==> Dispatched(r.catalog[branch], d).value !in remote)
            && (d.action == VersionBump ==> Belongs(d.version, branch))
            && after.changelog == r.changelog + (if Bumps(d) then {TagOf(EntryAfter(r.catalog[branch], d, ShaOf(sha)))} else {})
            && (branch != r.defaultBranch || !Bumps(d) ==> after.docker == r.docker)
            && (branch == r.defaultBranch && Bumps(d) ==>
                  && after.catalog[branch].runtime.digest != ""
                  && Docker.SyncFile(r.docker, MirrorArgs(after.catalog[branch])) == Some(after.docker))
  {
    hide EntryAfter, StateAfter, Belongs, Docker.SyncFile, MirrorArgs, Checksummed;
    if sha.Some? { EntryChecksum(r.catalog[branch], d, sha.value); }
  }

  /** A version bump pins the decided version with the checksum of its verified tarball; nothing else moves either. */
  predicate Checksummed(e: Entry, d: Decision, sha: string, after: Entry) {
    if d.action == VersionBump then after.version == d.version && after.sha == sha
    else after.version == e.version && after.sha == e.sha
  }

  lemma EntryChecksum(e: Entry, d: Decision, sha: string)
    ensures Checksummed(e, d, sha, EntryAfter(e, d, sha))
  {
  }

  /** A whole list of decisions: every branch ends as its own decision makes it, the others as they were. */
  lemma {:induction false} ApplyAllFacts(r: Repo, jobs: seq<Job>, remote: set<Tag>, steps: Steps, b: string)
    requires DistinctJobs(jobs) && b in r.catalog
    requires forall j :: j in jobs ==> j.branch in r.catalog
    requires ApplyAll(r, jobs, remote, steps).Some?
    ensures var (after, tags) := ApplyAll(r, jobs, remote, steps).value;
            && after.defaultBranch == r.defaultBranch && after.catalog.Keys == r.catalog.Keys
            && (forall j :: j in jobs && j.branch == b ==>
                  && after.catalog[b] == EntryAfter(r.catalog[b], j.decision, ShaOf(steps(j.branch, j.decision.version)))
                  && StateOf(after, b) == StateAfter(StateOf(r, b), r.catalog[b], j.decision)
                  && steps(b, j.decision.version).Some?
                  && Checksummed(r.catalog[b], j.decision, steps(b, j.decision.version).value, after.catalog[b])
                  && (Bumps(j.decision) ==> Dispatched(r.catalog[b], j.decision).value !in remote)
                  && (j.decision.action == VersionBump ==> Belongs(j.decision.version, b))
                  && (Dispatched(r.catalog[b], j.decision).Some? ==> Dispatched(r.catalog[b], j.decision).value in tags))
            && ((forall j :: j in jobs ==> j.branch != b) ==> after.catalog[b] == r.catalog[b] && StateOf(after, b) == StateOf(r, b))
    decreases |jobs|
  {
    hide EntryAfter, StateAfter, Belongs, ApplyOne, Dispatched, Bumps, StateOf, Checksummed;
    if jobs != [] {
      var j := jobs[0];
      assert j in jobs;
      ApplyOneFacts(r, j.branch, j.decision, remote, steps(j.branch, j.decision.version));
      var next := ApplyOne(r, j.branch, j.decision, remote, steps(j.branch, j.decision.version)).value;
      assert forall k :: k in jobs <==> k == j || k in jobs[1..];
      assert forall i :: 0 <= i < |jobs[1..]| ==> jobs[1..][i] == jobs[i + 1];
      ApplyAllFacts(next, jobs[1..], remote, steps, b);
    }
  }

  /** The decision of a branch is one of the jobs of the run. */
  lemma JobOf(s: Sys, order: seq<string>, run: Run, b: string)
    requires Enumerates(order, s.repo) && b in s.repo.catalog
    ensures Job(b, Decided(s, run, b)) in Jobs(s, order, run)
    ensures DistinctJobs(Jobs(s, order, run))
    ensures forall j :: j in Jobs(s, order, run) ==> j.branch in s.repo.catalog && j.decision == Decided(s, run, j.branch)
  {
    hide Decided;
    var i :| 0 <= i < |order| && order[i] == b;
    var jobs := Jobs(s, order, run);
    assert jobs[i] == Job(b, Decided(s, run, b));
    forall j | j in jobs
      ensures j.branch in s.repo.catalog && j.decision == Decided(s, run, j.branch)
    {
      var k :| 0 <= k < |jobs| && jobs[k] == j;
      assert order[k] in order;
    }
  }

  /** A decision carried out: the branch's entry and state, and the tag it names, which no bump may take from the remote. */
  predicate Advances(e: Entry, st: BranchState, d: Decision, b: string, sha: Option<string>, remote: set<Tag>,
                     next: Entry, nextState: BranchState, tags: seq<Tag>, nextRemote: set<Tag>) {
    && next == EntryAfter(e, d, ShaOf(sha))
    && sha.Some? && Checksummed(e, d, sha.value, next)
    && nextState == StateAfter(st, e, d)
    && (Bumps(d) ==> Dispatched(e, d).value !in remote)
    && (d.action == VersionBump ==> Belongs(d.version, b))
    && (Dispatched(e, d).Some? ==> Dispatched(e, d).value in tags && Dispatched(e, d).value in nextRemote)
  }

  /** One run, seen from one branch. */
  lemma RunStepFacts(s: Sys, order: seq<string>, run: Run, b: string)
    requires Enumerates(order, s.repo) && b in s.repo.catalog
    ensures var after, out := RunStep(s, order, run), Outcome(s, order, run);
            && (out.None? ==> after.repo == s.repo && after.remote == s.remote + run.others)
            && (out.Some? ==>
                  Advances(s.repo.catalog[b], StateOf(s.repo, b), Decided(s, run, b), b, run.steps(b, Decided(s, run, b).version), s.remote,
                           after.repo.catalog[b], StateOf(after.repo, b), out.value.1, after.remote))
  {
    hide EntryAfter, StateAfter, Belongs, ApplyAll, Dispatched, Bumps, StateOf, Decided, Checksummed;
    var out := Outcome(s, order, run);
    if out.Some? {
      JobOf(s, order, run, b);
      var jobs := Jobs(s, order, run);
      ApplyAllFacts(s.repo, jobs, s.remote, run.steps, b);
    }
  }

  // ----- histories

  function After(s: Sys, order: seq<string>, runs: seq<Run>): (r: Sys)
    requires Enumerates(order, s.repo)
    ensures Enumerates(order, r.repo) && r.repo.catalog.Keys == s.repo.catalog.Keys
    ensures r.repo.defaultBranch == s.repo.defaultBranch
    decreases |runs|
  {
    hide RunStep, Outcome;
    if runs == [] then s
    else
      var before := After(s, order, runs[..|runs| - 1]);
      RunStep(before, order, runs[|runs| - 1])
  }

  lemma FirstBranch(s: Sys, order: seq<string>)
    requires Enumerates(order, s.repo)
    ensures order != [] ==> order[0] in s.repo.catalog
  {
    if order != [] { assert order[0] in order; }
  }

  /** The system before run i of a history. */
  function At(s: Sys, order: seq<string>, runs: seq<Run>, i: nat): (r: Sys)
    requires Enumerates(order, s.repo) && i <= |runs|
    ensures Enumerates(order, r.repo) && r.repo.catalog.Keys == s.repo.catalog.Keys
    ensures r.repo.defaultBranch == s.repo.defaultBranch
  {
    After(s, order, runs[..i])
  }

  lemma AtNext(s: Sys, order: seq<string>, runs: seq<Run>, i: nat)
    requires Enumerates(order, s.repo) && i < |runs|
    ensures At(s, order, runs, 0) == s
    ensures At(s, order, runs, i + 1) == RunStep(At(s, order, runs, i), order, runs[i])
  {
    hide RunStep;
    assert runs[..i + 1][..i] == runs[..i] && runs[..i + 1][i] == runs[i];
  }

  predicate Committed(s: Sys, order: seq<string>, runs: seq<Run>, i: nat)
    requires Enumerates(order, s.repo) && i < |runs|
  {
    Outcome(At(s, order, runs, i), order, runs[i]).Some?
  }

  function DecidedAt(s: Sys, order: seq<string>, runs: seq<Run>, i: nat, b: string): Decision
    requires Enumerates(order, s.repo) && i < |runs| && b in s.repo.catalog
  {
    Decided(At(s, order, runs, i), runs[i], b)
  }

  function EntryAt(s: Sys, order: seq<string>, runs: seq<Run>, i: nat, b: string): Entry
    requires Enumerates(order, s.repo) && i <= |runs| && b in s.repo.catalog
  {
    At(s, order, runs, i).repo.catalog[b]
  }

  function StateAt(s: Sys, order: seq<string>, runs: seq<Run>, i: nat, b: string): BranchState
    requires Enumerates(order, s.repo) && i <= |runs|
  {
    StateOf(At(s, order, runs, i).repo, b)
  }

  /** One step of a history, seen from one branch. */
  lemma AtFacts(s: Sys, order: seq<string>, runs: seq<Run>, i: nat, b: string)
    requires Enumerates(order, s.repo) && i < |runs| && b in s.repo.catalog
    ensures var e, d := EntryAt(s, order, runs, i, b), DecidedAt(s, order, runs, i, b);
            var st, remote := StateAt(s, order, runs, i, b), At(s, order, runs, i).remote;
            && d == Decide(e, st, Observed(runs[i], b), runs[i].published, runs[i].policy)
            && remote <= At(s, order, runs, i + 1).remote
            && (!Committed(s, order, runs, i) ==>
                  EntryAt(s, order, runs, i + 1, b) == e && StateAt(s, order, runs, i + 1, b) == st)
            && (Committed(s, order, runs, i) ==>
                  && EntryAt(s, order, runs, i + 1, b) == EntryAfter(e, d, ShaOf(runs[i].steps(b, d.version)))
                  && runs[i].steps(b, d.version).Some?
                  && Checksummed(e, d, runs[i].steps(b, d.version).value, EntryAt(s, order, runs, i + 1, b))
                  && StateAt(s, order, runs, i + 1, b) == StateAfter(st, e, d)
                  && (Bumps(d) ==> Dispatched(e, d).value !in remote)
                  && (d.action == VersionBump ==> Belongs(d.version, b))
                  && (Dispatched(e, d).Some? ==> Dispatched(e, d).value in At(s, order, runs, i + 1).remote))
  {
    hide RunStep, Outcome, EntryAfter, StateAfter, Belongs, Dispatched, Bumps, After, Decide, Checksummed;
    AtNext(s, order, runs, i);
    RunStepFacts(At(s, order, runs, i), order, runs[i], b);
  }

  // ----- the soak

  /**
   Run i committed with v as the branch's newest, and every later committed
   run before k observed v or no listing at all.
   */
  ghost predicate SoakedSince(s: Sys, order: seq<string>, runs: seq<Run>, b: string, i: nat, k: nat, v: string)
    requires Enumerates(order, s.repo) && k <= |runs|
  {
    && i < k && Committed(s, order, runs, i) && Observed(runs[i], b).latest == v
    && forall j :: i <= j < k && Committed(s, order, runs, j) ==> Observed(runs[j], b).latest in {v, ""}
  }

  /** What a decision leaves of the soak record: it is kept or started while a release is waited for, and cleared with it. */
  lemma PendingIs(e: Entry, s: BranchState, o: Observation, published: set<Tag>, p: Policy)
    ensures var d := Decide(e, s, o, published, p); var after := StateAfter(s, e, d).pending;
            after == if d.action == VersionBump then None
                     else if o.latest == "" then s.pending
                     else if !Newer(o.latest, e.version) then None
                     else if s.pending.Some? && s.pending.value.version == o.latest then s.pending
                     else Some(Pending(o.latest, p.now))
  {
    hide Newer;
  }

  /** A soak record survives a decision only if the run saw that version or nothing. */
  lemma PendingAfter(e: Entry, s: BranchState, o: Observation, published: set<Tag>, p: Policy)
    ensures var d := Decide(e, s, o, published, p); var after := StateAfter(s, e, d).pending;
            after.Some? ==>
              || (after == Some(Pending(o.latest, p.now)) && o.latest != "")
              || (after == s.pending && o.latest in {after.value.version, ""})
  {
    hide Newer;
  }

  lemma SoakStarts(s: Sys, order: seq<string>, runs: seq<Run>, b: string, k: nat, v: string)
    requires Enumerates(order, s.repo) && 0 < k <= |runs|
    requires Committed(s, order, runs, k - 1) && Observed(runs[k - 1], b).latest == v
    ensures SoakedSince(s, order, runs, b, k - 1, k, v)
  {
    hide Committed, Observed;
  }

  lemma SoakGrows(s: Sys, order: seq<string>, runs: seq<Run>, b: string, k: nat, p: Pending)
    requires Enumerates(order, s.repo) && 0 < k <= |runs|
    requires exists i: nat :: SoakedSince(s, order, runs, b, i, k - 1, p.version) && runs[i].policy.now == p.firstSeen
    requires Committed(s, order, runs, k - 1) ==> Observed(runs[k - 1], b).latest in {p.version, ""}
    ensures exists i: nat :: SoakedSince(s, order, runs, b, i, k, p.version) && runs[i].policy.now == p.firstSeen
  {
    hide Committed, Observed;
    var i: nat :| SoakedSince(s, order, runs, b, i, k - 1, p.version) && runs[i].policy.now == p.firstSeen;
    assert SoakedSince(s, order, runs, b, i, k, p.version);
  }

  lemma {:induction false} PendingHasHistory(s: Sys, order: seq<string>, runs: seq<Run>, b: string, k: nat)
    requires Enumerates(order, s.repo) && b in s.repo.catalog && k <= |runs|
    requires StateOf(s.repo, b).pending.None?
    ensures var p := StateAt(s, order, runs, k, b).pending;
            p.Some? ==> exists i: nat {:trigger SoakedSince(s, order, runs, b, i, k, p.value.version)} ::
              SoakedSince(s, order, runs, b, i, k, p.value.version) && runs[i].policy.now == p.value.firstSeen
  {
    hide Decide, EntryAfter, StateAfter, Committed, At, Observed, SoakedSince;
    if k == 0 {
      AtZero(s, order, runs);
    } else {
      PendingHasHistory(s, order, runs, b, k - 1);
      AtFacts(s, order, runs, k - 1, b);
      var before, p := StateAt(s, order, runs, k - 1, b).pending, StateAt(s, order, runs, k, b).pending;
      if p.Some? {
        var o := Observed(runs[k - 1], b);
        PendingAfter(EntryAt(s, order, runs, k - 1, b), StateAt(s, order, runs, k - 1, b), o, runs[k - 1].published, runs[k - 1].policy);
        if Committed(s, order, runs, k - 1) && p != before {
          SoakStarts(s, order, runs, b, k, p.value.version);
        } else if Committed(s, order, runs, k - 1) && o.latest == p.value.version && p == Some(Pending(o.latest, runs[k - 1].policy.now)) {
          SoakStarts(s, order, runs, b, k, p.value.version);
        } else {
          assert p == before;
          SoakGrows(s, order, runs, b, k, p.value);
        }
      }
    }
  }

  lemma AtZero(s: Sys, order: seq<string>, runs: seq<Run>)
    requires Enumerates(order, s.repo)
    ensures At(s, order, runs, 0) == s
  {
    hide RunStep;
    assert runs[..0] == [];
  }

  /**
   Soak safety: when a run with a positive soak decides a release, some
   earlier committed run saw that very version as the newest at least the
   soak before, and every committed run in between saw it or no listing.
   */
  lemma SoakSafety(s: Sys, order: seq<string>, runs: seq<Run>, b: string, k: nat)
    requires Enumerates(order, s.repo) && b in s.repo.catalog && k < |runs|
    requires StateOf(s.repo, b).pending.None?
    requires !runs[k].policy.security && runs[k].policy.soakHours > 0.0
    requires DecidedAt(s, order, runs, k, b).action == VersionBump
    ensures var v := DecidedAt(s, order, runs, k, b).version;
            && v == Observed(runs[k], b).latest && Newer(v, EntryAt(s, order, runs, k, b).version)
            && exists i: nat :: SoakedSince(s, order, runs, b, i, k, v)
                 && runs[k].policy.now - runs[i].policy.now >= runs[k].policy.soakHours
  {
    hide Newer, After, Committed, Observed;
    PendingHasHistory(s, order, runs, b, k);
    var p := StateAt(s, order, runs, k, b).pending;
    var v := DecidedAt(s, order, runs, k, b).version;
    assert p.Some? && p.value.version == v;
    var i: nat :| SoakedSince(s, order, runs, b, i, k, v) && runs[i].policy.now == p.value.firstSeen;
  }

  lemma FirstSighting(e: Entry, s: BranchState, o: Observation, published: set<Tag>, p: Policy, sha: string)
    requires IsNewer(o, e) && Required(p) > 0.0 && s.pending.None?
    ensures var d := Decide(e, s, o, published, p);
            EntryAfter(e, d, sha) == e && StateAfter(s, e, d).pending == Some(Pending(o.latest, p.now))
  {
    hide Newer;
  }

  lemma SoakedRelease(e: Entry, s: BranchState, o: Observation, published: set<Tag>, p: Policy)
    requires IsNewer(o, e) && s.pending.Some? && s.pending.value.version == o.latest
    requires p.now - s.pending.value.firstSeen >= Required(p)
    ensures var d := Decide(e, s, o, published, p); d.action == VersionBump && d.version == o.latest
  {
    hide Newer;
  }

  /**
   Sightings in runs that do not commit are not part of the soak. A version is
   seen, the next run sees another one but cannot commit, and the third, that
   sees the first again when its soak is over, releases it.
   */
  lemma LostSightingReleases(s: Sys, order: seq<string>, runs: seq<Run>, b: string, v: string)
    requires Enumerates(order, s.repo) && b in s.repo.catalog && |runs| == 3 && StateOf(s.repo, b).pending.None?
    requires Committed(s, order, runs, 0) && !runs[1].goesThrough
    requires v != "" && Newer(v, s.repo.catalog[b].version) && Observed(runs[0], b).latest == v == Observed(runs[2], b).latest
    requires Observed(runs[1], b).latest !in {v, ""}
    requires Required(runs[0].policy) > 0.0 && runs[2].policy.now - runs[0].policy.now >= Required(runs[2].policy)
    ensures DecidedAt(s, order, runs, 2, b).action == VersionBump && DecidedAt(s, order, runs, 2, b).version == v
  {
    hide Decide, EntryAfter, StateAfter, At, Newer, Observed, Required, Outcome;
    AtZero(s, order, runs);
    AtFacts(s, order, runs, 0, b);
    AtFacts(s, order, runs, 1, b);
    AtFacts(s, order, runs, 2, b);
    NotThrough(s, order, runs, 1);
    FirstSighting(s.repo.catalog[b], StateOf(s.repo, b), Observed(runs[0], b), runs[0].published, runs[0].policy,
                  ShaOf(runs[0].steps(b, DecidedAt(s, order, runs, 0, b).version)));
    SoakedRelease(EntryAt(s, order, runs, 2, b), StateAt(s, order, runs, 2, b), Observed(runs[2], b), runs[2].published, runs[2].policy);
  }

  lemma NotThrough(s: Sys, order: seq<string>, runs: seq<Run>, i: nat)
    requires Enumerates(order, s.repo) && i < |runs| && !(runs[i].goesThrough && runs[i].matrix)
    ensures !Committed(s, order, runs, i)
  {
    hide At, ApplyAll;
  }

  /** A run commits exactly when it goes through, the matrix is rewritten and every decision, in order, is carried out. */
  lemma CommitsIff(s: Sys, order: seq<string>, run: Run)
    requires Enumerates(order, s.repo)
    ensures Outcome(s, order, run).Some? <==>
              run.goesThrough && run.matrix && ApplyAll(s.repo, Jobs(s, order, run), s.remote, run.steps).Some?
  {
    hide ApplyAll;
    forall j | j in Jobs(s, order, run)
      ensures j.branch in s.repo.catalog
    {
      var k :| 0 <= k < |Jobs(s, order, run)| && Jobs(s, order, run)[k] == j;
      assert order[k] in order;
    }
  }

  /**
   A run that sees another newest version leaves the record of a soak as it
   was exactly when it does not commit; a run that commits ends the soak or
   restarts its clock.
   */
  lemma SupersededIff(s: Sys, order: seq<string>, runs: seq<Run>, b: string, i: nat)
    requires Enumerates(order, s.repo) && b in s.repo.catalog && i < |runs|
    requires var p := StateAt(s, order, runs, i, b).pending;
             p.Some? && Observed(runs[i], b).latest !in {p.value.version, ""}
    ensures var before, after := StateAt(s, order, runs, i, b).pending, StateAt(s, order, runs, i + 1, b).pending;
            && (after == before <==> !Committed(s, order, runs, i))
            && (after == before || after.None? || after == Some(Pending(Observed(runs[i], b).latest, runs[i].policy.now)))
  {
    hide Decide, EntryAfter, StateAfter, At, Committed;
    AtFacts(s, order, runs, i, b);
    PendingAfter(EntryAt(s, order, runs, i, b), StateAt(s, order, runs, i, b), Observed(runs[i], b), runs[i].published, runs[i].policy);
  }

  /** A run that takes security releases pins a newer version at once, whatever the soak and its record. */
  lemma SecurityReleasesAtOnce(s: Sys, order: seq<string>, runs: seq<Run>, b: string, i: nat)
    requires Enumerates(order, s.repo) && b in s.repo.catalog && i < |runs|
    requires runs[i].policy.security && IsNewer(Observed(runs[i], b), EntryAt(s, order, runs, i, b))
    ensures var v := Observed(runs[i], b).latest;
            && DecidedAt(s, order, runs, i, b).action == VersionBump && DecidedAt(s, order, runs, i, b).version == v
            && (Committed(s, order, runs, i) ==>
                  EntryAt(s, order, runs, i + 1, b).version == v && StateAt(s, order, runs, i + 1, b).pending == None)
  {
    hide At, Committed, Newer, EntryAfter, StateAfter;
    AtFacts(s, order, runs, i, b);
    var e, st, o := EntryAt(s, order, runs, i, b), StateAt(s, order, runs, i, b), Observed(runs[i], b);
    DecisionTable(e, st, o, runs[i].published, runs[i].policy);
    PendingIs(e, st, o, runs[i].published, runs[i].policy);
  }

  /** The tag a branch remembers is the last one that a committed run dispatched for it, or the initial one. */
  lemma {:induction false} RemembersTag(s: Sys, order: seq<string>, runs: seq<Run>, b: string, k: nat)
    requires Enumerates(order, s.repo) && b in s.repo.catalog && k <= |runs|
    ensures StateAt(s, order, runs, k, b).publishedTag == LastDispatched(s, order, runs, b, k)
  {
    hide *;
    if k > 0 { RemembersTag(s, order, runs, b, k - 1); }
    RememberStep(s, order, runs, b, k);
  }

  lemma RememberStep(s: Sys, order: seq<string>, runs: seq<Run>, b: string, k: nat)
    requires Enumerates(order, s.repo) && b in s.repo.catalog && k <= |runs|
    requires k > 0 ==> StateAt(s, order, runs, k - 1, b).publishedTag == LastDispatched(s, order, runs, b, k - 1)
    ensures StateAt(s, order, runs, k, b).publishedTag == LastDispatched(s, order, runs, b, k)
  {
    hide *;
    DispatchedNext(s, order, runs, b, k);
    if k == 0 {
      StateAtZero(s, order, runs, b);
    } else {
      AtFacts(s, order, runs, k - 1, b);
      var e, d := EntryAt(s, order, runs, k - 1, b), DecidedAt(s, order, runs, k - 1, b);
      TagAfter(StateAt(s, order, runs, k - 1, b), e, d);
    }
  }

  lemma TagAfter(s: BranchState, e: Entry, d: Decision)
    ensures StateAfter(s, e, d).publishedTag == if Dispatched(e, d).Some? then Dispatched(e, d) else s.publishedTag
  {
  }

  lemma DispatchedNext(s: Sys, order: seq<string>, runs: seq<Run>, b: string, k: nat)
    requires Enumerates(order, s.repo) && b in s.repo.catalog && k <= |runs|
    ensures LastDispatched(s, order, runs, b, k)
         == if k == 0 then StateOf(s.repo, b).publishedTag
            else
              var t := Dispatched(EntryAt(s, order, runs, k - 1, b), DecidedAt(s, order, runs, k - 1, b));
              if Committed(s, order, runs, k - 1) && t.Some? then t else LastDispatched(s, order, runs, b, k - 1)
  {
  }

  lemma StateAtZero(s: Sys, order: seq<string>, runs: seq<Run>, b: string)
    requires Enumerates(order, s.repo)
    ensures StateAt(s, order, runs, 0, b) == StateOf(s.repo, b)
  {
    AtZero(s, order, runs);
  }

  function LastDispatched(s: Sys, order: seq<string>, runs: seq<Run>, b: string, k: nat): Option<Tag>
    requires Enumerates(order, s.repo) && b in s.repo.catalog && k <= |runs|
  {
    if k == 0 then StateOf(s.repo, b).publishedTag
    else
      var t := Dispatched(EntryAt(s, order, runs, k - 1, b), DecidedAt(s, order, runs, k - 1, b));
      if Committed(s, order, runs, k - 1) && t.Some? then t else LastDispatched(s, order, runs, b, k - 1)
  }

  // ----- tags

  /** Every entry pins a release of its own branch. */
  ghost predicate Rooted(r: Repo) {
    forall b :: b in r.catalog ==> Belongs(r.catalog[b].version, b)
  }

  /** A release comes later than another: a newer version, or a higher revision of an equal one. */
  predicate Later(a: Tag, b: Tag) {
    var c := Order(VersionKey(a.version), VersionKey(b.version));
    c > 0 || (c == 0 && a.revision > b.revision)
  }

  lemma EntryAfterTag(e: Entry, s: BranchState, o: Observation, published: set<Tag>, p: Policy, sha: string)
    ensures var d := Decide(e, s, o, published, p); var after := EntryAfter(e, d, sha);
            && (Bumps(d) ==> Later(TagOf(after), TagOf(e)) && Dispatched(e, d) == Some(TagOf(after)))
            && (!Bumps(d) ==> after.version == e.version && after.revision == e.revision)
            && (d.action == Publish ==> Dispatched(e, d) == Some(TagOf(e)) && TagOf(e) !in published)
            && (d.action == VersionBump ==> after.version == d.version == o.latest)
            && (d.action == RevisionBump ==> after.version == e.version)
  {
    hide VersionKey;
    OrderTotal(VersionKey(e.version), VersionKey(e.version));
  }

  lemma RootedStep(s: Sys, order: seq<string>, run: Run)
    requires Enumerates(order, s.repo) && Rooted(s.repo)
    ensures Rooted(RunStep(s, order, run).repo)
  {
    hide Decide, EntryAfter, Belongs, RunStep, Outcome;
    forall b | b in s.repo.catalog
      ensures Belongs(RunStep(s, order, run).repo.catalog[b].version, b)
    {
      RunStepFacts(s, order, run, b);
      var d := Decided(s, run, b);
      EntryAfterTag(s.repo.catalog[b], StateOf(s.repo, b), Observed(run, b), run.published, run.policy, ShaOf(run.steps(b, d.version)));
    }
  }

  lemma {:induction false} RootedForever(s: Sys, order: seq<string>, runs: seq<Run>, i: nat)
    requires Enumerates(order, s.repo) && Rooted(s.repo) && i <= |runs|
    ensures Rooted(At(s, order, runs, i).repo)
  {
    hide RunStep, Rooted;
    if i == 0 {
      AtZero(s, order, runs);
    } else {
      RootedForever(s, order, runs, i - 1);
      AtNext(s, order, runs, i - 1);
      RootedStep(At(s, order, runs, i - 1), order, runs[i - 1]);
    }
  }

  /** The tags a committed run creates. */
  function NewTags(s: Sys, order: seq<string>, run: Run): seq<Tag>
    requires Enumerates(order, s.repo)
  {
    match Outcome(s, order, run)
    case None => []
    case Some((_, tags)) => Without(tags, s.remote)
  }

  lemma {:induction false} WithoutFacts(tags: seq<Tag>, remote: set<Tag>)
    ensures forall t :: t in Without(tags, remote) <==> t in tags && t !in remote
    ensures (forall i, j :: 0 <= i < j < |tags| ==> tags[i] != tags[j])
        ==> forall i, j :: 0 <= i < j < |Without(tags, remote)| ==> Without(tags, remote)[i] != Without(tags, remote)[j]
  {
    if tags != [] {
      WithoutFacts(tags[1..], remote);
      var rest := Without(tags[1..], remote);
      if forall i, j :: 0 <= i < j < |tags| ==> tags[i] != tags[j] {
        assert forall i :: 0 <= i < |tags[1..]| ==> tags[1..][i] == tags[i + 1];
        assert tags[0] !in tags[1..];
      }
    }
  }

  /** Each dispatched tag belongs to one decision, in the order of the decisions. */
  lemma {:induction false} TagsComeFromJobs(r: Repo, jobs: seq<Job>, remote: set<Tag>, steps: Steps)
    requires DistinctJobs(jobs) && forall j :: j in jobs ==> j.branch in r.catalog
    requires ApplyAll(r, jobs, remote, steps).Some?
    requires forall j :: j in jobs && Dispatched(r.catalog[j.branch], j.decision).Some? ==>
               Series(Dispatched(r.catalog[j.branch], j.decision).value.version) == j.branch
    ensures var tags := ApplyAll(r, jobs, remote, steps).value.1;
            && (forall t :: t in tags ==>
                  exists j :: j in jobs && Series(t.version) == j.branch && Dispatched(r.catalog[j.branch], j.decision) == Some(t))
            && (forall i, j :: 0 <= i < j < |tags| ==> tags[i] != tags[j])
    decreases |jobs|
  {
    hide ApplyOne, Dispatched, Series;
    if jobs != [] {
      var j := jobs[0];
      assert j in jobs;
      ApplyOneFacts(r, j.branch, j.decision, remote, steps(j.branch, j.decision.version));
      var next := ApplyOne(r, j.branch, j.decision, remote, steps(j.branch, j.decision.version)).value;
      assert forall k :: k in jobs <==> k == j || k in jobs[1..];
      assert forall i :: 0 <= i < |jobs[1..]| ==> jobs[1..][i] == jobs[i + 1];
      assert forall k :: k in jobs[1..] ==> k.branch != j.branch && next.catalog[k.branch] == r.catalog[k.branch];
      TagsComeFromJobs(next, jobs[1..], remote, steps);
    }
  }

  /** The tag a decision of the table dispatches names a release of its branch. */
  lemma DispatchedBelongs(s: Sys, order: seq<string>, run: Run, b: string)
    requires Enumerates(order, s.repo) && Rooted(s.repo) && b in s.repo.catalog && Outcome(s, order, run).Some?
    ensures var t := Dispatched(s.repo.catalog[b], Decided(s, run, b)); t.Some? ==> Belongs(t.value.version, b)
  {
    hide Outcome, Belongs, RunStep, EntryAfter, StateAfter, Newer;
    RunStepFacts(s, order, run, b);
  }

  /**
   Within a run no tag is dispatched twice, branches never collide, only a
   publish may name a tag the remote has, and new tags are not on the remote.
   */
  lemma RunTags(s: Sys, order: seq<string>, run: Run)
    requires Enumerates(order, s.repo) && Rooted(s.repo) && Outcome(s, order, run).Some?
    ensures var tags := Outcome(s, order, run).value.1;
            && (forall i, j :: 0 <= i < j < |tags| ==> tags[i] != tags[j])
            && (forall i, j :: 0 <= i < j < |NewTags(s, order, run)| ==> NewTags(s, order, run)[i] != NewTags(s, order, run)[j])
            && (forall t :: t in NewTags(s, order, run) ==> t !in s.remote && t in RunStep(s, order, run).remote)
            && (forall t :: t in tags ==>
                  && Series(t.version) in s.repo.catalog
                  && Dispatched(s.repo.catalog[Series(t.version)], Decided(s, run, Series(t.version))) == Some(t)
                  && (t in s.remote ==> Decided(s, run, Series(t.version)).action == Publish))
  {
    hide ApplyAll, Dispatched, Series, Belongs, Decided, EntryAfter, StateAfter;
    var jobs := Jobs(s, order, run);
    var tags := Outcome(s, order, run).value.1;
    if b :| b in s.repo.catalog {
      JobOf(s, order, run, b);
      forall j | j in jobs && Dispatched(s.repo.catalog[j.branch], j.decision).Some?
        ensures Series(Dispatched(s.repo.catalog[j.branch], j.decision).value.version) == j.branch
      {
        DispatchedBelongs(s, order, run, j.branch);
        BelongsSeries(Dispatched(s.repo.catalog[j.branch], j.decision).value.version, j.branch);
      }
      TagsComeFromJobs(s.repo, jobs, s.remote, run.steps);
      WithoutFacts(tags, s.remote);
      forall t | t in tags
        ensures Series(t.version) in s.repo.catalog
        ensures Dispatched(s.repo.catalog[Series(t.version)], Decided(s, run, Series(t.version))) == Some(t)
        ensures t in s.remote ==> Decided(s, run, Series(t.version)).action == Publish
      {
        var j :| j in jobs && Series(t.version) == j.branch && Dispatched(s.repo.catalog[j.branch], j.decision) == Some(t);
        RunStepFacts(s, order, run, j.branch);
        DispatchedActs(s.repo.catalog[j.branch], j.decision);
      }
    } else {
      FirstBranch(s, order);
      EmptyJobs(s.repo, jobs, s.remote, run.steps);
      WithoutFacts(tags, s.remote);
    }
  }

  lemma EmptyJobs(r: Repo, jobs: seq<Job>, remote: set<Tag>, steps: Steps)
    requires jobs == []
    ensures ApplyAll(r, jobs, remote, steps) == Some((r, []))
  {
  }

  lemma BelongsSeries(v: string, b: string)
    requires Belongs(v, b)
    ensures Series(v) == b
  {
    hide Series, IsRelease;
  }

  lemma DispatchedActs(e: Entry, d: Decision)
    ensures Dispatched(e, d).Some? ==> Bumps(d) || d.action == Publish
  {
  }

  lemma {:induction false} RemoteGrows(s: Sys, order: seq<string>, runs: seq<Run>, i: nat, j: nat)
    requires Enumerates(order, s.repo) && i <= j <= |runs|
    ensures At(s, order, runs, i).remote <= At(s, order, runs, j).remote
    decreases j
  {
    hide RunStep;
    if i < j {
      RemoteGrows(s, order, runs, i, j - 1);
      AtNext(s, order, runs, j - 1);
      RemoteStep(At(s, order, runs, j - 1), order, runs[j - 1]);
    }
  }

  lemma RemoteStep(s: Sys, order: seq<string>, run: Run)
    requires Enumerates(order, s.repo)
    ensures s.remote <= RunStep(s, order, run).remote
  {
    hide Outcome;
  }

  /** Over any history, no tag is ever created twice, nor while it is on the remote. */
  lemma TagsCreatedOnce(s: Sys, order: seq<string>, runs: seq<Run>, i: nat, j: nat, t: Tag)
    requires Enumerates(order, s.repo) && Rooted(s.repo) && i < j < |runs|
    requires t in NewTags(At(s, order, runs, i), order, runs[i])
    ensures t !in NewTags(At(s, order, runs, j), order, runs[j])
    ensures t !in At(s, order, runs, i).remote && t in At(s, order, runs, j).remote
  {
    hide RunStep, Outcome;
    RootedForever(s, order, runs, i);
    RootedForever(s, order, runs, j);
    NewTagsOnce(At(s, order, runs, i), order, runs[i]);
    NewTagsOnce(At(s, order, runs, j), order, runs[j]);
    AtNext(s, order, runs, i);
    RemoteGrows(s, order, runs, i + 1, j);
  }

  lemma NewTagsOnce(s: Sys, order: seq<string>, run: Run)
    requires Enumerates(order, s.repo) && Rooted(s.repo)
    ensures forall t :: t in NewTags(s, order, run) ==> t !in s.remote && t in RunStep(s, order, run).remote
  {
    hide RunStep;
    if Outcome(s, order, run).Some? { RunTags(s, order, run); }
  }

  lemma LaterTransitive(a: Tag, b: Tag, c: Tag)
    requires Later(a, b) || a == b
    requires Later(b, c) || b == c
    ensures Later(a, c) || a == c
    ensures Later(a, b) || Later(b, c) ==> Later(a, c)
  {
    hide VersionKey, Order;
    var x, y, z := VersionKey(a.version), VersionKey(b.version), VersionKey(c.version);
    OrderTotal(x, y);
    OrderTotal(y, z);
    OrderTotal(x, z);
    if Order(x, y) >= 0 && Order(y, z) >= 0 { OrderTransitive(z, y, x); }
  }

  lemma ReleaseStep(s: Sys, order: seq<string>, runs: seq<Run>, b: string, i: nat)
    requires Enumerates(order, s.repo) && b in s.repo.catalog && i < |runs|
    ensures var x, y := TagOf(EntryAt(s, order, runs, i, b)), TagOf(EntryAt(s, order, runs, i + 1, b));
            && (Later(y, x) || y == x)
            && (Committed(s, order, runs, i) && Bumps(DecidedAt(s, order, runs, i, b)) ==> Later(y, x))
  {
    hide Decide, EntryAfter, Later, Committed, At, StateAfter, Dispatched, Bumps, Decided, StateOf, Belongs;
    AtFacts(s, order, runs, i, b);
    EntryAfterTag(EntryAt(s, order, runs, i, b), StateAt(s, order, runs, i, b), Observed(runs[i], b), runs[i].published,
                  runs[i].policy, ShaOf(runs[i].steps(b, DecidedAt(s, order, runs, i, b).version)));
  }

  /** A branch's release never goes back over a history, and a committed bump moves it strictly on. */
  lemma {:induction false} ReleasesMoveOn(s: Sys, order: seq<string>, runs: seq<Run>, b: string, i: nat, j: nat)
    requires Enumerates(order, s.repo) && b in s.repo.catalog && i <= j <= |runs|
    ensures var x, y := TagOf(EntryAt(s, order, runs, i, b)), TagOf(EntryAt(s, order, runs, j, b));
            && (Later(y, x) || y == x)
            && (i < j && Committed(s, order, runs, i) && Bumps(DecidedAt(s, order, runs, i, b)) ==> Later(y, x))
    decreases j
  {
    hide EntryAt, Later, Committed, DecidedAt, Bumps;
    if i < j {
      ReleasesMoveOn(s, order, runs, b, i, j - 1);
      ReleaseStep(s, order, runs, b, j - 1);
      LaterTransitive(TagOf(EntryAt(s, order, runs, j, b)), TagOf(EntryAt(s, order, runs, j - 1, b)), TagOf(EntryAt(s, order, runs, i, b)));
    }
  }

  // ----- pins

  lemma AgreeStep(e: Entry, s: BranchState, d: Decision, sha: string)
    requires Agree(e, s.seen)
    ensures Agree(EntryAfter(e, d, sha), StateAfter(s, e, d).seen)
    ensures d.seen == NOTHING ==> WithPins(e, d.seen) == e && StateAfter(s, e, d).seen == s.seen
  {
  }

  /** The remembered digests and hash equal the catalog's pins before every run of any history. */
  lemma {:induction false} PinsAgreeForever(s: Sys, order: seq<string>, runs: seq<Run>, b: string, i: nat)
    requires Enumerates(order, s.repo) && b in s.repo.catalog && i <= |runs|
    requires Agree(s.repo.catalog[b], StateOf(s.repo, b).seen)
    ensures Agree(EntryAt(s, order, runs, i, b), StateAt(s, order, runs, i, b).seen)
  {
    hide Decide, EntryAfter, StateAfter, Committed, At, Agree;
    if i == 0 {
      AtZero(s, order, runs);
    } else {
      PinsAgreeForever(s, order, runs, b, i - 1);
      AtFacts(s, order, runs, i - 1, b);
      var d := DecidedAt(s, order, runs, i - 1, b);
      AgreeStep(EntryAt(s, order, runs, i - 1, b), StateAt(s, order, runs, i - 1, b), d, ShaOf(runs[i - 1].steps(b, d.version)));
    }
  }

  /** A decision to rest changes neither the catalog nor what is remembered of the branch. */
  lemma RestChangesNoPin(e: Entry, s: BranchState, o: Observation, published: set<Tag>, p: Policy, sha: string)
    ensures var d := Decide(e, s, o, published, p);
            d.action == Rest ==> EntryAfter(e, d, sha) == e && StateAfter(s, e, d).seen == s.seen
  {
    hide Newer;
  }

  // ----- the checksum of the pinned release

  /** Run i committed the bump to the entry's version, having verified a tarball with the entry's checksum. */
  ghost predicate BumpedTo(s: Sys, order: seq<string>, runs: seq<Run>, b: string, i: nat, e: Entry)
    requires Enumerates(order, s.repo) && i < |runs| && b in s.repo.catalog
  {
    && Committed(s, order, runs, i) && DecidedAt(s, order, runs, i, b).action == VersionBump
    && DecidedAt(s, order, runs, i, b).version == e.version && runs[i].steps(b, e.version) == Some(e.sha)
  }

  /**
   The checksum that an entry pins beside its version is the one that was
   verified for that very version in the committed run that bumped to it;
   without such a run it is the initial one, beside the initial version.
   */
  lemma {:induction false} PinnedChecksum(s: Sys, order: seq<string>, runs: seq<Run>, b: string, k: nat)
    requires Enumerates(order, s.repo) && b in s.repo.catalog && k <= |runs|
    ensures var e, first := EntryAt(s, order, runs, k, b), s.repo.catalog[b];
            || (e.version == first.version && e.sha == first.sha)
            || exists i: nat :: i < k && BumpedTo(s, order, runs, b, i, e)
  {
    hide Decide, EntryAfter, StateAfter, Committed, At, DecidedAt, StateAt, EntryAt, BumpedTo, Bumps, Dispatched, Belongs;
    if k == 0 {
      EntryAtZero(s, order, runs, b);
    } else {
      PinnedChecksum(s, order, runs, b, k - 1);
      AtFacts(s, order, runs, k - 1, b);
      var before, e, d := EntryAt(s, order, runs, k - 1, b), EntryAt(s, order, runs, k, b), DecidedAt(s, order, runs, k - 1, b);
      if Committed(s, order, runs, k - 1) && d.action == VersionBump {
        assert BumpedTo(s, order, runs, b, k - 1, e) by { IsBumped(s, order, runs, b, k - 1, e); }
      } else {
        assert e.version == before.version && e.sha == before.sha;
        if i: nat :| i < k - 1 && BumpedTo(s, order, runs, b, i, before) {
          SameBump(s, order, runs, b, i, before, e);
        }
      }
    }
  }

  lemma IsBumped(s: Sys, order: seq<string>, runs: seq<Run>, b: string, i: nat, e: Entry)
    requires Enumerates(order, s.repo) && i < |runs| && b in s.repo.catalog
    requires var d := DecidedAt(s, order, runs, i, b);
             Committed(s, order, runs, i) && d.action == VersionBump && d.version == e.version && runs[i].steps(b, d.version) == Some(e.sha)
    ensures BumpedTo(s, order, runs, b, i, e)
  {
    hide Committed, DecidedAt;
  }

  lemma SameBump(s: Sys, order: seq<string>, runs: seq<Run>, b: string, i: nat, e: Entry, f: Entry)
    requires Enumerates(order, s.repo) && i < |runs| && b in s.repo.catalog
    requires e.version == f.version && e.sha == f.sha && BumpedTo(s, order, runs, b, i, e)
    ensures BumpedTo(s, order, runs, b, i, f)
  {
    hide Committed, DecidedAt;
  }

  lemma EntryAtZero(s: Sys, order: seq<string>, runs: seq<Run>, b: string)
    requires Enumerates(order, s.repo) && b in s.repo.catalog
    ensures EntryAt(s, order, runs, 0, b) == s.repo.catalog[b]
  {
    AtZero(s, order, runs);
  }

  // ----- the Dockerfile mirror

  predicate Mirrored(r: Repo)
    requires r.defaultBranch in r.catalog
  {
    Docker.Agrees(r.docker, MirrorArgs(r.catalog[r.defaultBranch]))
  }

  lemma MirrorArgsGood(e: Entry)
    ensures Docker.GoodArgs(MirrorArgs(e))
  {
    hide RefText;
    var a := MirrorArgs(e);
    forall i, j | 0 <= i < j < |a|
      ensures a[i].name != a[j].name
    {
      ArgNamesDiffer(a[i].name, a[j].name, i, j);
    }
    forall i | 0 <= i < |a|
      ensures '=' !in a[i].name
    {
      ArgNameHasNoEquals(a[i].name, i);
    }
  }

  const ARG_NAMES := ["SAMBA_VERSION", "SAMBA_TARBALL_SHA256", "BUILDER_BASE", "RUNTIME_BASE", "GOBUILD_BASE", "BASE_NAME", "BASE_DIGEST"]

  lemma ArgNamesDiffer(a: string, b: string, i: nat, j: nat)
    requires i < j < |ARG_NAMES| && a == ARG_NAMES[i] && b == ARG_NAMES[j]
    ensures a != b
  {
    assert |ARG_NAMES[0]| == 13 && |ARG_NAMES[1]| == 20 && |ARG_NAMES[5]| == 9 && |ARG_NAMES[6]| == 11;
    assert ARG_NAMES[2][0] == 'B' && ARG_NAMES[3][0] == 'R' && ARG_NAMES[4][0] == 'G';
    assert |ARG_NAMES[2]| == |ARG_NAMES[3]| == |ARG_NAMES[4]| == 12;
  }

  lemma ArgNameHasNoEquals(a: string, i: nat)
    requires i < |ARG_NAMES| && a == ARG_NAMES[i]
    ensures '=' !in a
  {
  }

  /** The file has a default for the ARG, and every default of it is this value. */
  predicate DefaultIs(lines: seq<string>, name: string, value: string) {
    && (exists i :: 0 <= i < |lines| && "ARG " + name + "=" <= lines[i])
    && forall i :: 0 <= i < |lines| && "ARG " + name + "=" <= lines[i] ==> lines[i] == "ARG " + name + "=" + value + "\n"
  }

  /** A pinned reference: the image's name, `@` and the digest. */
  predicate RefIs(value: string, r: Ref) {
    if r.digest == "" then value == r.name else value == r.name + "@" + r.digest
  }

  lemma RefTextIs(r: Ref)
    ensures RefIs(RefText(r), r)
  {
  }

  lemma AgreesSpelledOut(lines: seq<string>, args: seq<Docker.Arg>)
    ensures Docker.Agrees(lines, args) <==> forall k :: 0 <= k < |args| ==> DefaultIs(lines, args[k].name, args[k].value)
  {
    forall k | 0 <= k < |args|
      ensures DefaultIs(lines, args[k].name, args[k].value)
         <==> && Docker.Present(lines, args[k].name)
              && forall i :: 0 <= i < |lines| && Docker.Sets(lines[i], args[k].name) ==> lines[i] == Docker.ArgLine(args[k].name, args[k].value)
    {
    }
  }

  /** The mirror in full, name by name and value by value. */
  lemma MirrorSpelledOut(r: Repo) returns (builder: string, runtime: string, gobuild: string)
    requires r.defaultBranch in r.catalog
    ensures var e := r.catalog[r.defaultBranch];
            && RefIs(builder, e.builder) && RefIs(runtime, e.runtime) && RefIs(gobuild, e.gobuild)
            && (Mirrored(r) <==>
                  && DefaultIs(r.docker, "SAMBA_VERSION", e.version)
                  && DefaultIs(r.docker, "SAMBA_TARBALL_SHA256", e.sha)
                  && DefaultIs(r.docker, "BUILDER_BASE", builder)
                  && DefaultIs(r.docker, "RUNTIME_BASE", runtime)
                  && DefaultIs(r.docker, "GOBUILD_BASE", gobuild)
                  && DefaultIs(r.docker, "BASE_NAME", e.runtime.name)
                  && DefaultIs(r.docker, "BASE_DIGEST", e.runtime.digest))
  {
    hide RefText, RefIs, DefaultIs, Docker.Agrees;
    var e := r.catalog[r.defaultBranch];
    builder, runtime, gobuild := RefText(e.builder), RefText(e.runtime), RefText(e.gobuild);
    RefTextIs(e.builder);
    RefTextIs(e.runtime);
    RefTextIs(e.gobuild);
    var args := MirrorArgs(e);
    AgreesSpelledOut(r.docker, args);
    assert |args| == 7;
    assert args[0] == Docker.Arg("SAMBA_VERSION", e.version) && args[1] == Docker.Arg("SAMBA_TARBALL_SHA256", e.sha);
    assert args[2] == Docker.Arg("BUILDER_BASE", builder) && args[3] == Docker.Arg("RUNTIME_BASE", runtime);
    assert args[4] == Docker.Arg("GOBUILD_BASE", gobuild) && args[5] == Docker.Arg("BASE_NAME", e.runtime.name);
    assert args[6] == Docker.Arg("BASE_DIGEST", e.runtime.digest);
  }

  /** Pins that move while the default branch is published for the first time, never having been observed. */
  predicate MovesUnmirrored(e: Entry, s: BranchState, o: Observation, published: set<Tag>) {
    && !IsNewer(o, e) && s.seen == NOTHING && TagOf(e) !in published
    && BaseMoved(Seen(e.runtime.digest, e.builder.digest, e.gobuild.digest, e.pkg), o.seen)
  }

  /** Without a bump, the ARG values of an entry change exactly on such a move. */
  lemma UnbumpedMirror(e: Entry, s: BranchState, o: Observation, published: set<Tag>, p: Policy, sha: string)
    ensures var d := Decide(e, s, o, published, p); var after := EntryAfter(e, d, sha);
            && (MovesUnmirrored(e, s, o, published) ==> d.action == Publish)
            && (!Bumps(d) ==>
                  (MovesUnmirrored(e, s, o, published) <==>
                     after.runtime != e.runtime || after.builder != e.builder || after.gobuild != e.gobuild))
  {
    hide Newer;
  }

  lemma RefTextChanges(r: Ref, digest: string)
    ensures RefText(Pinned(r, digest)) == RefText(r) <==> Pinned(r, digest) == r
  {
    if digest != "" && digest != r.digest {
      if r.digest == "" {
        assert |r.name + "@" + digest| > |r.name|;
      } else {
        assert (r.name + "@" + digest)[|r.name| + 1..] == digest;
        assert (r.name + "@" + r.digest)[|r.name| + 1..] == r.digest;
      }
    }
  }

  lemma SameArgsIff(e: Entry, after: Entry, seen: Seen)
    requires after.version == e.version && after.sha == e.sha
    requires after.runtime == Pinned(e.runtime, seen.runtime) && after.builder == Pinned(e.builder, seen.builder)
    requires after.gobuild == Pinned(e.gobuild, seen.gobuild)
    ensures MirrorArgs(after) == MirrorArgs(e) <==>
              after.runtime == e.runtime && after.builder == e.builder && after.gobuild == e.gobuild
  {
    RefTextChanges(e.runtime, seen.runtime);
    RefTextChanges(e.builder, seen.builder);
    RefTextChanges(e.gobuild, seen.gobuild);
    hide RefText;
    var x, y := MirrorArgs(after), MirrorArgs(e);
    if x == y {
      assert x[2] == y[2] && x[3] == y[3] && x[4] == y[4];
    }
  }

  /** A file agrees with at most one list of values for the same names. */
  lemma AgreesOnce(lines: seq<string>, x: seq<Docker.Arg>, y: seq<Docker.Arg>)
    requires |x| == |y| && forall k :: 0 <= k < |x| ==> x[k].name == y[k].name
    requires Docker.Agrees(lines, x) && Docker.Agrees(lines, y)
    ensures x == y
  {
    forall k | 0 <= k < |x|
      ensures x[k] == y[k]
    {
      assert Docker.Present(lines, x[k].name);
      var i :| 0 <= i < |lines| && Docker.Sets(lines[i], x[k].name);
      var p := Docker.Prefix(x[k].name);
      assert lines[i] == p + x[k].value + "\n" == p + y[k].value + "\n";
      assert (p + x[k].value + "\n")[|p|..|lines[i]| - 1] == x[k].value;
      assert (p + y[k].value + "\n")[|p|..|lines[i]| - 1] == y[k].value;
    }
  }

  /** Only a bump of the default branch edits the Dockerfile, and it leaves it in step with the entry. */
  lemma {:induction false} ApplyAllMirror(r: Repo, jobs: seq<Job>, remote: set<Tag>, steps: Steps)
    requires DistinctJobs(jobs) && r.defaultBranch in r.catalog
    requires forall j :: j in jobs ==> j.branch in r.catalog
    requires ApplyAll(r, jobs, remote, steps).Some?
    ensures var after := ApplyAll(r, jobs, remote, steps).value.0;
            && after.defaultBranch == r.defaultBranch && after.catalog.Keys == r.catalog.Keys
            && ((forall j :: j in jobs ==> j.branch != r.defaultBranch || !Bumps(j.decision)) ==> after.docker == r.docker)
            && ((exists j :: j in jobs && j.branch == r.defaultBranch && Bumps(j.decision)) ==>
                  Docker.SyncFile(r.docker, MirrorArgs(after.catalog[r.defaultBranch])) == Some(after.docker))
    decreases |jobs|
  {
    hide EntryAfter, StateAfter, Belongs, ApplyOne, Dispatched, Bumps, StateOf, Docker.SyncFile, MirrorArgs;
    if jobs != [] {
      var j := jobs[0];
      assert j in jobs;
      ApplyOneFacts(r, j.branch, j.decision, remote, steps(j.branch, j.decision.version));
      var next := ApplyOne(r, j.branch, j.decision, remote, steps(j.branch, j.decision.version)).value;
      assert forall k :: k in jobs <==> k == j || k in jobs[1..];
      assert forall i :: 0 <= i < |jobs[1..]| ==> jobs[1..][i] == jobs[i + 1];
      ApplyAllMirror(next, jobs[1..], remote, steps);
      ApplyAllFacts(next, jobs[1..], remote, steps, r.defaultBranch);
    }
  }

  lemma RunMirror(s: Sys, order: seq<string>, run: Run)
    requires Enumerates(order, s.repo) && s.repo.defaultBranch in s.repo.catalog && Outcome(s, order, run).Some?
    ensures var b := s.repo.defaultBranch; var after := RunStep(s, order, run).repo;
            && after.defaultBranch == b && after.catalog.Keys == s.repo.catalog.Keys
            && (!Bumps(Decided(s, run, b)) ==> after.docker == s.repo.docker)
            && (Bumps(Decided(s, run, b)) ==> Docker.SyncFile(s.repo.docker, MirrorArgs(after.catalog[b])) == Some(after.docker))
  {
    hide ApplyAll, Docker.SyncFile, MirrorArgs, Bumps, Decided;
    var b, jobs := s.repo.defaultBranch, Jobs(s, order, run);
    JobOf(s, order, run, b);
    ApplyAllMirror(s.repo, jobs, s.remote, run.steps);
  }

  /** A committed bump of the default branch puts the mirror in step, whatever it was before. */
  lemma BumpMirrors(s: Sys, order: seq<string>, run: Run)
    requires Enumerates(order, s.repo) && s.repo.defaultBranch in s.repo.catalog && Outcome(s, order, run).Some?
    requires Bumps(Decided(s, run, s.repo.defaultBranch))
    ensures RunStep(s, order, run).repo.defaultBranch in RunStep(s, order, run).repo.catalog
    ensures Mirrored(RunStep(s, order, run).repo)
  {
    hide RunStep, Outcome, Decided, Bumps, MirrorArgs, Docker.SyncFile, Docker.Agrees;
    RunMirror(s, order, run);
    var after := RunStep(s, order, run).repo;
    var args := MirrorArgs(after.catalog[after.defaultBranch]);
    MirrorArgsGood(after.catalog[after.defaultBranch]);
    Docker.SyncAgrees(s.repo.docker, args);
  }

  /**
   After a committed version bump of the default branch the Dockerfile's
   defaults are the version that was decided and the checksum that was verified
   for it.
   */
  lemma BumpWritesRelease(s: Sys, order: seq<string>, run: Run)
    requires Enumerates(order, s.repo) && s.repo.defaultBranch in s.repo.catalog && Outcome(s, order, run).Some?
    requires Decided(s, run, s.repo.defaultBranch).action == VersionBump
    ensures var v := Decided(s, run, s.repo.defaultBranch).version; var after := RunStep(s, order, run).repo;
            && run.steps(s.repo.defaultBranch, v).Some?
            && DefaultIs(after.docker, "SAMBA_VERSION", v)
            && DefaultIs(after.docker, "SAMBA_TARBALL_SHA256", run.steps(s.repo.defaultBranch, v).value)
  {
    hide RunStep, Outcome, Decided, MirrorArgs, Docker.SyncFile, Docker.Agrees, Mirrored, DefaultIs, EntryAfter, StateAfter, RefIs;
    BumpMirrors(s, order, run);
    RunStepFacts(s, order, run, s.repo.defaultBranch);
    var _, _, _ := MirrorSpelledOut(RunStep(s, order, run).repo);
  }

  /**
   A committed run keeps the mirror in step exactly when it does not move
   base digests of a default branch that it has never observed and is
   publishing for the first time: that one row edits the catalog alone.
   */
  lemma MirrorKeptIff(s: Sys, order: seq<string>, run: Run)
    requires Enumerates(order, s.repo) && s.repo.defaultBranch in s.repo.catalog && Outcome(s, order, run).Some?
    requires Mirrored(s.repo)
    ensures RunStep(s, order, run).repo.defaultBranch in RunStep(s, order, run).repo.catalog
    ensures var b := s.repo.defaultBranch;
            Mirrored(RunStep(s, order, run).repo) <==>
              !MovesUnmirrored(s.repo.catalog[b], StateOf(s.repo, b), Observed(run, b), run.published)
  {
    hide RunStep, Outcome, Bumps, MirrorArgs, Docker.SyncFile, Docker.Agrees, EntryAfter, StateAfter, Decide, MovesUnmirrored, Belongs, Dispatched;
    var b := s.repo.defaultBranch;
    var e, d := s.repo.catalog[b], Decided(s, run, b);
    var after := RunStep(s, order, run).repo;
    RunMirror(s, order, run);
    RunStepFacts(s, order, run, b);
    UnbumpedMirror(e, StateOf(s.repo, b), Observed(run, b), run.published, run.policy, ShaOf(run.steps(b, d.version)));
    if Bumps(d) {
      BumpMirrors(s, order, run);
      BumpIsNotPublish(d);
    } else {
      UnbumpedPins(e, d, ShaOf(run.steps(b, d.version)));
      SameArgsIff(e, after.catalog[b], d.seen);
      ArgNames(e, after.catalog[b]);
      if Mirrored(after) { AgreesOnce(after.docker, MirrorArgs(e), MirrorArgs(after.catalog[b])); }
    }
  }

  lemma BumpIsNotPublish(d: Decision)
    ensures Bumps(d) ==> d.action != Publish
  {
  }

  lemma UnbumpedPins(e: Entry, d: Decision, sha: string)
    requires !Bumps(d)
    ensures var after := EntryAfter(e, d, sha);
            && after.version == e.version && after.sha == e.sha
            && after.runtime == Pinned(e.runtime, d.seen.runtime) && after.builder == Pinned(e.builder, d.seen.builder)
            && after.gobuild == Pinned(e.gobuild, d.seen.gobuild)
  {
  }

  lemma ArgNames(e: Entry, f: Entry)
    ensures |MirrorArgs(e)| == |MirrorArgs(f)| && forall k :: 0 <= k < |MirrorArgs(e)| ==> MirrorArgs(e)[k].name == MirrorArgs(f)[k].name
  {
    hide RefText;
  }

  /** The row that breaks the mirror exists: an unpublished, never observed branch whose runtime base has moved. */
  lemma UnmirroredMoveExample()
    ensures var e := Entry("4.24.7", 1, "", Ref("debian", "sha256:a"), Ref("debian", "sha256:a"), Ref("golang", "sha256:c"), "h");
            var s := BranchState(NOTHING, None, None);
            var o := Observation("", Seen("sha256:b", "", "", ""));
            MovesUnmirrored(e, s, o, {}) && EntryAfter(e, Decide(e, s, o, {}, Policy(0.0, 24.0, false)), "").runtime == Ref("debian", "sha256:b")
  {
    hide Newer;
    assert "sha256:a"[7] == 'a' && "sha256:b"[7] == 'b';
  }

  predicate ObservedAndMirrored(r: Repo) {
    r.defaultBranch in r.catalog && Mirrored(r) && StateOf(r, r.defaultBranch).seen != NOTHING
  }

  lemma ObservedMirrorStep(s: Sys, order: seq<string>, run: Run)
    requires Enumerates(order, s.repo) && ObservedAndMirrored(s.repo)
    ensures ObservedAndMirrored(RunStep(s, order, run).repo)
  {
    hide RunStep, Outcome, Mirrored, EntryAfter, StateAfter, Decide, StateOf, Belongs, Dispatched, Bumps;
    if Outcome(s, order, run).Some? {
      var b := s.repo.defaultBranch;
      RunStepFacts(s, order, run, b);
      SeenIsKept(s.repo.catalog[b], StateOf(s.repo, b), Decided(s, run, b));
      MirrorKeptIff(s, order, run);
    } else {
      UncommittedStep(s, order, run);
    }
  }

  /** Once the default branch has been observed, the mirror is in step before every later run. */
  lemma {:induction false} MirrorForever(s: Sys, order: seq<string>, runs: seq<Run>, i: nat)
    requires Enumerates(order, s.repo) && ObservedAndMirrored(s.repo) && i <= |runs|
    ensures ObservedAndMirrored(At(s, order, runs, i).repo)
  {
    hide RunStep, ObservedAndMirrored, At;
    if i == 0 {
      AtZero(s, order, runs);
    } else {
      MirrorForever(s, order, runs, i - 1);
      AtNext(s, order, runs, i - 1);
      ObservedMirrorStep(At(s, order, runs, i - 1), order, runs[i - 1]);
    }
  }

  lemma SeenIsKept(e: Entry, s: BranchState, d: Decision)
    requires s.seen != NOTHING
    ensures StateAfter(s, e, d).seen != NOTHING
  {
  }

  lemma UncommittedStep(s: Sys, order: seq<string>, run: Run)
    requires Enumerates(order, s.repo) && Outcome(s, order, run).None?
    ensures RunStep(s, order, run).repo == s.repo
  {
    hide Outcome;
  }
}
