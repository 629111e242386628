/**
 What the release watcher settles into: with upstream, the base images and
 the package index standing still, every branch reaches a state in which no
 later run decides anything, creating at most one tag on the way; and no
 release it ever reaches can make the entrypoint refuse a volume as newer.
 */
module Convergence {
  import opened Text
  import opened Versions
  import opened Watcher
  import opened WatcherRuns
  import Docker = Dockerfile
  import Life = Lifecycle
  import Refusals

  // ----- a measure of what is left to do

  /** How many runs, `step` hours apart, it takes for `left` hours to pass. */
  function Ticks(left: real, step: real): nat
    requires step > 0.0
  {
    if left <= 0.0 then 0 else (left / step).Floor + 1
  }

  lemma TicksPass(left: real, later: real, step: real)
    requires step > 0.0 && left > 0.0 && later <= left - step
    ensures Ticks(later, step) < Ticks(left, step)
  {
    if later > 0.0 {
      OneTickLess(left, later, step);
    }
  }

  lemma OneTickLess(left: real, later: real, step: real)
    requires step > 0.0 && later <= left - step
    ensures later / step <= left / step - 1.0
  {
    var q, r := left / step, later / step;
    assert q * step == left && r * step == later;
    var d := r - q + 1.0;
    assert d * step == r * step - q * step + step == later - left + step;
    if d > 0.0 {
      ScalePositive(d, step);
      assert false;
    }
  }

  lemma ScalePositive(x: real, y: real)
    requires x > 0.0 && y > 0.0
    ensures x * y > 0.0
  {
  }

  /** The soak still to wait for. */
  function Left(s: BranchState, latest: string, p: Policy): real {
    match FirstSeen(s, latest)
    case Some(first) => Required(p) - (p.now - first)
    case None => Required(p)
  }

  /**
   What a branch still owes: a soak and a release (3 and more), moved pins
   (2), an unpublished tag (1), or nothing.
   */
  function Rank(e: Entry, s: BranchState, o: Observation, published: set<Tag>, p: Policy, step: real): nat
    requires step > 0.0
  {
    if IsNewer(o, e) then
      if Required(p) <= 0.0 then 3
      else 3 + Ticks(Left(s, o.latest, p), step) + (if FirstSeen(s, o.latest).None? then 1 else 0)
    else if s.seen != o.seen then 2
    else if TagOf(e) !in published then 1
    else 0
  }

  /** The catalog's tag was dispatched or published, and the next run does not find it on the registry. */
  predicate IsSetback(e: Entry, d: Decision, published: set<Tag>, after: Entry, later: set<Tag>) {
    (Dispatched(e, d).Some? || TagOf(after) in published) && TagOf(after) !in later
  }

  /**
   A branch that owes nothing rests; anything else brings the rank down, unless
   its tag gets lost, and a tag that gets lost makes a branch owe at most that.
   */
  lemma RankStep(e: Entry, s: BranchState, o: Observation, published: set<Tag>, p: Policy, sha: string,
                 later: set<Tag>, q: Policy, step: real)
    requires step > 0.0 && Complete(o.seen)
    requires q.soakHours == p.soakHours && q.security == p.security && q.now >= p.now + step
    ensures var d := Decide(e, s, o, published, p); var after := EntryAfter(e, d, sha);
            var was, left := Rank(e, s, o, published, p, step), Rank(after, StateAfter(s, e, d), o, later, q, step);
            && (was == 0 ==> d.action == Rest && left <= 1)
            && (was > 0 ==> left <= was)
            && (!IsSetback(e, d, published, after, later) ==> left < was || was == left == 0)
  {
    hide Newer, Ticks;
    var d := Decide(e, s, o, published, p);
    NotNewerThanItself(o);
    if IsNewer(o, e) && Required(p) > 0.0 {
      var left := Left(s, o.latest, p);
      if FirstSeen(s, o.latest).Some? && left > 0.0 {
        TicksPass(left, Left(StateAfter(s, e, d), o.latest, q), step);
      } else if FirstSeen(s, o.latest).None? {
        TicksPass(left, Left(StateAfter(s, e, d), o.latest, q), step);
      }
    }
  }

  lemma NotNewerThanItself(o: Observation)
    ensures !Newer(o.latest, o.latest)
  {
    hide VersionKey;
    OrderTotal(VersionKey(o.latest), VersionKey(o.latest));
  }

  // ----- a world that stands still

  /** The same answers for the branch from every run, one `step` or more apart. */
  ghost predicate Frozen(runs: seq<Run>, b: string, o: Observation, p: Policy, step: real) {
    && step > 0.0 && Complete(o.seen)
    && (forall k :: 0 <= k < |runs| ==>
          Observed(runs[k], b) == o && runs[k].policy.soakHours == p.soakHours && runs[k].policy.security == p.security)
    && (forall k :: 0 <= k < |runs| - 1 ==>
          runs[k + 1].policy.now >= runs[k].policy.now + step)
  }

  /** A branch's answers are frozen and every run commits. */
  ghost predicate StandsStill(s: Sys, order: seq<string>, runs: seq<Run>, b: string, o: Observation, p: Policy, step: real)
    requires Enumerates(order, s.repo)
  {
    Frozen(runs, b, o, p, step) && forall k :: 0 <= k < |runs| ==> Committed(s, order, runs, k)
  }

  /** Run k is followed by a run that does not find the branch's tag, dispatched or published by then, on the registry. */
  predicate SetbackAt(s: Sys, order: seq<string>, runs: seq<Run>, b: string, k: nat)
    requires Enumerates(order, s.repo) && b in s.repo.catalog && k + 1 < |runs|
  {
    IsSetback(EntryAt(s, order, runs, k, b), DecidedAt(s, order, runs, k, b), runs[k].published,
              EntryAt(s, order, runs, k + 1, b), runs[k + 1].published)
  }

  function Setbacks(s: Sys, order: seq<string>, runs: seq<Run>, b: string, k: nat): (n: nat)
    requires Enumerates(order, s.repo) && b in s.repo.catalog && k < |runs|
    ensures n <= k
  {
    if k == 0 then 0 else Setbacks(s, order, runs, b, k - 1) + (if SetbackAt(s, order, runs, b, k - 1) then 1 else 0)
  }

  function RankAt(s: Sys, order: seq<string>, runs: seq<Run>, b: string, o: Observation, k: nat, step: real): nat
    requires Enumerates(order, s.repo) && b in s.repo.catalog && k < |runs| && step > 0.0
  {
    Rank(EntryAt(s, order, runs, k, b), StateAt(s, order, runs, k, b), o, runs[k].published, runs[k].policy, step)
  }

  /** The newest release is pinned, everything observed is remembered, and the tag is on the registry. */
  predicate UpToDate(e: Entry, s: BranchState, o: Observation, published: set<Tag>) {
    !IsNewer(o, e) && s.seen == o.seen && TagOf(e) in published
  }

  /** When a run does nothing for a branch: a soak is running, or what it could tell is what is pinned and published. */
  lemma RestIff(e: Entry, s: BranchState, o: Observation, published: set<Tag>, p: Policy)
    ensures Decide(e, s, o, published, p).action == Rest <==>
              if IsNewer(o, e) then Required(p) > 0.0 && Left(s, o.latest, p) > 0.0
              else !BaseMoved(s.seen, o.seen) && o.seen.pkg in {"", s.seen.pkg} && TagOf(e) in published
  {
    hide Newer;
  }

  predicate SettledAt(s: Sys, order: seq<string>, runs: seq<Run>, b: string, o: Observation, k: nat)
    requires Enumerates(order, s.repo) && b in s.repo.catalog && k < |runs|
  {
    && DecidedAt(s, order, runs, k, b).action == Rest
    && UpToDate(EntryAt(s, order, runs, k, b), StateAt(s, order, runs, k, b), o, runs[k].published)
  }

  /** How many of the first k runs decided something for the branch or left it short of what was observed. */
  function Unsettled(s: Sys, order: seq<string>, runs: seq<Run>, b: string, o: Observation, k: nat): (n: nat)
    requires Enumerates(order, s.repo) && b in s.repo.catalog && k < |runs|
    ensures n <= k
  {
    if k == 0 then 0 else Unsettled(s, order, runs, b, o, k - 1) + (if SettledAt(s, order, runs, b, o, k - 1) then 0 else 1)
  }

  lemma OwesNothing(s: Sys, order: seq<string>, runs: seq<Run>, b: string, o: Observation, p: Policy, step: real, k: nat)
    requires Enumerates(order, s.repo) && b in s.repo.catalog && k < |runs|
    requires Frozen(runs, b, o, p, step) && RankAt(s, order, runs, b, o, k, step) == 0
    ensures SettledAt(s, order, runs, b, o, k)
  {
    hide Rank, EntryAfter, StateAfter, At, Dispatched, Committed, Complete, Bumps, Belongs, Observed, UpToDate, Decide;
    AtFacts(s, order, runs, k, b);
    var e, st, r := EntryAt(s, order, runs, k, b), StateAt(s, order, runs, k, b), runs[k];
    NothingOwed(e, st, o, r.published, r.policy, step);
    RankStep(e, st, o, r.published, r.policy, "", r.published, r.policy.(now := r.policy.now + step), step);
  }

  lemma RankAtStep(s: Sys, order: seq<string>, runs: seq<Run>, b: string, o: Observation, p: Policy, step: real, k: nat)
    requires Enumerates(order, s.repo) && b in s.repo.catalog && k + 1 < |runs|
    requires StandsStill(s, order, runs, b, o, p, step)
    ensures var was, left := RankAt(s, order, runs, b, o, k, step), RankAt(s, order, runs, b, o, k + 1, step);
            && (if was == 0 then left <= 1 else left <= was)
            && (!SetbackAt(s, order, runs, b, k) ==> left < was || was == left == 0)
  {
    hide Rank, Decide, EntryAfter, StateAfter, At, Dispatched, Committed, Complete, Bumps, Belongs, Observed, IsSetback;
    AtFacts(s, order, runs, k, b);
    var e, st, d, r := EntryAt(s, order, runs, k, b), StateAt(s, order, runs, k, b), DecidedAt(s, order, runs, k, b), runs[k];
    RankStep(e, st, o, r.published, r.policy, ShaOf(r.steps(b, d.version)), runs[k + 1].published, runs[k + 1].policy, step);
  }

  lemma NothingOwed(e: Entry, s: BranchState, o: Observation, published: set<Tag>, p: Policy, step: real)
    requires step > 0.0
    ensures Rank(e, s, o, published, p, step) == 0 ==> UpToDate(e, s, o, published)
  {
    hide Newer, Ticks;
  }

  /**
   The measure as a budget: of any number of runs in a world that stands still,
   no more are unsettled than the branch owed at first and than its tag got lost
   on the registry since.
   */
  lemma {:induction false} RankIsBudget(s: Sys, order: seq<string>, runs: seq<Run>, b: string, o: Observation, p: Policy, step: real, k: nat)
    requires Enumerates(order, s.repo) && b in s.repo.catalog && k < |runs|
    requires StandsStill(s, order, runs, b, o, p, step)
    ensures RankAt(s, order, runs, b, o, k, step) + Unsettled(s, order, runs, b, o, k)
         <= RankAt(s, order, runs, b, o, 0, step) + Setbacks(s, order, runs, b, k)
  {
    hide RankAt, StandsStill, SettledAt, SetbackAt, Frozen;
    if k > 0 {
      RankIsBudget(s, order, runs, b, o, p, step, k - 1);
      RankAtStep(s, order, runs, b, o, p, step, k - 1);
      StillIsFrozen(s, order, runs, b, o, p, step);
      if RankAt(s, order, runs, b, o, k - 1, step) == 0 { OwesNothing(s, order, runs, b, o, p, step, k - 1); }
    }
  }

  lemma StillIsFrozen(s: Sys, order: seq<string>, runs: seq<Run>, b: string, o: Observation, p: Policy, step: real)
    requires Enumerates(order, s.repo) && StandsStill(s, order, runs, b, o, p, step)
    ensures Frozen(runs, b, o, p, step) && step > 0.0
  {
  }

  /** From run i on, with no tag lost, the rank falls by one with every run until nothing is owed. */
  lemma {:induction false} RankFalls(s: Sys, order: seq<string>, runs: seq<Run>, b: string, o: Observation, p: Policy, step: real, i: nat, k: nat)
    requires Enumerates(order, s.repo) && b in s.repo.catalog && i <= k < |runs|
    requires StandsStill(s, order, runs, b, o, p, step)
    requires forall j :: i <= j < k ==> !SetbackAt(s, order, runs, b, j)
    ensures RankAt(s, order, runs, b, o, k, step) == 0 || RankAt(s, order, runs, b, o, k, step) + (k - i) <= RankAt(s, order, runs, b, o, i, step)
    decreases k
  {
    hide RankAt, StandsStill, SetbackAt;
    if i < k {
      RankFalls(s, order, runs, b, o, p, step, i, k - 1);
      RankAtStep(s, order, runs, b, o, p, step, k - 1);
    }
  }

  /**
   Convergence: in a world that stands still, from as many runs after the last
   lost tag as the branch then owed, every run decides nothing for the branch,
   and the branch is up to date.
   */
  lemma Converges(s: Sys, order: seq<string>, runs: seq<Run>, b: string, o: Observation, p: Policy, step: real, i: nat, k: nat)
    requires Enumerates(order, s.repo) && b in s.repo.catalog && i <= k < |runs|
    requires StandsStill(s, order, runs, b, o, p, step)
    requires forall j :: i <= j < k ==> !SetbackAt(s, order, runs, b, j)
    requires k - i >= RankAt(s, order, runs, b, o, i, step)
    ensures SettledAt(s, order, runs, b, o, k)
  {
    hide RankAt, StandsStill, SettledAt, SetbackAt, Frozen;
    RankFalls(s, order, runs, b, o, p, step, i, k);
    StillIsFrozen(s, order, runs, b, o, p, step);
    OwesNothing(s, order, runs, b, o, p, step, k);
  }

  // ----- at most one new tag

  /** The tag a run would create for the branch. */
  predicate Creates(s: Sys, order: seq<string>, runs: seq<Run>, b: string, k: nat)
    requires Enumerates(order, s.repo) && b in s.repo.catalog && k < |runs|
  {
    var t := Dispatched(EntryAt(s, order, runs, k, b), DecidedAt(s, order, runs, k, b));
    t.Some? && t.value !in At(s, order, runs, k).remote
  }

  /** Nothing is left that could name another tag. */
  predicate Named(e: Entry, s: BranchState, o: Observation, remote: set<Tag>) {
    !IsNewer(o, e) && s.seen == o.seen && TagOf(e) in remote
  }

  lemma NamedStep(e: Entry, s: BranchState, o: Observation, published: set<Tag>, p: Policy, sha: string, remote: set<Tag>, later: set<Tag>)
    requires Complete(o.seen) && remote <= later
    ensures var d := Decide(e, s, o, published, p);
            && (Dispatched(e, d).Some? && Dispatched(e, d).value in later ==> Named(EntryAfter(e, d, sha), StateAfter(s, e, d), o, later))
            && (Named(e, s, o, remote) ==>
                  && Named(EntryAfter(e, d, sha), StateAfter(s, e, d), o, later)
                  && (Dispatched(e, d).Some? ==> Dispatched(e, d).value in remote))
  {
    hide Newer, Decide;
    if Dispatched(e, Decide(e, s, o, published, p)).Some? {
      NamingStep(e, s, o, published, p, sha);
    }
    if Named(e, s, o, remote) { NamedStays(e, s, o, published, p, sha, remote); }
  }

  /** A decision that names a tag leaves nothing newer and nothing unremembered. */
  lemma NamingStep(e: Entry, s: BranchState, o: Observation, published: set<Tag>, p: Policy, sha: string)
    requires Complete(o.seen) && Dispatched(e, Decide(e, s, o, published, p)).Some?
    ensures var d := Decide(e, s, o, published, p); var after := EntryAfter(e, d, sha);
            !IsNewer(o, after) && StateAfter(s, e, d).seen == o.seen && TagOf(after) == Dispatched(e, d).value
  {
    hide Newer;
    NotNewerThanItself(o);
  }

  lemma NamedStays(e: Entry, s: BranchState, o: Observation, published: set<Tag>, p: Policy, sha: string, remote: set<Tag>)
    requires Complete(o.seen) && Named(e, s, o, remote)
    ensures var d := Decide(e, s, o, published, p);
            && Named(EntryAfter(e, d, sha), StateAfter(s, e, d), o, remote)
            && (Dispatched(e, d).Some? ==> Dispatched(e, d).value in remote)
  {
    hide Newer;
  }

  predicate NamedAt(s: Sys, order: seq<string>, runs: seq<Run>, b: string, o: Observation, k: nat)
    requires Enumerates(order, s.repo) && b in s.repo.catalog && k <= |runs|
  {
    Named(EntryAt(s, order, runs, k, b), StateAt(s, order, runs, k, b), o, At(s, order, runs, k).remote)
  }

  lemma NamedAtStep(s: Sys, order: seq<string>, runs: seq<Run>, b: string, o: Observation, p: Policy, step: real, k: nat)
    requires Enumerates(order, s.repo) && b in s.repo.catalog && k < |runs|
    requires StandsStill(s, order, runs, b, o, p, step)
    ensures Creates(s, order, runs, b, k) ==> NamedAt(s, order, runs, b, o, k + 1)
    ensures NamedAt(s, order, runs, b, o, k) ==> NamedAt(s, order, runs, b, o, k + 1) && !Creates(s, order, runs, b, k)
  {
    hide Named, Decide, EntryAfter, StateAfter, At, Dispatched, Committed, Complete, Bumps, Belongs, Observed;
    AtFacts(s, order, runs, k, b);
    var e, st, d := EntryAt(s, order, runs, k, b), StateAt(s, order, runs, k, b), DecidedAt(s, order, runs, k, b);
    NamedStep(e, st, o, runs[k].published, runs[k].policy, ShaOf(runs[k].steps(b, d.version)), At(s, order, runs, k).remote, At(s, order, runs, k + 1).remote);
  }

  lemma {:induction false} NamedForever(s: Sys, order: seq<string>, runs: seq<Run>, b: string, o: Observation, p: Policy, step: real, i: nat, k: nat)
    requires Enumerates(order, s.repo) && b in s.repo.catalog && i <= k < |runs|
    requires StandsStill(s, order, runs, b, o, p, step) && NamedAt(s, order, runs, b, o, i)
    ensures NamedAt(s, order, runs, b, o, k) && !Creates(s, order, runs, b, k)
    decreases k
  {
    hide NamedAt, StandsStill, Creates;
    if i < k {
      NamedForever(s, order, runs, b, o, p, step, i, k - 1);
      NamedAtStep(s, order, runs, b, o, p, step, k - 1);
    }
    NamedAtStep(s, order, runs, b, o, p, step, k);
  }

  /** In a world that stands still a branch creates at most one new tag, even when dispatches are lost. */
  lemma AtMostOneNewTag(s: Sys, order: seq<string>, runs: seq<Run>, b: string, o: Observation, p: Policy, step: real, i: nat, k: nat)
    requires Enumerates(order, s.repo) && b in s.repo.catalog && i < k < |runs|
    requires StandsStill(s, order, runs, b, o, p, step) && Creates(s, order, runs, b, i)
    ensures !Creates(s, order, runs, b, k)
  {
    hide NamedAt, StandsStill, Creates;
    NamedAtStep(s, order, runs, b, o, p, step, i);
    NamedForever(s, order, runs, b, o, p, step, i + 1, k);
  }

  // ----- when a run is refused

  /** No tag of a branch, on the remote or in the changelog, comes later than the branch's own release. */
  ghost predicate NotAhead(r: Repo, known: set<Tag>) {
    forall t, b :: t in known && b in r.catalog && Series(t.version) == b ==> !Later(t, TagOf(r.catalog[b]))
  }

  /** The Dockerfile has every ARG default, and the default branch's runtime base is pinned. */
  predicate Mirrorable(r: Repo) {
    && r.defaultBranch in r.catalog && r.catalog[r.defaultBranch].runtime.digest != ""
    && Docker.AllPresent(r.docker, MirrorArgs(r.catalog[r.defaultBranch]))
  }

  /** Upstream's newest version of a branch is a release of that branch. */
  ghost predicate Listed(s: Sys, run: Run) {
    forall b :: b in s.repo.catalog && Observed(run, b).latest != "" ==> Belongs(Observed(run, b).latest, b)
  }

  lemma PresentNames(lines: seq<string>, x: seq<Docker.Arg>, y: seq<Docker.Arg>)
    requires |x| == |y| && forall k :: 0 <= k < |x| ==> x[k].name == y[k].name
    ensures Docker.AllPresent(lines, x) <==> Docker.AllPresent(lines, y)
  {
  }

  lemma MirrorableAfter(r: Repo, e: Entry, after: Entry)
    requires Docker.AllPresent(r.docker, MirrorArgs(e))
    ensures Docker.SyncFile(r.docker, MirrorArgs(after)).Some?
    ensures Docker.AllPresent(Docker.SyncFile(r.docker, MirrorArgs(after)).value, MirrorArgs(after))
  {
    ArgNames(e, after);
    MirrorArgsGood(after);
    hide MirrorArgs, Docker.SyncedLines, Docker.Present;
    PresentNames(r.docker, MirrorArgs(e), MirrorArgs(after));
    Docker.SyncAgrees(r.docker, MirrorArgs(after));
  }

  lemma ApplyOneGoes(r: Repo, b: string, d: Decision, remote: set<Tag>, sha: Option<string>)
    requires b in r.catalog && Mirrorable(r) && sha.Some?
    requires Bumps(d) ==> Dispatched(r.catalog[b], d).value !in remote && Dispatched(r.catalog[b], d).value !in r.changelog
    requires d.action == VersionBump ==> Belongs(d.version, b)
    ensures ApplyOne(r, b, d, remote, sha).Some?
    ensures var next := ApplyOne(r, b, d, remote, sha).value; Mirrorable(next)
  {
    hide Belongs, MirrorArgs, Docker.SyncFile, Docker.AllPresent;
    var e, after := r.catalog[b], EntryAfter(r.catalog[b], d, ShaOf(sha));
    TagAfterBump(e, d, ShaOf(sha));
    if b == r.defaultBranch {
      MirrorableAfter(r, e, after);
      ArgNames(e, after);
      PresentNames(r.docker, MirrorArgs(e), MirrorArgs(after));
    }
  }

  lemma TagAfterBump(e: Entry, d: Decision, sha: string)
    ensures Bumps(d) ==> TagOf(EntryAfter(e, d, sha)) == Dispatched(e, d).value
    ensures e.runtime.digest != "" ==> EntryAfter(e, d, sha).runtime.digest != ""
  {
  }

  lemma {:induction false} ApplyAllGoes(r: Repo, jobs: seq<Job>, remote: set<Tag>, steps: Steps)
    requires DistinctJobs(jobs) && Mirrorable(r)
    requires forall j :: j in jobs ==> steps(j.branch, j.decision.version).Some?
    requires forall j :: j in jobs ==> j.branch in r.catalog
    requires forall j :: j in jobs && Bumps(j.decision) ==>
               var t := Dispatched(r.catalog[j.branch], j.decision).value;
               t !in remote && t !in r.changelog && Series(t.version) == j.branch
    requires forall j :: j in jobs && j.decision.action == VersionBump ==> Belongs(j.decision.version, j.branch)
    ensures ApplyAll(r, jobs, remote, steps).Some? && Mirrorable(ApplyAll(r, jobs, remote, steps).value.0)
    decreases |jobs|
  {
    hide ApplyOne, Belongs, Mirrorable, Series, EntryAfter, StateAfter, StateOf;
    if jobs != [] {
      var j := jobs[0];
      assert j in jobs;
      ApplyOneGoes(r, j.branch, j.decision, remote, steps(j.branch, j.decision.version));
      ApplyOneFacts(r, j.branch, j.decision, remote, steps(j.branch, j.decision.version));
      var next := ApplyOne(r, j.branch, j.decision, remote, steps(j.branch, j.decision.version)).value;
      TagAfterBump(r.catalog[j.branch], j.decision, ShaOf(steps(j.branch, j.decision.version)));
      assert forall k :: k in jobs <==> k == j || k in jobs[1..];
      assert forall i :: 0 <= i < |jobs[1..]| ==> jobs[1..][i] == jobs[i + 1];
      forall k | k in jobs[1..] && Bumps(k.decision)
        ensures Dispatched(next.catalog[k.branch], k.decision).value !in next.changelog
      {
        assert k.branch != j.branch;
        ChangelogOfOne(r, j, remote, steps);
      }
      ApplyAllGoes(next, jobs[1..], remote, steps);
    }
  }

  /** Only a bump lists a tag, and it lists the tag it dispatches. */
  lemma ChangelogOfOne(r: Repo, j: Job, remote: set<Tag>, steps: Steps)
    requires j.branch in r.catalog && ApplyOne(r, j.branch, j.decision, remote, steps(j.branch, j.decision.version)).Some?
    ensures var next := ApplyOne(r, j.branch, j.decision, remote, steps(j.branch, j.decision.version)).value;
            forall t :: t in next.changelog ==> t in r.changelog || (Bumps(j.decision) && t == Dispatched(r.catalog[j.branch], j.decision).value)
  {
    hide Belongs, MirrorArgs, Docker.SyncFile;
    TagAfterBump(r.catalog[j.branch], j.decision, ShaOf(steps(j.branch, j.decision.version)));
  }

  lemma DecisionsOnward(e: Entry, s: BranchState, o: Observation, published: set<Tag>, p: Policy, b: string)
    requires Belongs(e.version, b) && (o.latest != "" ==> Belongs(o.latest, b))
    ensures var d := Decide(e, s, o, published, p);
            && (Bumps(d) ==> Later(Dispatched(e, d).value, TagOf(e)) && Belongs(Dispatched(e, d).value.version, b))
            && (d.action == VersionBump ==> Belongs(d.version, b))
  {
    hide Belongs, VersionKey;
    OrderTotal(VersionKey(e.version), VersionKey(e.version));
  }

  /** The outside world lets a run through: every verification and edit, the matrix, the commit and the push succeed. */
  ghost predicate Unhindered(run: Run) {
    run.goesThrough && run.matrix && forall b: string, v: string :: run.steps(b, v).Some?
  }

  /** With nothing ahead of the catalog, no run is refused: it commits as soon as the outside world lets it. */
  lemma NotAheadCommits(s: Sys, order: seq<string>, run: Run)
    requires Enumerates(order, s.repo) && Unhindered(run)
    requires Rooted(s.repo) && NotAhead(s.repo, s.remote + s.repo.changelog) && Mirrorable(s.repo) && Listed(s, run)
    ensures Outcome(s, order, run).Some? && Mirrorable(RunStep(s, order, run).repo)
  {
    hide ApplyAll, Belongs, Mirrorable, Series, Decide, Later;
    var jobs := Jobs(s, order, run);
    DefaultIsThere(s.repo);
    JobOf(s, order, run, s.repo.defaultBranch);
    forall j | j in jobs
      ensures Bumps(j.decision) ==>
                var t := Dispatched(s.repo.catalog[j.branch], j.decision).value;
                t !in s.remote && t !in s.repo.changelog && Series(t.version) == j.branch
      ensures j.decision.action == VersionBump ==> Belongs(j.decision.version, j.branch)
    {
      var b := j.branch;
      DecisionsOnward(s.repo.catalog[b], StateOf(s.repo, b), Observed(run, b), run.published, run.policy, b);
      if Bumps(j.decision) {
        var t := Dispatched(s.repo.catalog[b], j.decision).value;
        BelongsSeries(t.version, b);
      }
    }
    ApplyAllGoes(s.repo, jobs, s.remote, run.steps);
  }

  lemma DefaultIsThere(r: Repo)
    requires Mirrorable(r)
    ensures r.defaultBranch in r.catalog
  {
  }

  /** A run lists no tag in the changelog but those it dispatches. */
  lemma {:induction false} ApplyAllChangelog(r: Repo, jobs: seq<Job>, remote: set<Tag>, steps: Steps)
    requires DistinctJobs(jobs) && forall j :: j in jobs ==> j.branch in r.catalog
    requires ApplyAll(r, jobs, remote, steps).Some?
    ensures var (after, tags) := ApplyAll(r, jobs, remote, steps).value;
            forall t :: t in after.changelog ==> t in r.changelog || t in tags
    decreases |jobs|
  {
    hide ApplyOne, Belongs, EntryAfter, StateAfter, StateOf;
    if jobs != [] {
      var j := jobs[0];
      assert j in jobs;
      ApplyOneFacts(r, j.branch, j.decision, remote, steps(j.branch, j.decision.version));
      ChangelogOfOne(r, j, remote, steps);
      var next := ApplyOne(r, j.branch, j.decision, remote, steps(j.branch, j.decision.version)).value;
      assert forall k :: k in jobs[1..] ==> k in jobs;
      assert forall i :: 0 <= i < |jobs[1..]| ==> jobs[1..][i] == jobs[i + 1];
      ApplyAllChangelog(next, jobs[1..], remote, steps);
    }
  }

  lemma NotLaterThanItself(t: Tag)
    ensures !Later(t, t)
  {
    hide VersionKey;
    OrderTotal(VersionKey(t.version), VersionKey(t.version));
  }

  /** Nothing gets ahead of the catalog by the watcher's own doing. */
  lemma NotAheadStep(s: Sys, order: seq<string>, run: Run)
    requires Enumerates(order, s.repo) && Rooted(s.repo) && run.others == {} && Outcome(s, order, run).Some?
    requires NotAhead(s.repo, s.remote + s.repo.changelog)
    ensures var after := RunStep(s, order, run); NotAhead(after.repo, after.remote + after.repo.changelog)
  {
    hide ApplyAll, Dispatched, Belongs, Series, Decide, Later, EntryAfter, StateAfter;
    var after, tags := RunStep(s, order, run), Outcome(s, order, run).value.1;
    RunTags(s, order, run);
    ChangelogOfRun(s, order, run);
    forall t, b | t in after.remote + after.repo.changelog && b in after.repo.catalog && Series(t.version) == b
      ensures !Later(t, TagOf(after.repo.catalog[b]))
    {
      RunStepFacts(s, order, run, b);
      var e, d := s.repo.catalog[b], Decided(s, run, b);
      var next := after.repo.catalog[b];
      EntryAfterTag(e, StateOf(s.repo, b), Observed(run, b), run.published, run.policy, ShaOf(run.steps(b, d.version)));
      NotLaterThanItself(t);
      if t in tags {
        DispatchedActs(e, d);
      } else {
        assert t in s.remote + s.repo.changelog;
        if Later(t, TagOf(next)) { LaterTransitive(t, TagOf(next), TagOf(e)); }
      }
    }
  }

  lemma ChangelogOfRun(s: Sys, order: seq<string>, run: Run)
    requires Enumerates(order, s.repo) && Outcome(s, order, run).Some?
    ensures forall t :: t in RunStep(s, order, run).repo.changelog ==> t in s.repo.changelog || t in Outcome(s, order, run).value.1
  {
    hide ApplyAll, Decided;
    var jobs := Jobs(s, order, run);
    assert DistinctJobs(jobs);
    ApplyAllChangelog(s.repo, jobs, s.remote, run.steps);
  }

  /** The outside world cooperates: every step succeeds, nobody else makes tags, listings name releases of their branch. */
  ghost predicate Cooperative(s: Sys, runs: seq<Run>) {
    forall k :: 0 <= k < |runs| ==> Unhindered(runs[k]) && runs[k].others == {} && Listed(s, runs[k])
  }

  ghost predicate Healthy(s: Sys) {
    Rooted(s.repo) && NotAhead(s.repo, s.remote + s.repo.changelog) && Mirrorable(s.repo)
  }

  lemma HealthyStep(s: Sys, order: seq<string>, run: Run)
    requires Enumerates(order, s.repo) && Healthy(s) && Unhindered(run) && run.others == {} && Listed(s, run)
    ensures Outcome(s, order, run).Some? && Healthy(RunStep(s, order, run))
  {
    hide RunStep, Outcome, Rooted, NotAhead, Mirrorable;
    NotAheadCommits(s, order, run);
    NotAheadStep(s, order, run);
    RootedStep(s, order, run);
  }

  /** From a healthy state, with a cooperating world, every run commits and the state stays healthy. */
  lemma {:induction false} CooperativeRunsCommit(s: Sys, order: seq<string>, runs: seq<Run>, k: nat)
    requires Enumerates(order, s.repo) && Healthy(s) && Cooperative(s, runs) && k <= |runs|
    ensures Healthy(At(s, order, runs, k))
    ensures k < |runs| ==> Committed(s, order, runs, k)
  {
    hide RunStep, Outcome, Healthy, After, Belongs, Observed;
    if k == 0 {
      AtZero(s, order, runs);
    } else {
      CooperativeRunsCommit(s, order, runs, k - 1);
      AtNext(s, order, runs, k - 1);
      HealthyStep(At(s, order, runs, k - 1), order, runs[k - 1]);
    }
    if k < |runs| { HealthyStep(At(s, order, runs, k), order, runs[k]); }
  }

  /**
   From any healthy state, once the observation of a branch is frozen and the
   world cooperates: the branch creates at most one new tag; the runs that find
   it unsettled are no more than it owed at first and than its tag got lost on
   the registry; and after as many runs without such a loss as it then owed it
   rests and is up to date.
   */
  lemma SettlesFromAnywhere(s: Sys, order: seq<string>, runs: seq<Run>, b: string, o: Observation, p: Policy, step: real, i: nat, k: nat)
    requires Enumerates(order, s.repo) && b in s.repo.catalog && i < k < |runs|
    requires Healthy(s) && Cooperative(s, runs) && Frozen(runs, b, o, p, step)
    ensures !(Creates(s, order, runs, b, i) && Creates(s, order, runs, b, k))
    ensures Unsettled(s, order, runs, b, o, k) <= RankAt(s, order, runs, b, o, 0, step) + Setbacks(s, order, runs, b, k)
    ensures (forall j :: i <= j < k ==> !SetbackAt(s, order, runs, b, j)) && k - i >= RankAt(s, order, runs, b, o, i, step) ==>
              SettledAt(s, order, runs, b, o, k)
  {
    hide Creates, RankAt, SetbackAt, SettledAt, Setbacks, Unsettled, Committed, Observed, Healthy;
    forall j | 0 <= j < |runs|
      ensures Committed(s, order, runs, j)
    {
      CooperativeRunsCommit(s, order, runs, j);
    }
    if Creates(s, order, runs, b, i) { AtMostOneNewTag(s, order, runs, b, o, p, step, i, k); }
    RankIsBudget(s, order, runs, b, o, p, step, k);
    if (forall j :: i <= j < k ==> !SetbackAt(s, order, runs, b, j)) && k - i >= RankAt(s, order, runs, b, o, i, step) {
      Converges(s, order, runs, b, o, p, step, i, k);
    }
  }

  // ----- one version order, end to end

  lemma ReleaseIsPlain(v: string)
    requires IsRelease(v) && Valid(v)
    ensures Plain(v)
  {
    var parts := SplitOn(v, '.');
    JoinSplit(v, '.');
    assert v == parts[0] + ['.'] + Join(parts[1..], ['.']);
    assert v[0] == parts[0][0];
    assert IsDigit(parts[0][0]);
  }

  /**
   Moving a volume from any release the watcher reached on a branch to any
   later one never meets the downgrade refusal, whatever the mode.
   */
  lemma LaterReleaseIsNoDowngrade(s: Sys, order: seq<string>, runs: seq<Run>, b: string, i: nat, j: nat,
                                  cfg: Life.Settings, marker: Life.Marker, present: bool)
    requires Enumerates(order, s.repo) && Rooted(s.repo) && b in s.repo.catalog && i <= j <= |runs|
    requires Valid(EntryAt(s, order, runs, i, b).version) && Valid(EntryAt(s, order, runs, j, b).version)
    requires marker.sambaVersion == EntryAt(s, order, runs, i, b).version
    ensures Life.Decide(cfg, Life.Observation(present, Some(marker)), EntryAt(s, order, runs, j, b).version)
         != Life.Denied(Refusals.Downgrade)
  {
    hide Valid, Compare, EntryAt, IsRelease, VersionKey, At, Life.Decide, Rooted;
    var x, y := EntryAt(s, order, runs, i, b).version, EntryAt(s, order, runs, j, b).version;
    RootedForever(s, order, runs, i);
    RootedForever(s, order, runs, j);
    RootedAt(s, order, runs, b, i);
    RootedAt(s, order, runs, b, j);
    ReleaseIsPlain(x);
    ReleaseIsPlain(y);
    ReleasesMoveOn(s, order, runs, b, i, j);
    NotLaterCompares(x, y, EntryAt(s, order, runs, i, b).revision, EntryAt(s, order, runs, j, b).revision);
    NoDowngrade(cfg, marker, present, y);
  }

  lemma NotLaterCompares(x: string, y: string, m: nat, n: nat)
    requires Plain(x) && Plain(y) && (Later(Tag(y, n), Tag(x, m)) || Tag(y, n) == Tag(x, m))
    ensures Compare(x, y).Some? && Compare(x, y).value <= 0
  {
    hide VersionKey, Triple;
    OneOrder(x, y);
    OrderTotal(VersionKey(x), VersionKey(y));
  }

  lemma NoDowngrade(cfg: Life.Settings, marker: Life.Marker, present: bool, image: string)
    requires Compare(marker.sambaVersion, image).Some? && Compare(marker.sambaVersion, image).value <= 0
    ensures Life.Decide(cfg, Life.Observation(present, Some(marker)), image) != Life.Denied(Refusals.Downgrade)
  {
    hide Valid;
  }

  lemma RootedAt(s: Sys, order: seq<string>, runs: seq<Run>, b: string, i: nat)
    requires Enumerates(order, s.repo) && b in s.repo.catalog && i <= |runs|
    requires Rooted(At(s, order, runs, i).repo)
    ensures IsRelease(EntryAt(s, order, runs, i, b).version)
  {
    hide IsRelease, After;
  }
}
