/**
 Supervising and stopping the daemons, as in entrypoint/internal/run/run.go.

 Time is an integer count of nanoseconds. When a daemon's exit reaches the
 entrypoint, if ever, is arbitrary, and so is the order of the events the
 supervisor waits for and the choice a select makes between two cases that
 are ready at the same instant; the entrypoint itself takes no time.
 */
module Supervision {
  import opened Text
  import opened Refusals

  // ----- the shutdown budget

  const DEFAULT_GRACE := 10_000_000_000
  const DEFAULT_KILL := 2_000_000_000

  datatype Timing = Timing(shutdownGrace: int, killGrace: int)

  function Grace(t: Timing): int {
    if t.shutdownGrace <= 0 then DEFAULT_GRACE else t.shutdownGrace
  }

  function KillGrace(t: Timing): int {
    if t.killGrace <= 0 then DEFAULT_KILL else t.killGrace
  }

  /** The polite phase: the grace without the reap window, or half of it when nothing would be left. */
  function TermWindow(t: Timing): (w: int)
    ensures 0 <= w < Grace(t)
    ensures if KillGrace(t) < Grace(t) then w + KillGrace(t) == Grace(t) else 2 * w <= Grace(t) <= 2 * w + 1
  {
    var w := Grace(t) - KillGrace(t);
    if w > 0 then w else Grace(t) / 2
  }

  /** The two windows of a shutdown: what is configured, or ten seconds of which the last two are for reaping. */
  lemma BudgetIs(t: Timing)
    ensures t.shutdownGrace <= 0 && t.killGrace <= 0 ==> Grace(t) == 10_000_000_000 && TermWindow(t) == 8_000_000_000
    ensures t.shutdownGrace > t.killGrace > 0 ==> Grace(t) == t.shutdownGrace && TermWindow(t) == t.shutdownGrace - t.killGrace
    ensures t.shutdownGrace > 2_000_000_000 && t.killGrace <= 0 ==> Grace(t) == t.shutdownGrace && TermWindow(t) == t.shutdownGrace - 2_000_000_000
    ensures 0 < t.shutdownGrace <= t.killGrace ==> Grace(t) == t.shutdownGrace && TermWindow(t) == t.shutdownGrace / 2
  {
  }

  // ----- stopping one daemon

  datatype Daemon = Samba | Chronyd

  datatype Act =
    | Begun(d: Daemon)
    | Received(d: Daemon, at: int)
    | Term(d: Daemon, at: int)
    | Kill(d: Daemon, at: int)
    | Abandoned(d: Daemon, at: int)

  /** When a daemon's exit is delivered: left alone after SIGTERM, and after SIGKILL (None: never). */
  datatype Fate = Fate(stopped: Option<int>, killed: Option<int>, tie: bool, killTie: bool)

  function Max(a: int, b: int): int {
    if a < b then b else a
  }

  /** Waiting for an exit or a deadline: when the wait ends, and whether the exit ended it. */
  function Wait(now: int, ready: Option<int>, deadline: int, tie: bool): (int, bool) {
    var d := Max(now, deadline);
    match ready
    case None => (d, false)
    case Some(r) => if Max(now, r) < d || (Max(now, r) == d && tie) then (Max(now, r), true) else (d, false)
  }

  function StopActs(now: int, termAt: int, killAt: int, d: Daemon, f: Fate): (int, seq<Act>) {
    var (t1, done) := Wait(now, f.stopped, termAt, f.tie);
    if done then (t1, [Term(d, now), Received(d, t1)])
    else
      var (t2, reaped) := Wait(t1, f.killed, killAt, f.killTie);
      (t2, [Term(d, now), Kill(d, t1), if reaped then Received(d, t2) else Abandoned(d, t2)])
  }

  // ----- stopping both

  /** The fates of the two daemons from the moment a stop begins. */
  datatype Fates = Fates(samba: Fate, chronyd: Fate)

  function ShutdownActs(t: Timing, start: int, f: Fates, chronyUp: bool): (int, seq<Act>) {
    var termAt, killAt := start + TermWindow(t), start + Grace(t);
    var (mid, first) := StopActs(start, termAt, killAt, Samba, f.samba);
    if !chronyUp then (mid, first)
    else
      var (end, second) := StopActs(mid, termAt, killAt, Chronyd, f.chronyd);
      (end, first + second)
  }

  ghost predicate Heard(acts: seq<Act>, d: Daemon) {
    exists at :: Received(d, at) in acts
  }

  ghost predicate Told(acts: seq<Act>, d: Daemon) {
    exists at :: Term(d, at) in acts
  }

  ghost predicate Forced(acts: seq<Act>, d: Daemon) {
    exists at :: Kill(d, at) in acts
  }

  /** The daemon's exit is in the log, or it was killed and the whole budget was spent waiting for it. */
  ghost predicate Settled(acts: seq<Act>, d: Daemon, killAt: int) {
    Heard(acts, d) || (Forced(acts, d) && Abandoned(d, killAt) in acts)
  }

  predicate Signals(a: Act, d: Daemon) {
    a.d == d && (a.Term? || a.Kill?)
  }

  /**
   A stop of one daemon in order: SIGTERM at once, SIGKILL only when the polite
   phase is over and only if no exit was due before, and a return with the exit
   received or, at the hard deadline, with both signals sent.
   */
  predicate InOrder(now: int, termAt: int, killAt: int, d: Daemon, f: Fate, end: int, acts: seq<Act>) {
    && now <= end <= killAt
    && |acts| >= 2 && acts[0] == Term(d, now) && (forall i :: 0 < i < |acts| ==> !acts[i].Term?)
    && (forall i :: 0 <= i < |acts| ==> acts[i].d == d && !acts[i].Begun?)
    && (forall i :: 0 <= i < |acts| && acts[i].Kill? ==> i == 1 && Max(now, termAt) == acts[i].at <= end)
    && ((exists i :: 0 <= i < |acts| && acts[i].Kill?) ==>
          f.stopped.None? || Max(now, f.stopped.value) >= Max(now, termAt))
    && (acts[|acts| - 1] == Received(d, end) || (acts[|acts| - 1] == Abandoned(d, killAt) && end == killAt && |acts| == 3 && acts[1].Kill?))
    && (forall i :: 0 <= i < |acts| - 1 ==> !acts[i].Received? && !acts[i].Abandoned?)
  }

  /** Every stop of one daemon is in order. */
  lemma StopFacts(now: int, termAt: int, killAt: int, d: Daemon, f: Fate)
    requires termAt < killAt && now <= killAt
    ensures InOrder(now, termAt, killAt, d, f, StopActs(now, termAt, killAt, d, f).0, StopActs(now, termAt, killAt, d, f).1)
  {
  }

  method StopProc(now: int, termAt: int, killAt: int, d: Daemon, f: Fate) returns (end: int, acts: seq<Act>)
    ensures (end, acts) == StopActs(now, termAt, killAt, d, f)
    ensures termAt < killAt && now <= killAt ==> InOrder(now, termAt, killAt, d, f, end, acts)
  {
    if termAt < killAt && now <= killAt { StopFacts(now, termAt, killAt, d, f); }
    acts := [Term(d, now)];
    var polite := Wait(now, f.stopped, termAt, f.tie);
    end := polite.0;
    if polite.1 {
      acts := acts + [Received(d, end)];
      assert acts == [Term(d, now), Received(d, end)];
      return;
    }
    acts := acts + [Kill(d, end)];
    var forced := Wait(end, f.killed, killAt, f.killTie);
    end := forced.0;
    acts := acts + [if forced.1 then Received(d, end) else Abandoned(d, end)];
    assert acts == [Term(d, now), Kill(d, polite.0), if forced.1 then Received(d, end) else Abandoned(d, end)];
  }

  /** A shutdown within its budget: one grace for both daemons and both phases, samba before chronyd, nobody killed too soon. */
  ghost predicate WithinBudget(t: Timing, start: int, chronyUp: bool, end: int, acts: seq<Act>) {
    && start <= end <= start + Grace(t)
    && acts != [] && acts[0] == Term(Samba, start)
    && (forall i :: 0 <= i < |acts| && acts[i].Kill? ==> acts[i].at >= start + TermWindow(t))
    && (forall i, j :: 0 <= i < |acts| && 0 <= j < |acts| && acts[i].d == Samba && acts[j].d == Chronyd ==> i < j)
    && Settled(acts, Samba, start + Grace(t))
    && (chronyUp ==> Settled(acts, Chronyd, start + Grace(t)) && Told(acts, Chronyd))
    && (!chronyUp ==> forall i :: 0 <= i < |acts| ==> acts[i].d == Samba)
  }

  /**
   The two stops share one budget: whatever the daemons do, the shutdown
   ends within the grace, SIGTERM goes to samba first and at once, nobody is
   killed while the polite phase lasts, every daemon that was up is told to
   stop, and each is reaped or had both signals and the whole budget.
   */
  lemma ShutdownWithinBudget(t: Timing, start: int, f: Fates, chronyUp: bool)
    ensures WithinBudget(t, start, chronyUp, ShutdownActs(t, start, f, chronyUp).0, ShutdownActs(t, start, f, chronyUp).1)
  {
    hide StopActs, Settled;
    var termAt, killAt := start + TermWindow(t), start + Grace(t);
    StopWithinBudget(start, termAt, killAt, Samba, f.samba);
    var (mid, first) := StopActs(start, termAt, killAt, Samba, f.samba);
    if chronyUp {
      StopWithinBudget(mid, termAt, killAt, Chronyd, f.chronyd);
      var (end, second) := StopActs(mid, termAt, killAt, Chronyd, f.chronyd);
      StopsJoined(t, start, mid, end, first, second);
    } else {
      StopAlone(t, start, mid, first);
    }
  }

  /** What one stop contributes to a shutdown within its budget. */
  ghost predicate OneStop(now: int, termAt: int, killAt: int, d: Daemon, end: int, acts: seq<Act>) {
    && now <= end <= killAt
    && acts != [] && acts[0] == Term(d, now)
    && (forall i :: 0 <= i < |acts| ==> acts[i].d == d && (acts[i].Kill? ==> acts[i].at >= termAt))
    && Settled(acts, d, killAt)
  }

  lemma StopWithinBudget(now: int, termAt: int, killAt: int, d: Daemon, f: Fate)
    requires termAt < killAt && now <= killAt
    ensures OneStop(now, termAt, killAt, d, StopActs(now, termAt, killAt, d, f).0, StopActs(now, termAt, killAt, d, f).1)
  {
    hide StopActs;
    StopFacts(now, termAt, killAt, d, f);
    var (end, acts) := StopActs(now, termAt, killAt, d, f);
    SettledByStop(acts, d, end, killAt);
  }

  lemma StopAlone(t: Timing, start: int, end: int, acts: seq<Act>)
    requires OneStop(start, start + TermWindow(t), start + Grace(t), Samba, end, acts)
    ensures WithinBudget(t, start, false, end, acts)
  {
    hide Settled;
  }

  lemma StopsJoined(t: Timing, start: int, mid: int, end: int, first: seq<Act>, second: seq<Act>)
    requires OneStop(start, start + TermWindow(t), start + Grace(t), Samba, mid, first)
    requires OneStop(mid, start + TermWindow(t), start + Grace(t), Chronyd, end, second)
    ensures WithinBudget(t, start, true, end, first + second)
  {
    hide Settled;
    SettledConcat(first, second, start + Grace(t));
    assert (first + second)[|first|] == Term(Chronyd, mid);
  }

  method Shutdown(t: Timing, start: int, f: Fates, chronyUp: bool) returns (end: int, acts: seq<Act>)
    ensures (end, acts) == ShutdownActs(t, start, f, chronyUp)
    ensures WithinBudget(t, start, chronyUp, end, acts)
  {
    ShutdownWithinBudget(t, start, f, chronyUp);
    var termAt, killAt := start + TermWindow(t), start + Grace(t);
    end, acts := StopProc(start, termAt, killAt, Samba, f.samba);
    if chronyUp {
      var second;
      end, second := StopProc(end, termAt, killAt, Chronyd, f.chronyd);
      acts := acts + second;
    }
  }

  lemma SettledByStop(acts: seq<Act>, d: Daemon, end: int, killAt: int)
    requires |acts| >= 2
    requires acts[|acts| - 1] == Received(d, end)
          || (acts[|acts| - 1] == Abandoned(d, killAt) && acts[1].Kill? && acts[1].d == d)
    ensures Settled(acts, d, killAt)
  {
    assert acts[|acts| - 1] in acts;
    if acts[|acts| - 1] != Received(d, end) {
      assert acts[1] in acts && acts[1] == Kill(d, acts[1].at);
    }
  }

  lemma SettledConcat(a: seq<Act>, b: seq<Act>, killAt: int)
    ensures forall d :: Settled(a, d, killAt) || Settled(b, d, killAt) ==> Settled(a + b, d, killAt)
  {
    assert forall x :: x in a || x in b ==> x in a + b;
  }

  ghost predicate NeverKilled(now: int, termAt: int, killAt: int, d: Daemon, f: Fate) {
    forall tie: bool :: !Forced(StopActs(now, termAt, killAt, d, f.(tie := tie)).1, d)
  }

  /**
   A daemon is spared the SIGKILL however the ready cases are picked exactly
   when it stops while the polite phase lasts and its own stop began in that
   phase: one whose turn comes later may be killed although it has exited.
   */
  lemma NeverKilledIff(now: int, termAt: int, killAt: int, d: Daemon, f: Fate)
    requires termAt < killAt && now <= killAt
    ensures NeverKilled(now, termAt, killAt, d, f) <==> f.stopped.Some? && f.stopped.value < termAt && now < termAt
  {
    hide StopActs;
    StopFacts(now, termAt, killAt, d, f.(tie := true));
    StopFacts(now, termAt, killAt, d, f.(tie := false));
    if !(f.stopped.Some? && f.stopped.value < termAt && now < termAt) {
      LateStopKills(now, termAt, killAt, d, f.(tie := false));
    }
  }

  lemma LateStopKills(now: int, termAt: int, killAt: int, d: Daemon, f: Fate)
    requires !f.tie && !(f.stopped.Some? && f.stopped.value < termAt && now < termAt)
    ensures Forced(StopActs(now, termAt, killAt, d, f).1, d)
  {
    var acts := StopActs(now, termAt, killAt, d, f).1;
    assert acts[1] == Kill(d, acts[1].at) && acts[1] in acts;
  }

  /** The two daemons' fates with the ready cases picked this way when an exit and the end of the polite phase coincide. */
  function Picked(f: Fates, samba: bool, chronyd: bool): Fates {
    Fates(f.samba.(tie := samba), f.chronyd.(tie := chronyd))
  }

  ghost predicate Spared(t: Timing, start: int, f: Fates, d: Daemon) {
    forall x: bool, y: bool :: !Forced(ShutdownActs(t, start, Picked(f, x, y), true).1, d)
  }

  /** The daemon's exit is due before the polite phase of a shutdown ends. */
  predicate InTime(t: Timing, start: int, f: Fate) {
    f.stopped.Some? && f.stopped.value < start + TermWindow(t)
  }

  lemma ForcedIn(t: Timing, start: int, f: Fates)
    ensures var termAt, killAt := start + TermWindow(t), start + Grace(t);
            var first := StopActs(start, termAt, killAt, Samba, f.samba);
            && (Forced(ShutdownActs(t, start, f, true).1, Samba) <==> Forced(first.1, Samba))
            && (Forced(ShutdownActs(t, start, f, true).1, Chronyd)
                <==> Forced(StopActs(first.0, termAt, killAt, Chronyd, f.chronyd).1, Chronyd))
  {
    hide StopActs;
    var termAt, killAt := start + TermWindow(t), start + Grace(t);
    StopFacts(start, termAt, killAt, Samba, f.samba);
    var first := StopActs(start, termAt, killAt, Samba, f.samba);
    StopFacts(first.0, termAt, killAt, Chronyd, f.chronyd);
    var second := StopActs(first.0, termAt, killAt, Chronyd, f.chronyd).1;
    assert ShutdownActs(t, start, f, true).1 == first.1 + second;
    assert forall a :: a in first.1 + second <==> a in first.1 || a in second;
  }

  /** When samba's stop ends while the polite phase lasts. */
  lemma PoliteEnd(now: int, termAt: int, killAt: int, f: Fate)
    requires now < termAt < killAt
    ensures StopActs(now, termAt, killAt, Samba, f).0 < termAt <==> f.stopped.Some? && f.stopped.value < termAt
  {
  }

  /**
   Who is spared the SIGKILL in a shutdown of both, however the ready cases are
   picked: samba exactly when its exit is due in the polite phase, chronyd
   exactly when both exits are.
   */
  lemma SparedIff(t: Timing, start: int, f: Fates)
    ensures Spared(t, start, f, Samba) <==> TermWindow(t) > 0 && InTime(t, start, f.samba)
    ensures Spared(t, start, f, Chronyd) <==> TermWindow(t) > 0 && InTime(t, start, f.samba) && InTime(t, start, f.chronyd)
  {
    hide StopActs, ShutdownActs;
    var termAt, killAt := start + TermWindow(t), start + Grace(t);
    forall x: bool, y: bool
      ensures TermWindow(t) > 0 && InTime(t, start, f.samba) ==> !Forced(ShutdownActs(t, start, Picked(f, x, y), true).1, Samba)
      ensures TermWindow(t) > 0 && InTime(t, start, f.samba) && InTime(t, start, f.chronyd) ==>
                !Forced(ShutdownActs(t, start, Picked(f, x, y), true).1, Chronyd)
    {
      if TermWindow(t) > 0 && InTime(t, start, f.samba) { SparedWhenInTime(t, start, Picked(f, x, y)); }
    }
    ForcedIn(t, start, Picked(f, false, false));
    var first := StopActs(start, termAt, killAt, Samba, f.samba.(tie := false)).0;
    if !(TermWindow(t) > 0 && InTime(t, start, f.samba)) {
      LateStopKills(start, termAt, killAt, Samba, f.samba.(tie := false));
      assert Forced(ShutdownActs(t, start, Picked(f, false, false), true).1, Samba);
    }
    if !(TermWindow(t) > 0 && InTime(t, start, f.samba) && InTime(t, start, f.chronyd)) {
      StopFacts(start, termAt, killAt, Samba, f.samba.(tie := false));
      if TermWindow(t) > 0 { PoliteEnd(start, termAt, killAt, f.samba.(tie := false)); }
      LateStopKills(first, termAt, killAt, Chronyd, f.chronyd.(tie := false));
      assert Forced(ShutdownActs(t, start, Picked(f, false, false), true).1, Chronyd);
    }
  }

  lemma SparedWhenInTime(t: Timing, start: int, f: Fates)
    requires TermWindow(t) > 0 && InTime(t, start, f.samba)
    ensures !Forced(ShutdownActs(t, start, f, true).1, Samba)
    ensures InTime(t, start, f.chronyd) ==> !Forced(ShutdownActs(t, start, f, true).1, Chronyd)
  {
    hide StopActs, ShutdownActs;
    var termAt, killAt := start + TermWindow(t), start + Grace(t);
    ForcedIn(t, start, f);
    NoKillInTime(start, termAt, killAt, Samba, f.samba);
    var first := StopActs(start, termAt, killAt, Samba, f.samba).0;
    PoliteEnd(start, termAt, killAt, f.samba);
    if InTime(t, start, f.chronyd) { NoKillInTime(first, termAt, killAt, Chronyd, f.chronyd); }
  }

  lemma NoKillInTime(now: int, termAt: int, killAt: int, d: Daemon, f: Fate)
    requires now < termAt < killAt && f.stopped.Some? && f.stopped.value < termAt
    ensures !Forced(StopActs(now, termAt, killAt, d, f).1, d)
  {
  }

  /** chronyd, exited before the stop even began, is killed all the same when samba has used up the polite phase. */
  lemma ExitedChronydMayBeKilled()
    ensures var t := Timing(10, 2);
            var f := Fates(Fate(None, Some(8), false, true), Fate(Some(-1), Some(-1), false, true));
            Kill(Chronyd, 8) in ShutdownActs(t, 0, f, true).1
  {
    var first := StopActs(0, 8, 10, Samba, Fate(None, Some(8), false, true));
    assert first.0 == 8;
    var second := StopActs(8, 8, 10, Chronyd, Fate(Some(-1), Some(-1), false, true)).1;
    assert second[1] == Kill(Chronyd, 8);
    assert (first.1 + second)[|first.1| + 1] == Kill(Chronyd, 8);
  }

  // ----- the supervisor

  datatype Event = SambaExit(failed: bool) | ChronydExit | StopSignal | Cancelled

  /** An event, when it is taken up, and how the daemons behave if it starts a stop. */
  datatype Arrival = Arrival(event: Event, at: int, fates: Fates)

  datatype Startup = Startup(runtimeDirs: bool, chrony: bool, chronyConf: bool, chronyStarts: bool, sambaStarts: bool,
                             at: int, fates: Fates)

  datatype Result = Running | Clean | Failed(code: Code)

  function StopOne(t: Timing, at: int, d: Daemon, f: Fate, up: bool): seq<Act> {
    if up then StopActs(at, at + TermWindow(t), at + Grace(t), d, f).1 else []
  }

  /** The loop: what happens from here on, chronyd still being waited for or not. */
  function Watch(t: Timing, arrivals: seq<Arrival>, chronyUp: bool): (Result, seq<Act>) {
    if arrivals == [] then (Running, [])
    else
      var a := arrivals[0];
      match a.event
      case SambaExit(failed) =>
        (if failed then Failed(RuntimeFailure) else Clean,
         [Received(Samba, a.at)] + StopOne(t, a.at, Chronyd, a.fates.chronyd, chronyUp))
      case ChronydExit =>
        var (r, acts) := Watch(t, arrivals[1..], false);
        (r, (if chronyUp then [Received(Chronyd, a.at)] else []) + acts)
      case _ => (Clean, ShutdownActs(t, a.at, a.fates, chronyUp).1)
  }

  function SuperviseActs(t: Timing, s: Startup, arrivals: seq<Arrival>): (Result, seq<Act>) {
    if !s.runtimeDirs || (s.chrony && (!s.chronyConf || !s.chronyStarts)) then (Failed(RuntimeFailure), [])
    else
      var begun := if s.chrony then [Begun(Chronyd)] else [];
      if !s.sambaStarts then (Failed(RuntimeFailure), begun + StopOne(t, s.at, Chronyd, s.fates.chronyd, s.chrony))
      else
        var (r, acts) := Watch(t, arrivals, s.chrony);
        (r, begun + [Begun(Samba)] + acts)
  }

  method Supervise(t: Timing, s: Startup, arrivals: seq<Arrival>) returns (r: Result, acts: seq<Act>)
    ensures (r, acts) == SuperviseActs(t, s, arrivals)
  {
    hide StopActs, ShutdownActs;
    if !s.runtimeDirs {
      return Failed(RuntimeFailure), [];
    }
    var chrony := false;
    acts := [];
    if s.chrony {
      if !s.chronyConf || !s.chronyStarts {
        return Failed(RuntimeFailure), [];
      }
      chrony, acts := true, [Begun(Chronyd)];
    }
    if !s.sambaStarts {
      var stopped := StopIfUp(t, s.at, s.fates.chronyd, chrony);
      return Failed(RuntimeFailure), acts + stopped;
    }
    acts := acts + [Begun(Samba)];
    ghost var begun := acts;
    assert arrivals[0..] == arrivals;
    for i := 0 to |arrivals|
      invariant begun + Watch(t, arrivals, s.chrony).1 == acts + Watch(t, arrivals[i..], chrony).1
      invariant Watch(t, arrivals, s.chrony).0 == Watch(t, arrivals[i..], chrony).0
    {
      var a := arrivals[i];
      WatchStep(t, arrivals, i, chrony, acts);
      match a.event {
        case SambaExit(failed) =>
          var stopped := StopIfUp(t, a.at, a.fates.chronyd, chrony);
          return if failed then Failed(RuntimeFailure) else Clean, acts + ([Received(Samba, a.at)] + stopped);
        case ChronydExit =>
          if chrony {
            acts := acts + [Received(Chronyd, a.at)];
            chrony := false;
          }
        case StopSignal =>
          var _, stopped := Shutdown(t, a.at, a.fates, chrony);
          return Clean, acts + stopped;
        case Cancelled =>
          var _, stopped := Shutdown(t, a.at, a.fates, chrony);
          return Clean, acts + stopped;
      }
    }
    assert arrivals[|arrivals|..] == [] && acts + [] == acts;
    return Running, acts;
  }

  method StopIfUp(t: Timing, at: int, f: Fate, up: bool) returns (acts: seq<Act>)
    ensures acts == StopOne(t, at, Chronyd, f, up)
  {
    acts := [];
    if up {
      var _, stopped := StopProc(at, at + TermWindow(t), at + Grace(t), Chronyd, f);
      acts := stopped;
    }
  }

  lemma WatchStep(t: Timing, arrivals: seq<Arrival>, i: nat, chronyUp: bool, acts: seq<Act>)
    requires i < |arrivals|
    ensures var a := arrivals[i]; var (r, rest) := Watch(t, arrivals[i..], chronyUp);
            match a.event
            case SambaExit(failed) =>
              && r == (if failed then Failed(RuntimeFailure) else Clean)
              && rest == [Received(Samba, a.at)] + StopOne(t, a.at, Chronyd, a.fates.chronyd, chronyUp)
            case ChronydExit =>
              && r == Watch(t, arrivals[i + 1..], false).0
              && acts + rest == (if chronyUp then acts + [Received(Chronyd, a.at)] else acts) + Watch(t, arrivals[i + 1..], false).1
            case _ => r == Clean && rest == ShutdownActs(t, a.at, a.fates, chronyUp).1
  {
    hide StopActs, ShutdownActs, StopOne;
    assert arrivals[i..][0] == arrivals[i] && arrivals[i..][1..] == arrivals[i + 1..];
  }

  // ----- accounting

  /** No daemon is signalled once its exit has been received. */
  predicate NoSignalAfterExit(acts: seq<Act>) {
    forall i, j :: 0 <= i < j < |acts| && acts[i].Received? ==> !Signals(acts[j], acts[i].d)
  }

  /** The daemon's exit was received, or it was told to stop and then killed. */
  ghost predicate Accounted(acts: seq<Act>, d: Daemon) {
    Heard(acts, d) || (Told(acts, d) && Forced(acts, d))
  }

  lemma StopOneAccounts(now: int, termAt: int, killAt: int, d: Daemon, f: Fate)
    requires termAt < killAt && now <= killAt
    ensures var acts := StopActs(now, termAt, killAt, d, f).1;
            Accounted(acts, d) && NoSignalAfterExit(acts) && forall a :: a in acts ==> a.d == d
  {
    hide StopActs, Max;
    StopFacts(now, termAt, killAt, d, f);
    var (end, acts) := StopActs(now, termAt, killAt, d, f);
    assert acts[0] in acts && acts[1] in acts && acts[|acts| - 1] in acts;
    if acts[|acts| - 1] == Received(d, end) {
      assert Heard(acts, d);
    } else {
      assert Kill(d, acts[1].at) in acts && Term(d, now) in acts;
    }
  }

  lemma AccountedConcat(a: seq<Act>, b: seq<Act>, d: Daemon)
    ensures Accounted(a, d) || Accounted(b, d) ==> Accounted(a + b, d)
  {
    assert forall x :: x in a || x in b ==> x in a + b;
  }

  lemma QuietConcat(a: seq<Act>, b: seq<Act>)
    requires NoSignalAfterExit(a) && NoSignalAfterExit(b)
    requires forall x, y :: x in a && y in b && x.Received? ==> !Signals(y, x.d)
    ensures NoSignalAfterExit(a + b)
  {
    forall i, j | 0 <= i < j < |a + b| && (a + b)[i].Received?
      ensures !Signals((a + b)[j], (a + b)[i].d)
    {
      if i < |a| <= j { assert a[i] in a && b[j - |a|] in b; }
    }
  }

  lemma ShutdownAccounts(t: Timing, start: int, f: Fates, chronyUp: bool)
    ensures var acts := ShutdownActs(t, start, f, chronyUp).1;
            && Accounted(acts, Samba) && (chronyUp ==> Accounted(acts, Chronyd)) && NoSignalAfterExit(acts)
            && (!chronyUp ==> forall a :: a in acts ==> a.d == Samba)
  {
    hide StopActs, Accounted, NoSignalAfterExit;
    var termAt, killAt := start + TermWindow(t), start + Grace(t);
    StopFacts(start, termAt, killAt, Samba, f.samba);
    StopOneAccounts(start, termAt, killAt, Samba, f.samba);
    var (mid, first) := StopActs(start, termAt, killAt, Samba, f.samba);
    if chronyUp {
      StopOneAccounts(mid, termAt, killAt, Chronyd, f.chronyd);
      var second := StopActs(mid, termAt, killAt, Chronyd, f.chronyd).1;
      AccountedConcat(first, second, Samba);
      AccountedConcat(first, second, Chronyd);
      QuietConcat(first, second);
    }
  }

  lemma {:induction false} WatchAccounts(t: Timing, arrivals: seq<Arrival>, chronyUp: bool)
    ensures var (r, acts) := Watch(t, arrivals, chronyUp);
            && (r != Running ==> Accounted(acts, Samba) && (chronyUp ==> Accounted(acts, Chronyd)))
            && NoSignalAfterExit(acts)
            && (!chronyUp ==> forall a :: a in acts ==> a.d == Samba)
            && (forall a :: a in acts ==> !a.Begun?)
  {
    hide StopActs, ShutdownActs, Accounted, NoSignalAfterExit, Signals;
    if arrivals != [] {
      var a := arrivals[0];
      match a.event {
        case SambaExit(_) =>
          ReceivedAccounts(Samba, a.at);
          var head := [Received(Samba, a.at)];
          if chronyUp {
            StopOneAccounts(a.at, a.at + TermWindow(t), a.at + Grace(t), Chronyd, a.fates.chronyd);
            StopNotBegun(a.at, a.at + TermWindow(t), a.at + Grace(t), Chronyd, a.fates.chronyd);
          }
          var tail := StopOne(t, a.at, Chronyd, a.fates.chronyd, chronyUp);
          EmptyQuiet();
          AccountedConcat(head, tail, Samba);
          AccountedConcat(head, tail, Chronyd);
          DifferentDaemons(head, tail);
        case ChronydExit =>
          WatchAccounts(t, arrivals[1..], false);
          ReceivedAccounts(Chronyd, a.at);
          var tail := Watch(t, arrivals[1..], false).1;
          if chronyUp {
            var head := [Received(Chronyd, a.at)];
            AccountedConcat(head, tail, Samba);
            AccountedConcat(head, tail, Chronyd);
            DifferentDaemons(head, tail);
          } else {
            assert [] + tail == tail;
          }
        case _ =>
          ShutdownAccounts(t, a.at, a.fates, chronyUp);
          ShutdownNotBegun(t, a.at, a.fates, chronyUp);
      }
    } else {
      EmptyQuiet();
    }
  }

  lemma EmptyQuiet()
    ensures NoSignalAfterExit([])
  {
  }

  lemma ReceivedAccounts(d: Daemon, at: int)
    ensures Accounted([Received(d, at)], d) && NoSignalAfterExit([Received(d, at)])
  {
    assert Received(d, at) in [Received(d, at)];
  }

  lemma DifferentDaemons(a: seq<Act>, b: seq<Act>)
    requires NoSignalAfterExit(a) && NoSignalAfterExit(b)
    requires forall x, y :: x in a && y in b ==> x.d != y.d
    ensures NoSignalAfterExit(a + b)
  {
    hide NoSignalAfterExit;
    QuietConcat(a, b);
  }

  lemma StopNotBegun(now: int, termAt: int, killAt: int, d: Daemon, f: Fate)
    ensures forall a :: a in StopActs(now, termAt, killAt, d, f).1 ==> !a.Begun?
  {
    hide Wait;
  }

  lemma ShutdownNotBegun(t: Timing, start: int, f: Fates, chronyUp: bool)
    ensures forall a :: a in ShutdownActs(t, start, f, chronyUp).1 ==> !a.Begun?
  {
    hide StopActs;
    var termAt, killAt := start + TermWindow(t), start + Grace(t);
    StopNotBegun(start, termAt, killAt, Samba, f.samba);
    StopNotBegun(StopActs(start, termAt, killAt, Samba, f.samba).0, termAt, killAt, Chronyd, f.chronyd);
  }

  /**
   Under every interleaving: whenever the supervisor returns, each daemon it
   started either had its exit received or was told to stop and then killed,
   and no daemon was signalled after its exit had been received.
   */
  lemma EveryDaemonAccounted(t: Timing, s: Startup, arrivals: seq<Arrival>, d: Daemon)
    ensures var (r, acts) := SuperviseActs(t, s, arrivals);
            && (r != Running && Begun(d) in acts ==> Accounted(acts, d))
            && NoSignalAfterExit(acts)
  {
    hide StopActs, Watch, Accounted, NoSignalAfterExit, Signals;
    EmptyQuiet();
    WatchAccounts(t, arrivals, s.chrony);
    var begun := if s.chrony then [Begun(Chronyd)] else [];
    BegunQuiet(begun);
    BegunQuiet(begun + [Begun(Samba)]);
    if s.runtimeDirs && !(s.chrony && (!s.chronyConf || !s.chronyStarts)) {
      if !s.sambaStarts {
        StopOneAccounts(s.at, s.at + TermWindow(t), s.at + Grace(t), Chronyd, s.fates.chronyd);
        StopNotBegun(s.at, s.at + TermWindow(t), s.at + Grace(t), Chronyd, s.fates.chronyd);
        var tail := StopOne(t, s.at, Chronyd, s.fates.chronyd, s.chrony);
        AccountedConcat(begun, tail, Chronyd);
        QuietConcat(begun, tail);
      } else {
        var acts := Watch(t, arrivals, s.chrony).1;
        AccountedConcat(begun + [Begun(Samba)], acts, Samba);
        AccountedConcat(begun + [Begun(Samba)], acts, Chronyd);
        QuietConcat(begun + [Begun(Samba)], acts);
      }
    }
  }

  lemma BegunQuiet(acts: seq<Act>)
    requires forall a :: a in acts ==> a.Begun?
    ensures NoSignalAfterExit(acts)
  {
    assert forall i :: 0 <= i < |acts| ==> acts[i] in acts;
  }

  /** The event that ends the loop: the first that is not an exit of chronyd. */
  function FirstEnding(arrivals: seq<Arrival>): (n: nat)
    ensures n <= |arrivals|
  {
    if arrivals == [] || !arrivals[0].event.ChronydExit? then 0 else 1 + FirstEnding(arrivals[1..])
  }

  lemma {:induction false} WatchResult(t: Timing, arrivals: seq<Arrival>, chronyUp: bool)
    ensures var r, n := Watch(t, arrivals, chronyUp).0, FirstEnding(arrivals);
            r == if n == |arrivals| then Running
                 else if arrivals[n].event == SambaExit(true) then Failed(RuntimeFailure) else Clean
  {
    hide StopActs, ShutdownActs, StopOne;
    if arrivals != [] && arrivals[0].event.ChronydExit? {
      WatchResult(t, arrivals[1..], false);
    }
  }

  /** The runtime directories are there, and every daemon that is wanted starts. */
  predicate StartsUp(s: Startup) {
    s.runtimeDirs && s.sambaStarts && (s.chrony ==> s.chronyConf && s.chronyStarts)
  }

  /**
   The result of every start. It is a refusal exactly when the start-up failed
   or the event that ended the loop is samba's own failing exit, and always
   for the same reason; the loop goes on exactly while all that happens is that
   chronyd exits; and every other end is a clean one.
   */
  lemma RefusalIffSambaFailed(t: Timing, s: Startup, arrivals: seq<Arrival>)
    ensures var r, n := SuperviseActs(t, s, arrivals).0, FirstEnding(arrivals);
            && (r == Running <==> StartsUp(s) && forall i :: 0 <= i < |arrivals| ==> arrivals[i].event == ChronydExit)
            && (r.Failed? <==> !StartsUp(s) || (n < |arrivals| && arrivals[n].event == SambaExit(true)))
            && (r.Failed? ==> r == Failed(RuntimeFailure))
  {
    hide StopActs, ShutdownActs, StopOne, Watch;
    WatchResult(t, arrivals, s.chrony);
    EndingIsFirst(arrivals);
  }

  /** Which daemons a start-up starts, chronyd before samba; after a failed one nothing is left running untold. */
  lemma StartsInOrder(t: Timing, s: Startup, arrivals: seq<Arrival>)
    ensures var acts := SuperviseActs(t, s, arrivals).1;
            && (Begun(Samba) in acts <==> StartsUp(s))
            && (Begun(Chronyd) in acts <==> s.runtimeDirs && s.chrony && s.chronyConf && s.chronyStarts)
            && (StartsUp(s) && s.chrony ==> |acts| >= 2 && acts[0] == Begun(Chronyd) && acts[1] == Begun(Samba))
            && (!StartsUp(s) && Begun(Chronyd) in acts ==> Accounted(acts, Chronyd))
  {
    hide StopActs, Watch, Accounted, NoSignalAfterExit;
    EveryDaemonAccounted(t, s, arrivals, Chronyd);
    WatchAccounts(t, arrivals, s.chrony);
    StopNotBegun(s.at, s.at + TermWindow(t), s.at + Grace(t), Chronyd, s.fates.chronyd);
    var acts := SuperviseActs(t, s, arrivals).1;
    if s.runtimeDirs && (s.chrony ==> s.chronyConf && s.chronyStarts) {
      var begun := if s.chrony then [Begun(Chronyd)] else [];
      assert s.chrony ==> begun[0] == Begun(Chronyd);
      if s.sambaStarts {
        var rest := Watch(t, arrivals, s.chrony).1;
        assert acts == begun + [Begun(Samba)] + rest;
        assert forall x :: x in acts <==> x in begun || x == Begun(Samba) || x in rest;
      } else {
        var rest := StopOne(t, s.at, Chronyd, s.fates.chronyd, s.chrony);
        assert forall x :: x in acts <==> x in begun || x in rest;
      }
    }
  }

  /** What is signalled or given up, is so within one grace of the moment, and killed only once the polite phase is over. */
  predicate Timely(acts: seq<Act>, t: Timing, start: int) {
    forall a :: a in acts && (a.Term? || a.Kill? || a.Abandoned?) ==>
      start <= a.at <= start + Grace(t) && (a.Kill? ==> a.at >= start + TermWindow(t))
  }

  lemma StopTimely(t: Timing, start: int, now: int, d: Daemon, f: Fate)
    requires start <= now <= start + Grace(t)
    ensures Timely(StopActs(now, start + TermWindow(t), start + Grace(t), d, f).1, t, start)
    ensures start <= StopActs(now, start + TermWindow(t), start + Grace(t), d, f).0 <= start + Grace(t)
  {
    hide StopActs;
    StopFacts(now, start + TermWindow(t), start + Grace(t), d, f);
  }

  lemma ShutdownTimely(t: Timing, start: int, f: Fates, chronyUp: bool)
    ensures Timely(ShutdownActs(t, start, f, chronyUp).1, t, start)
  {
    hide StopActs;
    var termAt, killAt := start + TermWindow(t), start + Grace(t);
    StopTimely(t, start, start, Samba, f.samba);
    StopTimely(t, start, StopActs(start, termAt, killAt, Samba, f.samba).0, Chronyd, f.chronyd);
  }

  /** Nothing is signalled before the event that ends the loop, and from then on everything is over within one grace. */
  lemma {:induction false} WatchTimely(t: Timing, arrivals: seq<Arrival>, chronyUp: bool)
    ensures var acts, n := Watch(t, arrivals, chronyUp).1, FirstEnding(arrivals);
            if n < |arrivals| then Timely(acts, t, arrivals[n].at)
            else forall a :: a in acts ==> a.Received?
  {
    hide StopActs, ShutdownActs;
    if arrivals != [] {
      var a := arrivals[0];
      if a.event.ChronydExit? {
        WatchTimely(t, arrivals[1..], false);
      } else if a.event.SambaExit? {
        StopTimely(t, a.at, a.at, Chronyd, a.fates.chronyd);
      } else {
        ShutdownTimely(t, a.at, a.fates, chronyUp);
      }
    }
  }

  /**
   What the loop does, in order. Every chronyd exit before the end is taken
   note of once. Asked to stop, it shuts both daemons down within the budget,
   samba first; when samba exits by itself, that is received and chronyd, if it
   is still up, is stopped in order.
   */
  lemma {:induction false} WatchEnds(t: Timing, arrivals: seq<Arrival>, chronyUp: bool)
    requires FirstEnding(arrivals) < |arrivals|
    ensures var a := arrivals[FirstEnding(arrivals)]; var acts := Watch(t, arrivals, chronyUp).1;
            var stillUp := chronyUp && FirstEnding(arrivals) == 0;
            var noted := if chronyUp && !stillUp then [Received(Chronyd, arrivals[0].at)] else [];
            if a.event.SambaExit? then
              acts == noted + ([Received(Samba, a.at)] + StopOne(t, a.at, Chronyd, a.fates.chronyd, stillUp))
            else
              acts == noted + ShutdownActs(t, a.at, a.fates, stillUp).1
              && WithinBudget(t, a.at, stillUp, ShutdownActs(t, a.at, a.fates, stillUp).0, ShutdownActs(t, a.at, a.fates, stillUp).1)
  {
    hide StopActs, ShutdownActs, StopOne, WithinBudget;
    var acts := Watch(t, arrivals, chronyUp).1;
    if arrivals[0].event.ChronydExit? {
      WatchEnds(t, arrivals[1..], false);
      var rest := Watch(t, arrivals[1..], false).1;
      assert [] + rest == rest;
    } else {
      ShutdownWithinBudget(t, arrivals[0].at, arrivals[0].fates, chronyUp);
      assert [] + acts == acts;
    }
  }

  /** A daemon that is stopped alone is stopped in order, with a budget of its own. */
  lemma StopOneInOrder(t: Timing, at: int, d: Daemon, f: Fate)
    ensures InOrder(at, at + TermWindow(t), at + Grace(t), d, f,
                    StopActs(at, at + TermWindow(t), at + Grace(t), d, f).0, StopOne(t, at, d, f, true))
    ensures StopOne(t, at, d, f, false) == []
  {
    hide StopActs;
    StopFacts(at, at + TermWindow(t), at + Grace(t), d, f);
  }

  lemma {:induction false} EndingIsFirst(arrivals: seq<Arrival>)
    ensures FirstEnding(arrivals) == |arrivals| <==> forall i :: 0 <= i < |arrivals| ==> arrivals[i].event == ChronydExit
  {
    if arrivals != [] {
      EndingIsFirst(arrivals[1..]);
      assert forall i :: 0 <= i < |arrivals[1..]| ==> arrivals[1..][i] == arrivals[i + 1];
      if forall i :: 0 <= i < |arrivals[1..]| ==> arrivals[1..][i].event == ChronydExit {
        forall i | 0 < i < |arrivals|
          ensures arrivals[i].event == ChronydExit
        {
          assert arrivals[1..][i - 1] == arrivals[i];
        }
      }
    }
  }
}
