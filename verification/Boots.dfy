/**
 Which plan a boot is given, and how it ends: the decision table over the
 volume, its marker and the settings, and the stages of a boot in their order,
 of which the first that fails decides the exit code. The decision and the
 execution themselves are those of Lifecycle.
 */
module Boots {
  import opened Text
  import opened Refusals
  import opened Versions
  import opened GlobalOptions
  import opened Reconcile
  import opened Lifecycle

  // ----- the plan

  predicate Dotted(realm: string) {
    '.' in realm
  }

  /** The order of the marker and the image, when both are versions. */
  predicate MarkerCompares(obs: Observation, image: string, lo: int, hi: int) {
    && obs.marker.Some? && Valid(obs.marker.value.sambaVersion) && Valid(image)
    && lo <= Compare(obs.marker.value.sambaVersion, image).value <= hi
  }

  /** When a boot joins, and when it provisions: on an empty volume, by the credentials that are there. */
  lemma InitializingPlans(cfg: Settings, obs: Observation, image: string)
    ensures var d := Decide(cfg, obs, image);
            && (d == Chosen(Plan(DoJoin, false, false)) <==>
                  !obs.present && Dotted(cfg.realm) && cfg.joinPasswordFile != "" && cfg.mode in {Auto, Join})
            && (d == Chosen(Plan(DoProvision, false, false)) <==>
                  !obs.present && Dotted(cfg.realm) && cfg.adminPasswordFile != ""
                  && (cfg.mode == Provision || (cfg.mode == Auto && cfg.joinPasswordFile == "")))
            && (d.Chosen? && d.plan.kind in {DoJoin, DoProvision} ==> d.plan == Plan(d.plan.kind, false, false))
  {
    hide Valid, Compare;
  }

  /** When a boot starts what is there, when it checks the database first, and when it only checks it. */
  lemma StateKeepingPlans(cfg: Settings, obs: Observation, image: string)
    ensures var d := Decide(cfg, obs, image);
            && (d == Chosen(Plan(DoStart, false, false)) <==>
                  obs.present && cfg.mode in {Auto, Run} && MarkerCompares(obs, image, 0, 0))
            && (d == Chosen(Plan(DBCheckThenStart, false, false)) <==>
                  obs.present && cfg.mode in {Auto, Run} && MarkerCompares(obs, image, -1, -1))
            && (d == Chosen(Plan(DBCheckThenStart, true, false)) <==>
                  obs.present && cfg.mode in {Auto, Run} && obs.marker == None && Valid(image))
            && (d == Chosen(Plan(DoMaintenance, false, cfg.repair)) <==>
                  obs.present && cfg.mode == Maintenance
                  && (MarkerCompares(obs, image, -1, 0) || (obs.marker == None && Valid(image))))
            && (d.Chosen? && d.plan.kind == DoStart ==> d.plan == Plan(DoStart, false, false))
            && (d.Chosen? && d.plan.kind == DBCheckThenStart ==> !d.plan.repair)
            && (d.Chosen? && d.plan.kind == DoMaintenance ==> d.plan == Plan(DoMaintenance, false, cfg.repair))
            && (d.Chosen? ==> d.plan.kind != NoAction)
  {
    hide Valid, Triple, Order;
    if obs.marker.Some? && Valid(obs.marker.value.sambaVersion) && Valid(image) {
      OrderTotal(Triple(obs.marker.value.sambaVersion), Triple(image));
    }
  }

  /** What no plan is given for, and the code it is refused with. */
  lemma PlanRefusals(cfg: Settings, obs: Observation, image: string)
    ensures var d := Decide(cfg, obs, image);
            && (d == Denied(StateExists) <==> obs.present && cfg.mode in {Provision, Join})
            && (d == Denied(StateAbsent) <==> !obs.present && cfg.mode in {Run, Maintenance})
            && (d == Denied(Downgrade) <==>
                  obs.present && cfg.mode in {Auto, Run, Maintenance} && MarkerCompares(obs, image, 1, 1))
            && (d.Denied? ==> d.code in {StateExists, StateAbsent, Downgrade, ConfigError})
  {
    hide Valid, Triple, Order;
    if obs.marker.Some? && Valid(obs.marker.value.sambaVersion) && Valid(image) {
      OrderTotal(Triple(obs.marker.value.sambaVersion), Triple(image));
    }
  }

  // ----- the stages of a boot

  /** One thing a boot depends on, and the code it is refused with when that fails. */
  datatype Stage = Stage(holds: bool, code: Code)

  function FirstFailure(stages: seq<Stage>): Option<Code> {
    if stages == [] then None
    else if !stages[0].holds then Some(stages[0].code)
    else FirstFailure(stages[1..])
  }

  lemma {:induction false} FailureConcat(a: seq<Stage>, b: seq<Stage>)
    ensures FirstFailure(a + b) == if FirstFailure(a).Some? then FirstFailure(a) else FirstFailure(b)
  {
    if a == [] {
      assert a + b == b;
    } else {
      assert (a + b)[1..] == a[1..] + b;
      FailureConcat(a[1..], b);
    }
  }

  /** What every plan needs before anything is run. */
  function Preparation(b: Boot, kind: Action): seq<Stage> {
    [Stage(kind == DoMaintenance || !b.chrony || b.tools.chronyDir, RuntimeFailure),
     Stage(b.tools.runtimeDirs, RuntimeFailure),
     Stage(kind == DoMaintenance || b.tools.tlsMaterial, SecretError)]
  }

  /** What samba-tool needs before it is run. */
  function BeforeTool(b: Boot, kind: Action): seq<Stage> {
    if kind in {DoProvision, DoJoin} then
      [Stage(EffectiveOptions(b.cfg.global) == [] || b.tools.declared.Proceed?,
             if b.tools.declared.Refuse? then b.tools.declared.code else ConfigError),
       Stage(b.tools.secret, SecretError)]
    else []
  }

  /** The smb.conf that a join or a provision leaves before its reconcile. */
  function Generated(b: Boot, kind: Action): (Option<string>, Outcome) {
    if kind == DoJoin then JoinConf(b.tools.written, JoinedSettings(b.cfg.level, b.cfg.forwarder), b.tools.joinedWrite)
    else (b.tools.written, Proceed)
  }

  /** From running samba-tool to writing the marker. */
  function UpToMarker(b: Boot, kind: Action): seq<Stage> {
    match kind
    case DoProvision => [Stage(b.tools.toolSucceeds, RuntimeFailure), Stage(b.tools.markerWrite, RuntimeFailure)]
    case DoJoin =>
      [Stage(b.tools.toolSucceeds, RuntimeFailure), Stage(Generated(b, kind).1.Proceed?, RuntimeFailure),
       Stage(b.tools.markerWrite, RuntimeFailure)]
    case DBCheckThenStart =>
      [Stage(b.tools.toolSucceeds, DBCheckFailed), Stage(b.tools.readableAgain, ConfigError),
       Stage(b.tools.markerWrite, RuntimeFailure)]
    case DoMaintenance => [Stage(b.tools.toolSucceeds, DBCheckFailed)]
    case _ => []
  }

  predicate Generates(kind: Action) {
    kind in {DoProvision, DoJoin}
  }

  /** The file that the reconcile of a boot works on. */
  function Reconcilable(m: Machine, b: Boot, kind: Action): Option<string> {
    if Generates(kind) then Generated(b, kind).0 else m.conf
  }

  /** What the reconcile needs: a file if there is something to declare, a write that succeeds, an accepting gate. */
  function Reconciling(file: Option<string>, c: Config, generated: bool, w: World): seq<Stage> {
    match file
    case None => [Stage(EffectiveOptions(c) == [], RuntimeFailure)]
    case Some(original) =>
      var (aim, notices) := Pass(original, c);
      [Stage(notices == [] || w.canWrite, RuntimeFailure),
       Stage((notices == [] && !generated) || w.accepts(aim), ConfigError)]
  }

  function Stages(m: Machine, b: Boot, kind: Action): seq<Stage> {
    Preparation(b, kind) + BeforeTool(b, kind) + UpToMarker(b, kind)
    + (if kind == DoMaintenance then []
       else Reconciling(Reconcilable(m, b, kind), b.cfg.global, Generates(kind), b.tools.gate))
  }

  lemma ReconcileStages(file: Option<string>, c: Config, generated: bool, w: World)
    ensures var r := ReconcileFile(file, c, generated, w).1;
            FirstFailure(Reconciling(file, c, generated, w)) == if r.Refuse? then Some(r.code) else None
  {
    hide Pass, EffectiveOptions;
    if file.Some? {
      ProceedsIff(file.value, c, generated, w);
      if Pass(file.value, c).1 == [] { QuietPass(file.value, c); }
    }
    ShortFailures(Reconciling(file, c, generated, w));
  }

  /** Up to three stages, spelled out. */
  lemma ShortFailures(stages: seq<Stage>)
    requires |stages| <= 3
    ensures FirstFailure(stages)
         == if |stages| > 0 && !stages[0].holds then Some(stages[0].code)
            else if |stages| > 1 && !stages[1].holds then Some(stages[1].code)
            else if |stages| > 2 && !stages[2].holds then Some(stages[2].code)
            else None
  {
    if |stages| > 0 {
      assert FirstFailure(stages[1..]) == if |stages| > 1 && !stages[1].holds then Some(stages[1].code) else if |stages| > 1 then FirstFailure(stages[1..][1..]) else None;
      if |stages| > 1 {
        assert stages[1..][1..] == stages[2..];
        if |stages| > 2 { assert stages[2..][1..] == []; }
      }
    }
  }

  // ----- how a boot ends, and what it leaves

  /** The first failing stage's code, or the end of a boot in which all hold. */
  function EndOf(stages: seq<Stage>, kind: Action): Ended {
    match FirstFailure(stages)
    case Some(code) => Stopped(code)
    case None => if kind == DoMaintenance then Checked else Started
  }

  /** The marker that a boot of this plan writes. */
  function NewMarker(m: Machine, b: Boot, kind: Action): Marker {
    var known := if m.volume.file.Held? then Trim(m.volume.file.marker.initializedAt) else "";
    Marker(b.image, if Generates(kind) || known == "" then b.tools.now else known,
           if kind == DoProvision then Provision else if kind == DoJoin then Join else Run)
  }

  predicate ToolRuns(b: Boot, kind: Action) {
    FirstFailure(Preparation(b, kind) + BeforeTool(b, kind)).None?
  }

  predicate MarkerPut(b: Boot, kind: Action) {
    FirstFailure(Preparation(b, kind) + BeforeTool(b, kind) + UpToMarker(b, kind)).None?
  }

  /** The machine after a boot of this plan, by how many of its stages held. */
  function Left(m: Machine, b: Boot, kind: Action): Machine {
    Machine(
      Volume(m.volume.present || (Generates(kind) && ToolRuns(b, kind) && (b.tools.toolSucceeds || b.tools.partialState)),
             if kind !in {DoStart, DoMaintenance} && MarkerPut(b, kind) then Held(NewMarker(m, b, kind)) else m.volume.file),
      if kind != DoMaintenance && MarkerPut(b, kind)
      then ReconcileFile(Reconcilable(m, b, kind), b.cfg.global, Generates(kind), b.tools.gate).0
      else if !Generates(kind) || !ToolRuns(b, kind) then m.conf
      else if b.tools.toolSucceeds then Generated(b, kind).0
      else b.tools.written)
  }

  lemma JoinConfCodes(file: Option<string>, settings: seq<GlobalOption>, canWrite: bool)
    ensures JoinConf(file, settings, canWrite).1 in {Proceed, Refuse(RuntimeFailure)}
  {
    hide SetAll;
  }

  lemma StageParts(m: Machine, b: Boot, kind: Action)
    ensures var prep, tool, mark := FirstFailure(Preparation(b, kind)), FirstFailure(BeforeTool(b, kind)), FirstFailure(UpToMarker(b, kind));
            var gate := if kind == DoMaintenance then []
                        else Reconciling(Reconcilable(m, b, kind), b.cfg.global, Generates(kind), b.tools.gate);
            && (ToolRuns(b, kind) <==> prep.None? && tool.None?)
            && (MarkerPut(b, kind) <==> prep.None? && tool.None? && mark.None?)
            && FirstFailure(Stages(m, b, kind))
               == if prep.Some? then prep else if tool.Some? then tool else if mark.Some? then mark else FirstFailure(gate)
  {
    hide Preparation, BeforeTool, UpToMarker, Reconciling, Reconcilable, FirstFailure;
    var prep, tool, mark := Preparation(b, kind), BeforeTool(b, kind), UpToMarker(b, kind);
    var gate := if kind == DoMaintenance then []
                else Reconciling(Reconcilable(m, b, kind), b.cfg.global, Generates(kind), b.tools.gate);
    FailureConcat(prep, tool);
    FailureConcat(prep + tool, mark);
    FailureConcat(prep + tool + mark, gate);
  }

  lemma FailuresInOrder(b: Boot, kind: Action)
    ensures FirstFailure(Preparation(b, kind))
         == if kind != DoMaintenance && b.chrony && !b.tools.chronyDir then Some(RuntimeFailure)
            else if !b.tools.runtimeDirs then Some(RuntimeFailure)
            else if kind != DoMaintenance && !b.tools.tlsMaterial then Some(SecretError) else None
    ensures FirstFailure(BeforeTool(b, kind))
         == if !Generates(kind) then None
            else if EffectiveOptions(b.cfg.global) != [] && b.tools.declared.Refuse? then Some(b.tools.declared.code)
            else if !b.tools.secret then Some(SecretError) else None
    ensures FirstFailure(UpToMarker(b, kind))
         == if kind == DoStart || kind == NoAction then None
            else if !b.tools.toolSucceeds then Some(if Generates(kind) then RuntimeFailure else DBCheckFailed)
            else if kind == DoMaintenance then None
            else if kind == DoJoin && Generated(b, kind).1.Refuse? then Some(RuntimeFailure)
            else if kind == DBCheckThenStart && !b.tools.readableAgain then Some(ConfigError)
            else if !b.tools.markerWrite then Some(RuntimeFailure) else None
  {
    hide EffectiveOptions, JoinConf, JoinedSettings;
    ShortFailures(Preparation(b, kind));
    ShortFailures(BeforeTool(b, kind));
    ShortFailures(UpToMarker(b, kind));
  }

  lemma ReconciledMachine(m: Machine, b: Boot, generated: bool)
    ensures Reconciled(m, b, generated).0 == m.(conf := ReconcileFile(m.conf, b.cfg.global, generated, b.tools.gate).0)
    ensures Reconciled(m, b, generated).1
         == match FirstFailure(Reconciling(m.conf, b.cfg.global, generated, b.tools.gate)) case Some(code) => Stopped(code) case None => Started
  {
    hide ReconcileFile, Reconciling, EffectiveOptions;
    ReconcileStages(m.conf, b.cfg.global, generated, b.tools.gate);
  }

  lemma InitializeOutcome(m: Machine, b: Boot, kind: Action)
    requires Generates(kind) && FirstFailure(Preparation(b, kind)).None?
    ensures Initialize(m, b, if kind == DoJoin then Join else Provision) == (Left(m, b, kind), EndOf(Stages(m, b, kind), kind))
  {
    hide ReconcileFile, Reconciling, EffectiveOptions, JoinConf, JoinedSettings, FirstFailure, Preparation, BeforeTool, UpToMarker, Reconciled, Stages, MarkerPut, ToolRuns;
    var mode := if kind == DoJoin then Join else Provision;
    FailuresInOrder(b, kind);
    StageParts(m, b, kind);
    JoinConfCodes(b.tools.written, JoinedSettings(b.cfg.level, b.cfg.forwarder), b.tools.joinedWrite);
    var m1 := Machine(m.volume.(present := m.volume.present || b.tools.toolSucceeds || b.tools.partialState), Generated(b, kind).0);
    ReconciledMachine(Marked(m1, b, b.tools.now, mode), b, true);
  }

  lemma UpgradeOutcome(m: Machine, b: Boot)
    requires !m.volume.file.Broken? && FirstFailure(Preparation(b, DBCheckThenStart)).None?
    ensures Upgrade(m, b) == (Left(m, b, DBCheckThenStart), EndOf(Stages(m, b, DBCheckThenStart), DBCheckThenStart))
  {
    hide ReconcileFile, Reconciling, EffectiveOptions, Trim, FirstFailure, Preparation, BeforeTool, UpToMarker, Reconciled, Stages, MarkerPut, ToolRuns;
    FailuresInOrder(b, DBCheckThenStart);
    StageParts(m, b, DBCheckThenStart);
    ReconciledMachine(Marked(m, b, NewMarker(m, b, DBCheckThenStart).initializedAt, Run), b, false);
  }

  /**
   One boot with a plan, in full: it ends with the code of the first stage that
   fails, or with the daemons started (the database checked, in maintenance),
   and the volume and smb.conf are left as the stages up to there left them.
   */
  lemma BootOutcome(m: Machine, b: Boot)
    requires PlanOf(m, b).Some?
    ensures var kind := PlanOf(m, b).value.kind;
            BootStep(m, b) == (Left(m, b, kind), EndOf(Stages(m, b, kind), kind))
  {
    hide ReconcileFile, Reconciling, EffectiveOptions, Decide, FirstFailure, Preparation, BeforeTool, UpToMarker, Reconciled, Stages, MarkerPut, ToolRuns, Initialize, Upgrade;
    var kind := PlanOf(m, b).value.kind;
    StateKeepingPlans(b.cfg, Observe(m.volume, b.tools.readable).value, b.image);
    FailuresInOrder(b, kind);
    StageParts(m, b, kind);
    if FirstFailure(Preparation(b, kind)).None? {
      if Generates(kind) {
        InitializeOutcome(m, b, kind);
      } else if kind == DBCheckThenStart {
        UpgradeOutcome(m, b);
      } else if kind == DoStart {
        ReconciledMachine(m, b, false);
      } else {
        ShortFailures([]);
      }
    }
  }

  /**
   A boot without a plan changes nothing. A volume that cannot be read, or whose
   marker cannot, is a configuration error; otherwise the plan is decided by
   what is there, and a refusal is the boot's end.
   */
  lemma NoPlanNoChange(m: Machine, b: Boot)
    ensures PlanOf(m, b).None? ==> BootStep(m, b).0 == m && BootStep(m, b).1.Stopped?
    ensures m.volume.file.Broken? || !b.tools.readable ==> PlanOf(m, b).None? && BootStep(m, b).1 == Stopped(ConfigError)
    ensures !m.volume.file.Broken? && b.tools.readable ==>
              var d := Decide(b.cfg, Observation(m.volume.present, if m.volume.file.Held? then Some(m.volume.file.marker) else None), b.image);
              PlanOf(m, b) == (if d.Chosen? then Some(d.plan) else None) && (d.Denied? ==> BootStep(m, b).1 == Stopped(d.code))
  {
    hide Decide, Execute;
  }

  // ----- boots in which nothing fails

  /** Every command, look and write succeeds, and samba's parser accepts every file. */
  ghost predicate NothingFails(b: Boot) {
    var t := b.tools;
    && t.readable && t.chronyDir && t.runtimeDirs && t.tlsMaterial && t.declared.Proceed? && t.secret
    && t.toolSucceeds && t.written.Some? && t.joinedWrite && t.readableAgain && t.markerWrite
    && t.gate.canWrite && forall text: string :: t.gate.accepts(text)
  }

  lemma NothingFailsInJoin(b: Boot)
    requires NothingFails(b)
    ensures Generated(b, DoJoin).1 == Proceed && Generated(b, DoJoin).0.Some?
  {
    hide SetAll, JoinedSettings;
  }

  /**
   With a plan and nothing failing, a boot starts its daemons (in maintenance,
   has checked the database): on the text that the reconcile aims for, and,
   unless the marker was equal to the image already, with a marker of its own.
   */
  lemma NothingFailsStarts(m: Machine, b: Boot)
    requires PlanOf(m, b).Some? && NothingFails(b) && m.conf.Some?
    ensures var kind := PlanOf(m, b).value.kind; var (after, ended) := BootStep(m, b);
            && ended == (if kind == DoMaintenance then Checked else Started)
            && (kind != DoMaintenance ==>
                  && Reconcilable(m, b, kind).Some?
                  && after.conf == Some(Pass(Reconcilable(m, b, kind).value, b.cfg.global).0))
            && (kind !in {DoStart, DoMaintenance} ==> after.volume.file == Held(NewMarker(m, b, kind)))
            && (kind in {DoStart, DoMaintenance} ==> after.volume.file == m.volume.file)
            && (Generates(kind) ==> after.volume.present)
  {
    hide Pass, EffectiveOptions, Decide, BootStep, FirstFailure, Preparation, BeforeTool, UpToMarker, Stages, MarkerPut, ToolRuns, NewMarker, Reconciling, JoinConf, JoinedSettings, ReconcileFile;
    var kind := PlanOf(m, b).value.kind;
    BootOutcome(m, b);
    FailuresInOrder(b, kind);
    StageParts(m, b, kind);
    NothingFailsInJoin(b);
    StateKeepingPlans(b.cfg, Observe(m.volume, b.tools.readable).value, b.image);
    ShortFailures([]);
    if kind != DoMaintenance {
      var file := Reconcilable(m, b, kind);
      ReconcileStages(file, b.cfg.global, Generates(kind), b.tools.gate);
      assert file.Some?;
      ProceedsIff(file.value, b.cfg.global, Generates(kind), b.tools.gate);
      assert b.tools.gate.accepts(file.value) && b.tools.gate.accepts(Pass(file.value, b.cfg.global).0);
    }
  }

  /** The ordinary life of a domain controller: an empty volume is provisioned or joined, an older one upgraded, an equal one started. */
  lemma OrdinaryBoots(m: Machine, b: Boot)
    requires NothingFails(b) && m.conf.Some? && b.cfg.mode == Auto && !m.volume.file.Broken?
    ensures !m.volume.present && Dotted(b.cfg.realm) && b.cfg.joinPasswordFile != "" ==>
              BootStep(m, b).1 == Started && BootStep(m, b).0.volume == Volume(true, Held(Marker(b.image, b.tools.now, Join)))
    ensures !m.volume.present && Dotted(b.cfg.realm) && b.cfg.joinPasswordFile == "" && b.cfg.adminPasswordFile != "" ==>
              BootStep(m, b).1 == Started && BootStep(m, b).0.volume == Volume(true, Held(Marker(b.image, b.tools.now, Provision)))
    ensures m.volume.present && m.volume.file.Held? && MarkerCompares(Observation(true, Some(m.volume.file.marker)), b.image, -1, 0) ==>
              BootStep(m, b).1 == Started && BootStep(m, b).0.volume.file.Held?
              && SameVersion(BootStep(m, b).0.volume.file.marker.sambaVersion, b.image)
    ensures m.volume.present && m.volume.file == Absent && Valid(b.image) ==>
              BootStep(m, b).1 == Started && BootStep(m, b).0.volume.file == Held(Marker(b.image, b.tools.now, Run))
  {
    hide Decide, BootStep, Valid, Compare, Pass, NothingFails, Reconcilable;
    var obs := Observe(m.volume, true);
    assert b.tools.readable by { Readable(b); }
    InitializingPlans(b.cfg, obs.value, b.image);
    StateKeepingPlans(b.cfg, obs.value, b.image);
    BootStepFacts(m, b);
    if PlanOf(m, b).Some? { NothingFailsStarts(m, b); }
  }

  lemma Readable(b: Boot)
    requires NothingFails(b)
    ensures b.tools.readable
  {
  }
}
