/**
 The life of one domain controller volume: what modes.Decide chooses for an
 observed volume, what run.Execute then does to the volume, its marker and
 its smb.conf, and what any sequence of such boots keeps. The external tools,
 the clock and the file system are an arbitrary world, boot by boot.
 */
module Lifecycle {
  import opened Text
  import opened Refusals
  import opened Versions
  import opened GlobalOptions
  import opened Reconcile
  import SmbConf
  import LineBreaks
  import SmbRows

  datatype Mode = Auto | Provision | Join | Run | Maintenance | Unsupported

  datatype Settings = Settings(
    mode: Mode, realm: string, adminPasswordFile: string, joinPasswordFile: string, repair: bool,
    level: string, forwarder: string, global: Config)

  // ----- the volume

  datatype Marker = Marker(sambaVersion: string, initializedAt: string, lastMode: Mode)

  datatype MarkerFile = Absent | Broken | Held(marker: Marker)

  datatype Volume = Volume(present: bool, file: MarkerFile)

  datatype Observation = Observation(present: bool, marker: Option<Marker>)

  /** One look at the volume; a marker that cannot be read is an error, never an absent one. */
  function Observe(v: Volume, readable: bool): Option<Observation> {
    if !readable || v.file.Broken? then None
    else Some(Observation(v.present, if v.file.Held? then Some(v.file.marker) else None))
  }

  // ----- the decision

  datatype Action = NoAction | DoProvision | DoJoin | DoStart | DBCheckThenStart | DoMaintenance

  datatype Plan = Plan(kind: Action, adoptMarker: bool, repair: bool)

  datatype Decision = Chosen(plan: Plan) | Denied(code: Code)

  function Simply(kind: Action): Decision {
    Chosen(Plan(kind, false, false))
  }

  function InitPlan(cfg: Settings, mode: Mode): Decision {
    if cfg.realm == "" || '.' !in cfg.realm then Denied(ConfigError)
    else if mode == Join then (if cfg.joinPasswordFile == "" then Denied(ConfigError) else Simply(DoJoin))
    else if cfg.adminPasswordFile == "" then Denied(ConfigError)
    else Simply(DoProvision)
  }

  /** The order of the marker and the image, or the refusal for the one that does not parse. */
  function CompareMarker(markerVersion: string, image: string): Option<int> {
    if !Valid(markerVersion) || !Valid(image) then None else Compare(markerVersion, image)
  }

  function StartPlan(obs: Observation, image: string): Decision {
    match obs.marker
    case None => if !Valid(image) then Denied(ConfigError) else Chosen(Plan(DBCheckThenStart, true, false))
    case Some(m) =>
      match CompareMarker(m.sambaVersion, image)
      case None => Denied(ConfigError)
      case Some(c) =>
        if c > 0 then Denied(Downgrade) else if c < 0 then Simply(DBCheckThenStart) else Simply(DoStart)
  }

  function MaintenancePlan(cfg: Settings, obs: Observation, image: string): Decision {
    var plan := Chosen(Plan(DoMaintenance, false, cfg.repair));
    match obs.marker
    case None => if !Valid(image) then Denied(ConfigError) else plan
    case Some(m) =>
      match CompareMarker(m.sambaVersion, image)
      case None => Denied(ConfigError)
      case Some(c) => if c > 0 then Denied(Downgrade) else plan
  }

  function Decide(cfg: Settings, obs: Observation, image: string): Decision {
    match cfg.mode
    case Auto =>
      if obs.present then StartPlan(obs, image)
      else InitPlan(cfg, if cfg.joinPasswordFile != "" then Join else Provision)
    case Provision => if obs.present then Denied(StateExists) else InitPlan(cfg, Provision)
    case Join => if obs.present then Denied(StateExists) else InitPlan(cfg, Join)
    case Run => if !obs.present then Denied(StateAbsent) else StartPlan(obs, image)
    case Maintenance => if !obs.present then Denied(StateAbsent) else MaintenancePlan(cfg, obs, image)
    case Unsupported => Denied(ConfigError)
  }

  // ----- one boot

  /** What the world does during one boot. */
  datatype Tools = Tools(
    readable: bool,             // the first look at the volume succeeds
    chronyDir: bool,            // chrony's state directory can be created
    runtimeDirs: bool,          // the directories under /run can be created
    tlsMaterial: bool,          // the LDAPS files are there and usable
    declared: Outcome,          // testparm's verdict on the declared settings alone
    secret: bool,               // the password file can be read
    toolSucceeds: bool,         // samba-tool provision, join or dbcheck exits 0
    partialState: bool,         // a failing provision or join leaves sam.ldb behind
    written: Option<string>,    // the smb.conf a provision or join leaves
    joinedWrite: bool,          // the joined settings can be written
    readableAgain: bool,        // the look before a marker refresh succeeds
    markerWrite: bool,          // the marker can be written
    now: string,                // the clock
    gate: World)                // the reconcile's world

  datatype Boot = Boot(cfg: Settings, chrony: bool, image: string, tools: Tools)

  datatype Machine = Machine(volume: Volume, conf: Option<string>)

  datatype Ended = Stopped(code: Code) | Checked | Started

  function Reconciled(m: Machine, b: Boot, generated: bool): (Machine, Ended) {
    var (conf, outcome, _) := ReconcileFile(m.conf, b.cfg.global, generated, b.tools.gate);
    (m.(conf := conf), if outcome.Refuse? then Stopped(outcome.code) else Started)
  }

  function Marked(m: Machine, b: Boot, initializedAt: string, mode: Mode): Machine {
    m.(volume := m.volume.(file := Held(Marker(b.image, initializedAt, mode))))
  }

  function Initialize(m: Machine, b: Boot, mode: Mode): (Machine, Ended) {
    var t := b.tools;
    if EffectiveOptions(b.cfg.global) != [] && t.declared.Refuse? then (m, Stopped(t.declared.code))
    else if !t.secret then (m, Stopped(SecretError))
    else
      var m1 := Machine(m.volume.(present := m.volume.present || t.toolSucceeds || t.partialState), t.written);
      if !t.toolSucceeds then (m1, Stopped(RuntimeFailure))
      else
        var (conf, joined) :=
          if mode == Join then JoinConf(m1.conf, JoinedSettings(b.cfg.level, b.cfg.forwarder), t.joinedWrite)
          else (m1.conf, Proceed);
        var m2 := m1.(conf := conf);
        if joined.Refuse? then (m2, Stopped(joined.code))
        else if !t.markerWrite then (m2, Stopped(RuntimeFailure))
        else Reconciled(Marked(m2, b, t.now, mode), b, true)
  }

  /** The moment recorded as the volume's beginning: the marker's own, or now when it has none. */
  function InitializedAt(marker: Option<Marker>, now: string): string {
    if marker.Some? && Trim(marker.value.initializedAt) != "" then Trim(marker.value.initializedAt) else now
  }

  function Upgrade(m: Machine, b: Boot): (Machine, Ended) {
    if !b.tools.toolSucceeds then (m, Stopped(DBCheckFailed))
    else
      match Observe(m.volume, b.tools.readableAgain)
      case None => (m, Stopped(ConfigError))
      case Some(obs) =>
        if !b.tools.markerWrite then (m, Stopped(RuntimeFailure))
        else Reconciled(Marked(m, b, InitializedAt(obs.marker, b.tools.now), Run), b, false)
  }

  function Execute(m: Machine, plan: Plan, b: Boot): (Machine, Ended) {
    if !b.tools.runtimeDirs then (m, Stopped(RuntimeFailure))
    else if plan.kind != DoMaintenance && !b.tools.tlsMaterial then (m, Stopped(SecretError))
    else
      match plan.kind
      case DoProvision => Initialize(m, b, Provision)
      case DoJoin => Initialize(m, b, Join)
      case DoStart => Reconciled(m, b, false)
      case DBCheckThenStart => Upgrade(m, b)
      case DoMaintenance => (m, if b.tools.toolSucceeds then Checked else Stopped(DBCheckFailed))
      case NoAction => (m, Stopped(ConfigError))
  }

  function BootStep(m: Machine, b: Boot): (Machine, Ended) {
    match Observe(m.volume, b.tools.readable)
    case None => (m, Stopped(ConfigError))
    case Some(obs) =>
      match Decide(b.cfg, obs, b.image)
      case Denied(code) => (m, Stopped(code))
      case Chosen(plan) =>
        if b.chrony && plan.kind != DoMaintenance && plan.kind != NoAction && !b.tools.chronyDir
        then (m, Stopped(RuntimeFailure))
        else Execute(m, plan, b)
  }

  /** The container: a state volume with its marker, and a configuration volume. */
  class Container {
    var present: bool
    var marker: MarkerFile
    const conf: ConfVolume

    constructor (volume: Volume, conf: ConfVolume)
      ensures this.conf == conf && present == volume.present && marker == volume.file
    {
      this.conf, present, marker := conf, volume.present, volume.file;
    }

    function View(): Machine
      reads this, conf
    {
      Machine(Volume(present, marker), conf.smbConf)
    }

    method PutMarker(b: Boot, initializedAt: string, mode: Mode) returns (r: Outcome)
      modifies this`marker
      ensures r == if b.tools.markerWrite then Proceed else Refuse(RuntimeFailure)
      ensures View() == if r.Proceed? then Marked(old(View()), b, initializedAt, mode) else old(View())
    {
      if !b.tools.markerWrite {
        return Refuse(RuntimeFailure);
      }
      marker := Held(Marker(b.image, initializedAt, mode));
      return Proceed;
    }

    method EnsureGlobalOptions(b: Boot, generated: bool) returns (r: Ended)
      modifies conf
      ensures (View(), r) == Reconciled(old(View()), b, generated)
    {
      hide Pass, EffectiveOptions;
      var outcome := conf.EnsureGlobalOptions(b.cfg.global, generated, b.tools.gate);
      return if outcome.Refuse? then Stopped(outcome.code) else Started;
    }

    method RunInitialize(b: Boot, mode: Mode) returns (r: Ended)
      modifies this, conf
      ensures (View(), r) == Initialize(old(View()), b, mode)
    {
      hide ReconcileFile, JoinConf, JoinedSettings, EffectiveOptions;
      if EffectiveOptions(b.cfg.global) != [] && b.tools.declared.Refuse? {
        return Stopped(b.tools.declared.code);
      }
      if !b.tools.secret {
        return Stopped(SecretError);
      }
      present := present || b.tools.toolSucceeds || b.tools.partialState;
      conf.smbConf := b.tools.written;
      if !b.tools.toolSucceeds {
        return Stopped(RuntimeFailure);
      }
      if mode == Join {
        var joined := conf.EnsureJoinedConf(JoinedSettings(b.cfg.level, b.cfg.forwarder), b.tools.joinedWrite);
        if joined.Refuse? {
          return Stopped(joined.code);
        }
      }
      var put := PutMarker(b, b.tools.now, mode);
      if put.Refuse? {
        return Stopped(put.code);
      }
      r := EnsureGlobalOptions(b, true);
    }

    method RunUpgrade(b: Boot) returns (r: Ended)
      modifies this, conf
      ensures (View(), r) == Upgrade(old(View()), b)
    {
      hide ReconcileFile, Trim;
      if !b.tools.toolSucceeds {
        return Stopped(DBCheckFailed);
      }
      var obs := Observe(Volume(present, marker), b.tools.readableAgain);
      if obs.None? {
        return Stopped(ConfigError);
      }
      var put := PutMarker(b, InitializedAt(obs.value.marker, b.tools.now), Run);
      if put.Refuse? {
        return Stopped(put.code);
      }
      r := EnsureGlobalOptions(b, false);
    }

    method RunExecute(plan: Plan, b: Boot) returns (r: Ended)
      modifies this, conf
      ensures (View(), r) == Execute(old(View()), plan, b)
    {
      hide ReconcileFile, Initialize, Upgrade;
      if !b.tools.runtimeDirs {
        return Stopped(RuntimeFailure);
      }
      if plan.kind != DoMaintenance && !b.tools.tlsMaterial {
        return Stopped(SecretError);
      }
      match plan.kind {
        case DoProvision =>
          r := RunInitialize(b, Provision);
        case DoJoin =>
          r := RunInitialize(b, Join);
        case DoStart =>
          r := EnsureGlobalOptions(b, false);
        case DBCheckThenStart =>
          r := RunUpgrade(b);
        case DoMaintenance =>
          r := if b.tools.toolSucceeds then Checked else Stopped(DBCheckFailed);
        case NoAction =>
          r := Stopped(ConfigError);
      }
    }

    /** One life of the container: load, observe, decide, execute. */
    method Start(b: Boot) returns (r: Ended)
      modifies this, conf
      ensures (View(), r) == BootStep(old(View()), b)
    {
      hide Decide, Execute;
      var obs := Observe(Volume(present, marker), b.tools.readable);
      if obs.None? {
        return Stopped(ConfigError);
      }
      var decision := Decide(b.cfg, obs.value, b.image);
      if decision.Denied? {
        return Stopped(decision.code);
      }
      var plan := decision.plan;
      if b.chrony && plan.kind != DoMaintenance && plan.kind != NoAction && !b.tools.chronyDir {
        return Stopped(RuntimeFailure);
      }
      r := RunExecute(plan, b);
    }
  }

  // ----- what one boot does

  /** A marker lies only on a volume that holds samba state. */
  predicate Sound(m: Machine) {
    m.volume.file != Absent ==> m.volume.present
  }

  predicate SameVersion(a: string, b: string) {
    a == b || (Valid(a) && Valid(b) && Triple(a) == Triple(b))
  }

  /** The plan a boot is given, if it gets as far as having one. */
  function PlanOf(m: Machine, b: Boot): Option<Plan> {
    match Observe(m.volume, b.tools.readable)
    case None => None
    case Some(obs) =>
      var d := Decide(b.cfg, obs, b.image);
      if d.Chosen? then Some(d.plan) else None
  }

  predicate Initializes(m: Machine, b: Boot) {
    PlanOf(m, b).Some? && PlanOf(m, b).value.kind in {DoProvision, DoJoin}
  }

  /** The boot went as far as a provision, a join or a database check, and the tool succeeded. */
  predicate Completed(m: Machine, b: Boot) {
    PlanOf(m, b).Some? && PlanOf(m, b).value.kind in {DoProvision, DoJoin, DBCheckThenStart} && b.tools.toolSucceeds
  }

  /**
   One boot: the volume stays sound; samba state never disappears; a marker
   changes only on a boot that ran a provision, a join or a database check
   successfully, and then names the image; a marker never disappears; and
   daemons start only with a marker of the image's own version.
   */
  lemma BootStepFacts(m: Machine, b: Boot)
    ensures var (after, ended) := BootStep(m, b);
            && (Sound(m) ==> Sound(after))
            && (m.volume.present ==> after.volume.present)
            && (after.volume.file != m.volume.file ==>
                  Completed(m, b) && after.volume.file.Held? && after.volume.file.marker.sambaVersion == b.image)
            && (m.volume.file != Absent ==> after.volume.file != Absent)
            && (ended.Started? ==> after.volume.file.Held? && SameVersion(after.volume.file.marker.sambaVersion, b.image))
            && (ended.Checked? ==> after == m)
  {
    hide Valid, Triple, Compare, ReconcileFile, EffectiveOptions, JoinConf, JoinedSettings, Trim;
    var obs := Observe(m.volume, b.tools.readable);
    if obs.Some? && obs.value.marker.Some? { SameTriple(obs.value.marker.value.sambaVersion, b.image); }
  }

  lemma SameTriple(a: string, b: string)
    ensures Compare(a, b) == Some(0) ==> Valid(a) && Valid(b) && Triple(a) == Triple(b)
  {
    hide Valid, Triple;
    if Valid(a) && Valid(b) { OrderTotal(Triple(a), Triple(b)); }
  }

  /** A refused decision changes nothing, and an image older than the marker is always refused before anything is run. */
  lemma DowngradeRefused(m: Machine, b: Boot)
    requires m.volume.present && m.volume.file.Held? && b.tools.readable && b.cfg.mode in {Auto, Run, Maintenance}
    requires Valid(m.volume.file.marker.sambaVersion) && Valid(b.image)
    ensures Compare(m.volume.file.marker.sambaVersion, b.image).value > 0 <==> BootStep(m, b).1 == Stopped(Downgrade)
    ensures BootStep(m, b).1 == Stopped(Downgrade) ==> BootStep(m, b).0 == m
  {
    hide Valid, Triple, Order, EffectiveOptions, JoinConf, JoinedSettings, Trim, Pass;
    ReconcileCodes(m.conf, b.cfg.global, false, b.tools.gate);
    ReconcileNotDowngrade(m, b);
  }

  lemma ReconcileCodes(file: Option<string>, c: Config, generated: bool, w: World)
    ensures var r := ReconcileFile(file, c, generated, w).1;
            r.Refuse? ==> r.code == ConfigError || r.code == RuntimeFailure
  {
    hide Pass, EffectiveOptions;
  }

  lemma ReconcileNotDowngrade(m: Machine, b: Boot)
    ensures Upgrade(m, b).1 != Stopped(Downgrade)
  {
    hide ReconcileFile, Trim;
    var obs := Observe(m.volume, b.tools.readableAgain);
    if obs.Some? {
      ReconcileCodes(m.conf, b.cfg.global, false, b.tools.gate);
    }
  }

  // ----- histories

  function After(m: Machine, boots: seq<Boot>): Machine
    decreases |boots|
  {
    hide BootStep;
    if boots == [] then m else After(BootStep(m, boots[0]).0, boots[1..])
  }

  /** How boot i of a history ended. */
  function EndedAt(m: Machine, boots: seq<Boot>, i: nat): Ended
    requires i < |boots|
  {
    BootStep(After(m, boots[..i]), boots[i]).1
  }

  lemma {:induction false} AfterConcat(m: Machine, a: seq<Boot>, b: seq<Boot>)
    ensures After(m, a + b) == After(After(m, a), b)
    decreases |a|
  {
    hide BootStep;
    if a == [] {
      assert a + b == b;
    } else {
      assert (a + b)[1..] == a[1..] + b;
      AfterConcat(BootStep(m, a[0]).0, a[1..], b);
    }
  }

  lemma {:induction false} AfterSound(m: Machine, boots: seq<Boot>)
    requires Sound(m)
    ensures Sound(After(m, boots))
    decreases |boots|
  {
    hide BootStep;
    if boots != [] {
      BootStepFacts(m, boots[0]);
      AfterSound(BootStep(m, boots[0]).0, boots[1..]);
    }
  }

  /** The volume carries a marker of at least version v (or of the unparsable version v itself). */
  predicate AtLeast(m: Machine, v: string) {
    && m.volume.present && m.volume.file.Held?
    && var w := m.volume.file.marker.sambaVersion;
       if Valid(v) then Valid(w) && Compare(v, w).value <= 0 else !Valid(w)
  }

  /** A volume that reached v stays there, and only an image of at least v can still start on it. */
  lemma AtLeastStep(m: Machine, b: Boot, v: string)
    requires AtLeast(m, v)
    ensures AtLeast(BootStep(m, b).0, v)
    ensures BootStep(m, b).1.Started? ==> Valid(v) && Valid(b.image) && Compare(v, b.image).value <= 0
  {
    hide Valid, Triple, Order, ReconcileFile, EffectiveOptions, JoinConf, JoinedSettings, Trim;
    var w := m.volume.file.marker.sambaVersion;
    if Valid(v) && Valid(w) && Valid(b.image) {
      OrderTotal(Triple(w), Triple(b.image));
      if Compare(w, b.image).value <= 0 {
        OrderTransitive(Triple(v), Triple(w), Triple(b.image));
      }
    }
  }

  lemma {:induction false} AtLeastForever(m: Machine, boots: seq<Boot>, v: string)
    requires AtLeast(m, v)
    ensures AtLeast(After(m, boots), v)
    decreases |boots|
  {
    hide BootStep, AtLeast;
    if boots != [] {
      AtLeastStep(m, boots[0], v);
      AtLeastForever(BootStep(m, boots[0]).0, boots[1..], v);
    }
  }

  lemma StartedIsAtLeast(m: Machine, b: Boot)
    requires Sound(m) && BootStep(m, b).1.Started?
    ensures AtLeast(BootStep(m, b).0, b.image)
  {
    hide Valid, Triple, BootStep;
    BootStepFacts(m, b);
    if Valid(b.image) { OrderTotal(Triple(b.image), Triple(b.image)); }
  }

  /** Over any history of boots, the versions of the daemons that start never decrease. */
  lemma StartedVersionsNeverDecrease(m: Machine, boots: seq<Boot>, i: nat, j: nat)
    requires Sound(m) && i < j < |boots|
    requires EndedAt(m, boots, i).Started? && EndedAt(m, boots, j).Started?
    ensures Valid(boots[i].image) && Valid(boots[j].image) && Compare(boots[i].image, boots[j].image).value <= 0
  {
    hide BootStep, AtLeast;
    var before := After(m, boots[..i]);
    AfterSound(m, boots[..i]);
    StartedIsAtLeast(before, boots[i]);
    var mid := BootStep(before, boots[i]).0;
    var rest := boots[i + 1..j];
    assert boots[..j] == boots[..i] + ([boots[i]] + rest);
    AfterConcat(m, boots[..i], [boots[i]] + rest);
    assert ([boots[i]] + rest)[1..] == rest;
    assert After(before, [boots[i]] + rest) == After(mid, rest);
    AtLeastForever(mid, rest, boots[i].image);
    AtLeastStep(After(mid, rest), boots[j], boots[i].image);
  }

  /**
   Daemons only ever start with a marker of the image's version. The marker
   is numerically equal to the image exactly when the image's own version
   parses: provision and join never check it.
   */
  lemma StartedMarkerMatches(m: Machine, boots: seq<Boot>, i: nat)
    requires Sound(m) && i < |boots| && EndedAt(m, boots, i).Started?
    ensures var after := After(m, boots[..i + 1]);
            && after.volume.file.Held?
            && SameVersion(after.volume.file.marker.sambaVersion, boots[i].image)
            && (Compare(after.volume.file.marker.sambaVersion, boots[i].image) == Some(0) <==> Valid(boots[i].image))
  {
    hide BootStep, Valid, Triple;
    AfterSound(m, boots[..i]);
    var before := After(m, boots[..i]);
    BootStepFacts(before, boots[i]);
    AfterSnoc(m, boots, i);
    if Valid(boots[i].image) { OrderTotal(Triple(boots[i].image), Triple(boots[i].image)); }
  }

  lemma AfterSnoc(m: Machine, boots: seq<Boot>, i: nat)
    requires i < |boots|
    ensures After(m, boots[..i + 1]) == BootStep(After(m, boots[..i]), boots[i]).0
  {
    hide BootStep;
    assert boots[..i + 1] == boots[..i] + [boots[i]];
    AfterConcat(m, boots[..i], [boots[i]]);
    assert [boots[i]][1..] == [];
  }

  /** Boot i ran a provision, a join or a database check successfully and wrote the marker that the history ends with. */
  predicate WritesFinalMarker(m: Machine, boots: seq<Boot>, i: nat)
    requires i < |boots|
  {
    && Completed(After(m, boots[..i]), boots[i])
    && After(m, boots[..i + 1]).volume.file != After(m, boots[..i]).volume.file
    && After(m, boots[..i + 1]).volume.file == After(m, boots).volume.file
    && After(m, boots).volume.file.Held? && After(m, boots).volume.file.marker.sambaVersion == boots[i].image
  }

  /**
   A history that ends with a marker it did not begin with holds the boot that
   wrote that marker, of its own image, after a provision, a join or a database
   check that succeeded.
   */
  lemma {:induction false} MarkerNeedsCompletion(m: Machine, boots: seq<Boot>)
    requires After(m, boots).volume.file != m.volume.file
    ensures exists i: nat :: i < |boots| && WritesFinalMarker(m, boots, i)
    decreases |boots|
  {
    hide BootStep, Completed;
    var n := |boots| - 1;
    var init := boots[..n];
    assert boots[..n + 1] == boots;
    AfterSnoc(m, boots, n);
    BootStepFacts(After(m, init), boots[n]);
    if After(m, boots).volume.file == After(m, init).volume.file {
      MarkerNeedsCompletion(m, init);
      var i: nat :| i < |init| && WritesFinalMarker(m, init, i);
      assert init[..i] == boots[..i] && init[..i + 1] == boots[..i + 1];
      assert WritesFinalMarker(m, boots, i);
    } else {
      assert WritesFinalMarker(m, boots, n);
    }
  }

  // ----- a domain is created once

  /**
   The refusal codes for state mean what they say, for every configuration: 20
   exactly when an initializing mode meets existing state, 21 exactly when a
   mode that needs state meets none. Maintenance starts nothing and leaves the
   volume and the configuration as they are.
   */
  lemma ModeContract(m: Machine, b: Boot, obs: Observation)
    requires Observe(m.volume, b.tools.readable) == Some(obs)
    ensures Decide(b.cfg, obs, b.image) == Denied(StateExists) <==> m.volume.present && b.cfg.mode in {Provision, Join}
    ensures Decide(b.cfg, obs, b.image) == Denied(StateAbsent) <==> !m.volume.present && b.cfg.mode in {Run, Maintenance}
    ensures b.cfg.mode == Maintenance ==> BootStep(m, b).0 == m && !BootStep(m, b).1.Started?
    ensures Initializes(m, b) ==> !m.volume.present && b.cfg.mode in {Auto, Provision, Join}
  {
    hide Valid, Compare;
  }

  lemma {:induction false} StateForever(m: Machine, boots: seq<Boot>)
    requires Sound(m) && m.volume.present
    ensures Sound(After(m, boots)) && After(m, boots).volume.present
    decreases |boots|
  {
    hide BootStep;
    if boots != [] {
      BootStepFacts(m, boots[0]);
      StateForever(BootStep(m, boots[0]).0, boots[1..]);
    }
  }

  /** Once a volume holds samba state, no later boot in any mode provisions or joins it again. */
  lemma NeverReinitialized(m: Machine, boots: seq<Boot>, i: nat, j: nat)
    requires Sound(m) && i <= j < |boots| && After(m, boots[..i]).volume.present
    ensures !Initializes(After(m, boots[..j]), boots[j])
  {
    hide BootStep, Decide;
    AfterSound(m, boots[..i]);
    assert boots[..j] == boots[..i] + boots[i..j];
    AfterConcat(m, boots[..i], boots[i..j]);
    StateForever(After(m, boots[..i]), boots[i..j]);
    var before := After(m, boots[..j]);
    if Observe(before.volume, boots[j].tools.readable).Some? {
      ModeContract(before, boots[j], Observe(before.volume, boots[j].tools.readable).value);
    }
  }

  // ----- initialized_at

  predicate BornAt(m: Machine, time: string) {
    m.volume.present && m.volume.file.Held? && Trim(m.volume.file.marker.initializedAt) == time != ""
  }

  lemma BornAtStep(m: Machine, b: Boot, time: string)
    requires BornAt(m, time)
    ensures BornAt(BootStep(m, b).0, time)
  {
    hide Valid, Triple, Order, ReconcileFile, EffectiveOptions, JoinConf, JoinedSettings, Trim;
    TrimTwice(m.volume.file.marker.initializedAt);
  }

  /** The moment a domain was created, once recorded, is never changed by any later boot. */
  lemma {:induction false} BornAtForever(m: Machine, boots: seq<Boot>, time: string)
    requires BornAt(m, time)
    ensures BornAt(After(m, boots), time)
    decreases |boots|
  {
    hide BootStep, BornAt;
    if boots != [] {
      BornAtStep(m, boots[0], time);
      BornAtForever(BootStep(m, boots[0]).0, boots[1..], time);
    }
  }

  // ----- the configuration the daemons start on

  /** Daemons start on a file that this boot left alone or that samba's own parser accepted. */
  lemma StartedOnJudgedFile(m: Machine, b: Boot)
    requires BootStep(m, b).1.Started?
    ensures var conf := BootStep(m, b).0.conf;
            conf.Some? ==> conf == m.conf || b.tools.gate.accepts(conf.value)
  {
    hide Valid, Compare, ReconcileFile, EffectiveOptions, JoinConf, JoinedSettings, Trim, Decide, Initialize;
    InitializedOnJudgedFile(m, b, Provision);
    InitializedOnJudgedFile(m, b, Join);
    UpgradedOnJudgedFile(m, m, b);
    var obs := Observe(m.volume, b.tools.readableAgain);
    if obs.Some? {
      UpgradedOnJudgedFile(m, Marked(m, b, InitializedAt(obs.value.marker, b.tools.now), Run), b);
    }
  }

  lemma UpgradedOnJudgedFile(m: Machine, marked: Machine, b: Boot)
    requires marked.conf == m.conf
    ensures var (after, ended) := Reconciled(marked, b, false);
            ended.Started? && after.conf.Some? ==> after.conf == m.conf || b.tools.gate.accepts(after.conf.value)
  {
    hide ReconcileFile, EffectiveOptions;
    Judged(m.conf, b.cfg.global, false, b.tools.gate);
    var (after, ended) := Reconciled(marked, b, false);
    if ended.Started? {
      assert (after.conf, Proceed) == (ReconcileFile(m.conf, b.cfg.global, false, b.tools.gate).0, ReconcileFile(m.conf, b.cfg.global, false, b.tools.gate).1);
    }
  }

  lemma InitializedOnJudgedFile(m: Machine, b: Boot, mode: Mode)
    ensures var (after, ended) := Initialize(m, b, mode);
            ended.Started? && after.conf.Some? ==> b.tools.gate.accepts(after.conf.value)
  {
    hide ReconcileFile, EffectiveOptions, JoinConf, JoinedSettings;
    var joined := JoinConf(b.tools.written, JoinedSettings(b.cfg.level, b.cfg.forwarder), b.tools.joinedWrite).0;
    var file := if mode == Join then joined else b.tools.written;
    Judged(file, b.cfg.global, true, b.tools.gate);
    var (after, ended) := Initialize(m, b, mode);
    if ended.Started? {
      assert (after.conf, Proceed) == (ReconcileFile(file, b.cfg.global, true, b.tools.gate).0, ReconcileFile(file, b.cfg.global, true, b.tools.gate).1);
    }
  }

  lemma Judged(file: Option<string>, c: Config, generated: bool, w: World)
    ensures var (after, r, _) := ReconcileFile(file, c, generated, w);
            r.Proceed? && after.Some? ==> (after == file && !generated) || w.accepts(after.value)
  {
    hide Pass, EffectiveOptions;
  }

  /** Every boot has a configuration as it is loaded, whose TLS paths are clear of the parameter. */
  ghost predicate LoadedBoots(boots: seq<Boot>, key: string) {
    forall b :: b in boots ==> Loaded(b.cfg.global) && AllClear(TLSOptions(b.cfg.global), SmbRows.GLOBAL, CanonicalKey(key))
  }

  predicate SettingHolds(m: Machine, key: string, value: string) {
    && m.volume.present && m.conf.Some?
    && var vs := SmbConf.Reads(m.conf.value, SmbRows.GLOBAL, CanonicalKey(key)); vs != [] && vs[0] == value
  }

  lemma SettingHoldsStep(m: Machine, b: Boot, key: string, value: string)
    requires SettingHolds(m, key, value)
    requires Loaded(b.cfg.global) && AllClear(TLSOptions(b.cfg.global), SmbRows.GLOBAL, CanonicalKey(key))
    requires OwnerOf(CanonicalKey(key)).Some? && CanonicalKey(key) !in Canonicals(TLSKeys())
    ensures SettingHolds(BootStep(m, b).0, key, value)
  {
    hide BootStep, ReconcileFile, AllClear, TLSOptions, CanonicalKey, OwnerOf, Canonicals, SmbConf.Reads;
    PresentOnlyReconciles(m, b);
    BootKeepsState(m, b);
    ReconcileKeeps(m.conf.value, b.cfg.global, false, b.tools.gate, key);
  }

  lemma PresentOnlyReconciles(m: Machine, b: Boot)
    requires m.volume.present
    ensures BootStep(m, b).0.conf in {m.conf, ReconcileFile(m.conf, b.cfg.global, false, b.tools.gate).0}
  {
    hide Valid, Compare, ReconcileFile, EffectiveOptions, Initialize, Trim;
  }

  lemma BootKeepsState(m: Machine, b: Boot)
    ensures m.volume.present ==> BootStep(m, b).0.volume.present
  {
    hide Valid, Compare, ReconcileFile, EffectiveOptions, JoinConf, JoinedSettings, Trim;
  }

  /** On an initialized volume, an owned setting stays in force through any later boots, whatever they declare. */
  lemma {:induction false} SettingHoldsForever(m: Machine, boots: seq<Boot>, key: string, value: string)
    requires SettingHolds(m, key, value) && LoadedBoots(boots, key)
    requires OwnerOf(CanonicalKey(key)).Some? && CanonicalKey(key) !in Canonicals(TLSKeys())
    ensures SettingHolds(After(m, boots), key, value)
    decreases |boots|
  {
    hide BootStep, SettingHolds, EffectiveOptions, CanonicalKey, OwnerOf, Canonicals;
    if boots != [] {
      assert boots[0] in boots;
      SettingHoldsStep(m, boots[0], key, value);
      SettingHoldsForever(BootStep(m, boots[0]).0, boots[1..], key, value);
    }
  }

  // ----- what a join forces in

  /** What a join that was forced into its file reads, whether or not samba-tool had written it already. */
  lemma JoinConfReads(file: Option<string>, level: string, forwarder: string, canWrite: bool, o: GlobalOption)
    requires o in JoinedSettings(level, forwarder) && AllClear(JoinedSettings(level, forwarder), SmbRows.GLOBAL, o.name.canonical)
    requires JoinConf(file, JoinedSettings(level, forwarder), canWrite).1.Proceed?
    ensures var after := JoinConf(file, JoinedSettings(level, forwarder), canWrite).0;
            && after.Some?
            && var vs := SmbConf.Reads(after.value, SmbRows.GLOBAL, CanonicalKey(o.name.text)); vs != [] && vs[0] == Normalize(LineBreaks.FirstLine(o.value))
  {
    hide SetAll, JoinedSettings, SmbConf.Reads, CanonicalKey, OwnerOf, Normalize, LineBreaks.FirstLine, AllClear, Written;
    var os := JoinedSettings(level, forwarder);
    JoinedWritable(level, forwarder);
    OptionFound(os, o);
    SetAllReads(file.value, os, SmbRows.GLOBAL, o.name.canonical);
    SetAllQuietIff(file.value, os);
  }

  /** A joined parameter belongs to the image or to a variable other than the TLS files. */
  lemma JoinedIsOwned(level: string, forwarder: string, o: GlobalOption)
    requires o in JoinedSettings(level, forwarder)
    ensures OwnerOf(CanonicalKey(o.name.text)).Some? && CanonicalKey(o.name.text) !in Canonicals(TLSKeys())
  {
    hide JoinedSettings, CanonicalKey, OwnerOf, SmbConf.GoodKey;
    JoinedWritable(level, forwarder);
    JoinedKeyName(o.name.text);
    forall i | 0 <= i < 3
      ensures CanonicalKey(TLSKeys()[i]) != CanonicalKey(o.name.text)
    {
      TLSNames(TLSKeys()[i]);
    }
  }

  /** The file after a join that wrote its marker: what the join forced in, reconciled or put back. */
  lemma JoinLeaves(m: Machine, b: Boot)
    requires PlanOf(m, b).Some? && PlanOf(m, b).value.kind == DoJoin && BootStep(m, b).0.volume.file != m.volume.file
    ensures var joined := JoinConf(b.tools.written, JoinedSettings(b.cfg.level, b.cfg.forwarder), b.tools.joinedWrite);
            && joined.1.Proceed? && BootStep(m, b).0.volume.present
            && BootStep(m, b).0.conf == ReconcileFile(joined.0, b.cfg.global, true, b.tools.gate).0
  {
    hide Decide, JoinConf, JoinedSettings, ReconcileFile, EffectiveOptions;
    assert BootStep(m, b) == Initialize(m, b, Join) by { hide Initialize; }
    var joined := JoinConf(b.tools.written, JoinedSettings(b.cfg.level, b.cfg.forwarder), b.tools.joinedWrite);
    assert joined.1.Refuse? ==> Initialize(m, b, Join).0.volume.file == m.volume.file;
  }

  /** After a join that wrote its marker, every setting it forces in is in force, whatever its own reconcile met. */
  lemma JoinHolds(m: Machine, b: Boot, o: GlobalOption)
    requires PlanOf(m, b).Some? && PlanOf(m, b).value.kind == DoJoin && BootStep(m, b).0.volume.file != m.volume.file
    requires o in JoinedSettings(b.cfg.level, b.cfg.forwarder) && LoadedBoots([b], o.name.text)
    requires AllClear(JoinedSettings(b.cfg.level, b.cfg.forwarder), SmbRows.GLOBAL, o.name.canonical)
    ensures SettingHolds(BootStep(m, b).0, o.name.text, Normalize(LineBreaks.FirstLine(o.value)))
  {
    hide BootStep, PlanOf, JoinConf, JoinedSettings, ReconcileFile, Loaded, CanonicalKey, OwnerOf, Canonicals, SmbConf.Reads, Normalize, LineBreaks.FirstLine, AllClear, TLSOptions;
    assert b in [b];
    JoinLeaves(m, b);
    var joined := JoinConf(b.tools.written, JoinedSettings(b.cfg.level, b.cfg.forwarder), b.tools.joinedWrite).0;
    JoinConfReads(b.tools.written, b.cfg.level, b.cfg.forwarder, b.tools.joinedWrite, o);
    JoinedIsOwned(b.cfg.level, b.cfg.forwarder, o);
    ReconcileKeeps(joined.value, b.cfg.global, true, b.tools.gate, o.name.text);
  }

  /** From the boot that joined, through any later boots whatever they declare, every joined setting stays in force. */
  lemma JoinedHoldsForever(m: Machine, b: Boot, boots: seq<Boot>, o: GlobalOption)
    requires PlanOf(m, b).Some? && PlanOf(m, b).value.kind == DoJoin && BootStep(m, b).0.volume.file != m.volume.file
    requires o in JoinedSettings(b.cfg.level, b.cfg.forwarder) && LoadedBoots([b] + boots, o.name.text)
    requires AllClear(JoinedSettings(b.cfg.level, b.cfg.forwarder), SmbRows.GLOBAL, o.name.canonical)
    ensures SettingHolds(After(m, [b] + boots), o.name.text, Normalize(LineBreaks.FirstLine(o.value)))
  {
    hide BootStep, PlanOf, JoinedSettings, EffectiveOptions, CanonicalKey, OwnerOf, Canonicals, Normalize, SettingHolds, LineBreaks.FirstLine, AllClear, TLSOptions;
    assert ([b] + boots)[0] == b && ([b] + boots)[1..] == boots;
    assert b in [b] + boots && forall x :: x in boots ==> x in [b] + boots;
    JoinHolds(m, b, o);
    JoinedIsOwned(b.cfg.level, b.cfg.forwarder, o);
    SettingHoldsForever(BootStep(m, b).0, boots, o.name.text, Normalize(LineBreaks.FirstLine(o.value)));
  }
}
