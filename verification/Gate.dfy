/**
 The gate over whole histories: which smb.conf the daemons of a volume start
 on, boot after boot, when samba's own parser may reject a file, a rejected
 edit may fail to be put back, and samba-tool writes files of its own.
 */
module Gate {
  import opened Text
  import opened Refusals
  import opened GlobalOptions
  import opened Reconcile
  import opened Versions
  import opened Lifecycle

  /** What one boot leaves of the file: as it was, accepted by the gate, or changed by a boot that then refused. */
  datatype Mark = Kept | Passed | Suspect

  /** The boot gets as far as running samba-tool, which writes a file of its own. */
  predicate Generates(m: Machine, b: Boot) {
    && Initializes(m, b) && (b.chrony ==> b.tools.chronyDir) && b.tools.runtimeDirs && b.tools.tlsMaterial
    && (EffectiveOptions(b.cfg.global) == [] || b.tools.declared.Proceed?) && b.tools.secret
  }

  function Leaves(m: Machine, b: Boot): Mark {
    var (after, ended) := BootStep(m, b);
    if ended.Started? && (Generates(m, b) || ReconcileFile(m.conf, b.cfg.global, false, b.tools.gate).2 != []) then Passed
    else if !ended.Started? && after.conf != m.conf then Suspect
    else Kept
  }

  /** A boot that runs no samba-tool writes the file by its reconcile or not at all. */
  lemma OnlyReconciles(m: Machine, b: Boot)
    requires !Generates(m, b)
    ensures var r := ReconcileFile(m.conf, b.cfg.global, false, b.tools.gate);
            || (BootStep(m, b).0.conf == r.0 && (BootStep(m, b).1.Started? <==> r.1.Proceed?))
            || (BootStep(m, b).0.conf == m.conf && !BootStep(m, b).1.Started?)
  {
    hide Valid, Compare, ReconcileFile, EffectiveOptions, JoinConf, JoinedSettings, Trim, Decide;
    var plan := PlanOf(m, b);
    if plan.Some? && plan.value.kind == DBCheckThenStart {
      UpgradeReconciles(m, b);
    }
  }

  lemma UpgradeReconciles(m: Machine, b: Boot)
    ensures var r := ReconcileFile(m.conf, b.cfg.global, false, b.tools.gate);
            || (Upgrade(m, b).0.conf == r.0 && (Upgrade(m, b).1.Started? <==> r.1.Proceed?))
            || (Upgrade(m, b).0.conf == m.conf && !Upgrade(m, b).1.Started?)
  {
    hide ReconcileFile, Trim;
  }

  lemma GeneratedStart(m: Machine, b: Boot)
    requires Generates(m, b)
    ensures var (after, ended) := BootStep(m, b);
            ended.Started? && after.conf.Some? ==> b.tools.gate.accepts(after.conf.value)
  {
    hide Valid, Compare, EffectiveOptions, Decide, Initialize;
    InitializedOnJudgedFile(m, b, Provision);
    InitializedOnJudgedFile(m, b, Join);
  }

  /** The rejected edit is still in the file because putting the old file back failed. */
  predicate RestoreFailed(m: Machine, b: Boot) {
    var after := BootStep(m, b).0;
    && m.conf.Some? && after.conf == Some(Pass(m.conf.value, b.cfg.global).0)
    && !b.tools.gate.canRestore && !b.tools.gate.accepts(after.conf.value)
  }

  /**
   What the marks say. A kept file is the file before. An accepted one was
   judged by the gate of a boot that started its daemons. A suspect one is
   not the file before, and was left by a boot that started none: samba-tool
   wrote it, or a rejected edit could not be put back.
   */
  lemma MarkFacts(m: Machine, b: Boot)
    ensures var (after, ended) := BootStep(m, b);
            match Leaves(m, b)
            case Kept => after.conf == m.conf
            case Passed => ended.Started? && (after.conf.Some? ==> b.tools.gate.accepts(after.conf.value))
            case Suspect => !ended.Started? && after.conf != m.conf && (Generates(m, b) || RestoreFailed(m, b))
  {
    hide BootStep, Generates, ReconcileFile, Pass, EffectiveOptions;
    if Generates(m, b) {
      GeneratedStart(m, b);
    } else {
      OnlyReconciles(m, b);
      var r := ReconcileFile(m.conf, b.cfg.global, false, b.tools.gate);
      Transactional(m.conf, b.cfg.global, false, b.tools.gate);
      QuietReconcile(m.conf, b.cfg.global, b.tools.gate);
    }
  }

  lemma QuietReconcile(file: Option<string>, c: Config, w: World)
    ensures var (after, r, notices) := ReconcileFile(file, c, false, w);
            && (r.Proceed? && notices == [] ==> after == file)
            && (r.Proceed? && notices != [] ==> after.Some? && w.accepts(after.value))
  {
    hide Pass, EffectiveOptions;
  }

  // ----- histories

  function LeavesAt(m: Machine, boots: seq<Boot>, i: nat): Mark
    requires i < |boots|
  {
    Leaves(After(m, boots[..i]), boots[i])
  }

  /** Boot i left this mark, and every later boot up to k kept the file. */
  predicate LastMark(m: Machine, boots: seq<Boot>, i: nat, k: nat, mark: Mark)
    requires i <= k < |boots|
  {
    LeavesAt(m, boots, i) == mark && forall j :: i < j <= k ==> LeavesAt(m, boots, j) == Kept
  }

  predicate KeptUpTo(m: Machine, boots: seq<Boot>, k: nat)
    requires k < |boots|
  {
    forall j :: 0 <= j <= k ==> LeavesAt(m, boots, j) == Kept
  }

  lemma KeptIsSame(m: Machine, boots: seq<Boot>, j: nat)
    requires j < |boots| && LeavesAt(m, boots, j) == Kept
    ensures After(m, boots[..j + 1]).conf == After(m, boots[..j]).conf
  {
    hide BootStep, Leaves;
    AfterSnoc(m, boots, j);
    MarkFacts(After(m, boots[..j]), boots[j]);
  }

  lemma {:induction false} SameSince(m: Machine, boots: seq<Boot>, i: nat, k: nat)
    requires i <= k < |boots| && forall j :: i < j <= k ==> LeavesAt(m, boots, j) == Kept
    ensures After(m, boots[..k + 1]).conf == After(m, boots[..i + 1]).conf
  {
    hide LeavesAt;
    if i < k {
      SameSince(m, boots, i, k - 1);
      KeptIsSame(m, boots, k);
    }
  }

  /** The file's history ends in exactly one way: never touched, or a last mark. */
  lemma {:induction false} OneLastMark(m: Machine, boots: seq<Boot>, k: nat)
    requires k < |boots|
    ensures KeptUpTo(m, boots, k) || exists i: nat, mark :: i <= k && mark != Kept && LastMark(m, boots, i, k, mark)
  {
    hide LeavesAt;
    if LeavesAt(m, boots, k) != Kept {
      assert LastMark(m, boots, k, k, LeavesAt(m, boots, k));
    } else if k > 0 {
      OneLastMark(m, boots, k - 1);
      if !KeptUpTo(m, boots, k - 1) {
        var i: nat, mark :| i <= k - 1 && mark != Kept && LastMark(m, boots, i, k - 1, mark);
        assert LastMark(m, boots, i, k, mark);
      }
    }
  }

  /** The text after boot k is the volume's first one, or one that a boot up to then started on past its gate. */
  ghost predicate Vouched(m: Machine, boots: seq<Boot>, k: nat)
    requires k < |boots|
  {
    || After(m, boots[..k + 1]).conf == m.conf
    || exists i: nat :: i <= k && LeavesAt(m, boots, i) == Passed && After(m, boots[..i + 1]).conf == After(m, boots[..k + 1]).conf
  }

  lemma SameVouched(m: Machine, boots: seq<Boot>, i: nat, k: nat)
    requires i <= k < |boots| && LeavesAt(m, boots, i) == Suspect && forall j :: i < j <= k ==> LeavesAt(m, boots, j) == Kept
    ensures Vouched(m, boots, i) <==> Vouched(m, boots, k)
  {
    hide LeavesAt, After;
    SameSince(m, boots, i, k);
  }

  /**
   The gate over any history, with its exact condition. Daemons start on the
   volume's first text or on one that some boot's gate passed, exactly unless
   the last boot that changed the file started none and left a text that was
   neither: the gate does not run when there is nothing to edit.
   */
  lemma StartedOnVouchedFileIff(m: Machine, boots: seq<Boot>, k: nat)
    requires k < |boots| && EndedAt(m, boots, k).Started?
    ensures Vouched(m, boots, k)
       <==> !exists i: nat :: i < k && LastMark(m, boots, i, k, Suspect) && !Vouched(m, boots, i)
  {
    hide LeavesAt, EndedAt, Vouched;
    OneLastMark(m, boots, k);
    StartedIsNotSuspect(m, boots, k);
    if i: nat :| i < k && LastMark(m, boots, i, k, Suspect) && !Vouched(m, boots, i) {
      SameVouched(m, boots, i, k);
    } else if KeptUpTo(m, boots, k) {
      UntouchedIsVouched(m, boots, k);
    } else {
      var i: nat, mark :| i <= k && mark != Kept && LastMark(m, boots, i, k, mark);
      if mark == Passed {
        PassedIsVouched(m, boots, i, k);
      } else {
        SameVouched(m, boots, i, k);
      }
    }
  }

  lemma UntouchedIsVouched(m: Machine, boots: seq<Boot>, k: nat)
    requires k < |boots| && KeptUpTo(m, boots, k)
    ensures Vouched(m, boots, k)
  {
    hide LeavesAt;
    SameSince(m, boots, 0, k);
    KeptIsSame(m, boots, 0);
    assert boots[..0] == [];
  }

  lemma PassedIsVouched(m: Machine, boots: seq<Boot>, i: nat, k: nat)
    requires i <= k < |boots| && LastMark(m, boots, i, k, Passed)
    ensures Vouched(m, boots, k)
  {
    hide LeavesAt, After;
    SameSince(m, boots, i, k);
  }

  lemma StartedIsNotSuspect(m: Machine, boots: seq<Boot>, k: nat)
    requires k < |boots| && EndedAt(m, boots, k).Started?
    ensures LeavesAt(m, boots, k) != Suspect
  {
    hide BootStep, Generates, ReconcileFile;
  }

  /** What being vouched for means: the first file of the volume, or a text that the gate of a starting boot accepted. */
  lemma VouchedMeans(m: Machine, boots: seq<Boot>, k: nat)
    requires k < |boots| && Vouched(m, boots, k)
    ensures var conf := After(m, boots[..k + 1]).conf;
            || conf == m.conf
            || exists i: nat :: i <= k && EndedAt(m, boots, i).Started? && conf == After(m, boots[..i + 1]).conf
                 && (conf.Some? ==> boots[i].tools.gate.accepts(conf.value))
  {
    hide BootStep, Leaves;
    var conf := After(m, boots[..k + 1]).conf;
    if conf != m.conf {
      var i: nat :| i <= k && LeavesAt(m, boots, i) == Passed && After(m, boots[..i + 1]).conf == conf;
      AfterSnoc(m, boots, i);
      MarkFacts(After(m, boots[..i]), boots[i]);
    }
  }

  /** What being suspect means: a boot that started no daemons changed the file, and its text is still there. */
  lemma SuspectMeans(m: Machine, boots: seq<Boot>, i: nat, k: nat)
    requires i <= k < |boots| && LastMark(m, boots, i, k, Suspect)
    ensures After(m, boots[..k + 1]).conf == After(m, boots[..i + 1]).conf
    ensures var before := After(m, boots[..i]);
            && !EndedAt(m, boots, i).Started? && After(m, boots[..i + 1]).conf != before.conf
            && (Generates(before, boots[i]) || RestoreFailed(before, boots[i]))
  {
    hide BootStep, Leaves, Generates, RestoreFailed;
    SameSince(m, boots, i, k);
    AfterSnoc(m, boots, i);
    MarkFacts(After(m, boots[..i]), boots[i]);
  }
}
