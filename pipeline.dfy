/**
 * The stage sequencer of run_pipeline.py. `__main__` sanitises the subject and
 * calls seven `run*` functions in a fixed order. Each one creates its output
 * directory (with `parents=True, exist_ok=True`), three of them then check for
 * the FreeSurfer license file and report an error and return when it is missing,
 * and every command goes through `runBash`, whose `check_call` raises on a
 * non-zero exit status; nothing catches that exception, so it ends the run.
 *
 * The containers are black boxes: a command is its image and the subject it is given,
 * and its exit status comes from an oracle. Whether the license file exists when
 * a stage checks for it is another oracle, one answer per stage.
 */
module Pipeline {
  import opened Maybe
  import Shell
  import Subjects

  /** A directory path, as its components. */
  type Path = seq<string>

  /** The `run*` functions that `__main__` calls. */
  datatype Stage = Dcm2Bids | Mriqc | FastSurfer | DeepBrainNet | WmhSegmentation | QsiPrep | FmriPrep

  /** The container images the commands run (`heudiconv_img`, `mriqc_img`, ...). */
  datatype Image =
    | HeudiconvImg | MriqcImg | FastSurferImg | QaToolsImg
    | DeepBrainNetImg | LesionSegImg | QsiPrepImg | FmriPrepImg

  /** One `runBash` call: the container it runs and the subject label on its command line. */
  datatype Command = Command(image: Image, subject: string)

  /** Everything a run depends on that the model does not compute. */
  datatype Env = Env(
    raw: string,              // the --subject argument
    derivs: Path,             // the --derivs directory
    license: Stage -> bool,   // license.is_file() at the moment the stage checks it
    status: Command -> int)   // the exit status of each command

  /** The call order of `__main__`. */
  const Order: seq<Stage> := [Dcm2Bids, Mriqc, FastSurfer, DeepBrainNet, WmhSegmentation, QsiPrep, FmriPrep]

  /** The conversion gets the raw subject; every later stage gets the sanitised label. */
  function SubjectFor(s: Stage, raw: string): string {
    if s == Dcm2Bids then raw else Subjects.BidsSubject(raw)
  }

  /** The `out_dir` a stage creates, if any. */
  function OutDir(s: Stage, derivs: Path, subject: string): Option<Path> {
    match s
    case Dcm2Bids => None
    case Mriqc => Some(derivs + ["mriqc"])
    case FastSurfer => Some(derivs + ["fastsurfer"])
    case DeepBrainNet => Some(derivs + ["deep-brain-net"])
    case WmhSegmentation => Some(derivs + ["lesion-segmentation"])
    case QsiPrep => Some(derivs)
    case FmriPrep => Some(derivs + ["fmriprep", subject])
  }

  /** The stages that test `license.is_file()` before running anything. */
  predicate LicenseGated(s: Stage) {
    s == FastSurfer || s == QsiPrep || s == FmriPrep
  }

  /** The commands a stage passes to `runBash`, in order. */
  function Commands(s: Stage, subject: string): seq<Command> {
    match s
    case Dcm2Bids => [Command(HeudiconvImg, subject)]
    case Mriqc => [Command(MriqcImg, subject)]
    case FastSurfer => [Command(FastSurferImg, subject), Command(QaToolsImg, subject)]
    case DeepBrainNet => [Command(DeepBrainNetImg, subject)]
    case WmhSegmentation => [Command(LesionSegImg, subject)]
    case QsiPrep => [Command(QsiPrepImg, subject)]
    case FmriPrep => [Command(FmriPrepImg, subject)]
  }

  /** The stage whose function issues commands for an image. */
  function StageOf(image: Image): Stage {
    match image
    case HeudiconvImg => Dcm2Bids
    case MriqcImg => Mriqc
    case FastSurferImg => FastSurfer
    case QaToolsImg => FastSurfer
    case DeepBrainNetImg => DeepBrainNet
    case LesionSegImg => WmhSegmentation
    case QsiPrepImg => QsiPrep
    case FmriPrepImg => FmriPrep
  }

  /** Every directory that exists after `Path(p).mkdir(parents=True)`: `p` and its ancestors. */
  function Ancestors(p: Path): set<Path> {
    set k | 0 <= k <= |p| :: p[..k]
  }

  /** What happens to the directory tree as the run goes on. */
  datatype Run = Run(
    dirs: set<Path>,       // directories that exist
    log: seq<Command>,     // commands that ran, in order
    skipped: seq<Stage>,   // stages that printed "ERROR: No license found, skipping ..."
    aborted: bool)         // a CalledProcessError is propagating

  /** The directories stage `s` creates when it is reached. */
  function StageDirs(s: Stage, derivs: Path, subject: string): set<Path> {
    match OutDir(s, derivs, subject)
    case None => {}
    case Some(p) => Ancestors(p)
  }

  /** One `run*` function called with `subject`, on a run that has not been aborted. */
  function StageStep(r: Run, s: Stage, subject: string, e: Env): Run
    requires !r.aborted
  {
    var dirs := r.dirs + StageDirs(s, e.derivs, subject);
    if LicenseGated(s) && !e.license(s) then Run(dirs, r.log, r.skipped + [s], false)
    else
      var cmds := Commands(s, subject);
      Run(dirs, r.log + Shell.Executed(cmds, e.status), r.skipped, !Shell.AllSucceed(cmds, e.status))
  }

  /** The stages called one after another until one raises. */
  function RunStages(r: Run, stages: seq<Stage>, e: Env): Run
    decreases |stages|
  {
    if stages == [] || r.aborted then r
    else RunStages(StageStep(r, stages[0], SubjectFor(stages[0], e.raw), e), stages[1..], e)
  }

  /** A whole run of `__main__`, starting with the directories `existing`. */
  function MainRun(e: Env, existing: set<Path>): Run {
    RunStages(Run(existing, [], [], false), Order, e)
  }

  // ---------------------------------------------------------------------------
  // The same run described stage by stage rather than step by step.

  /** The commands a stage runs once it is reached, given the license oracle. */
  function StagePlan(s: Stage, e: Env): seq<Command> {
    if LicenseGated(s) && !e.license(s) then [] else Commands(s, SubjectFor(s, e.raw))
  }

  /** The commands of `stages`, in order, as if none failed. */
  function Plan(stages: seq<Stage>, e: Env): seq<Command> {
    if stages == [] then [] else StagePlan(stages[0], e) + Plan(stages[1..], e)
  }

  /** The stages that are entered: each one after which every command succeeded lets the next one start. */
  function Reached(stages: seq<Stage>, e: Env): seq<Stage> {
    if stages == [] then []
    else [stages[0]] + (if Shell.AllSucceed(StagePlan(stages[0], e), e.status) then Reached(stages[1..], e) else [])
  }

  /** The reached stages that skip for want of a license. */
  function SkippedAmong(stages: seq<Stage>, e: Env): seq<Stage> {
    if stages == [] then []
    else (if LicenseGated(stages[0]) && !e.license(stages[0]) then [stages[0]] else []) + SkippedAmong(stages[1..], e)
  }

  /** The directories the stages create. */
  function DirsOf(stages: seq<Stage>, e: Env): set<Path> {
    if stages == [] then {}
    else StageDirs(stages[0], e.derivs, SubjectFor(stages[0], e.raw)) + DirsOf(stages[1..], e)
  }

  /**
   * The step-by-step run and the stage-by-stage description agree: the log is
   * the plan cut after its first failing command, the run is aborted exactly
   * when some planned command fails, and the directories and license errors are
   * those of the stages reached.
   */
  lemma {:induction false} RunStagesSpec(r: Run, stages: seq<Stage>, e: Env)
    requires !r.aborted
    ensures RunStagesSpecHolds(r, stages, e)
    decreases |stages|
  {
    if stages == [] {
      assert r.log + [] == r.log && r.skipped + [] == r.skipped;
    } else {
      var s := stages[0];
      var p := StagePlan(s, e);
      var q := Plan(stages[1..], e);
      var r1 := StageStep(r, s, SubjectFor(s, e.raw), e);
      StageStepSpec(r, s, e);
      assert Plan(stages, e) == p + q;
      var ok := Shell.AllSucceed(p, e.status);
      Shell.ExecutedConcat(p, q, e.status);
      Shell.AllSucceedConcat(p, q, e.status);
      if ok {
        assert !r1.aborted;
        RunStagesSpec(r1, stages[1..], e);
        RunStagesSpecStep(r, stages, e);
      } else {
        assert r1.aborted;
        assert RunStages(r, stages, e) == r1;
        assert Reached(stages, e) == [s];
      }
    }
  }

  ghost predicate RunStagesSpecHolds(r: Run, stages: seq<Stage>, e: Env) {
    var final := RunStages(r, stages, e);
    && final.dirs == r.dirs + DirsOf(Reached(stages, e), e)
    && final.log == r.log + Shell.Executed(Plan(stages, e), e.status)
    && final.skipped == r.skipped + SkippedAmong(Reached(stages, e), e)
    && final.aborted == !Shell.AllSucceed(Plan(stages, e), e.status)
  }

  lemma {:induction false} RunStagesSpecStep(r: Run, stages: seq<Stage>, e: Env)
    requires !r.aborted && stages != []
    requires Shell.AllSucceed(StagePlan(stages[0], e), e.status)
    requires RunStagesSpecHolds(StageStep(r, stages[0], SubjectFor(stages[0], e.raw), e), stages[1..], e)
    ensures RunStagesSpecHolds(r, stages, e)
  {
    var s := stages[0];
    var r1 := StageStep(r, s, SubjectFor(s, e.raw), e);
    StageStepSpec(r, s, e);
    assert RunStages(r, stages, e) == RunStages(r1, stages[1..], e);
    assert Reached(stages, e) == [s] + Reached(stages[1..], e);
    StepDirs(r, r1, s, Reached(stages[1..], e), e);
    StepSkipped(r.skipped, s, Reached(stages[1..], e), e);
    Shell.ExecutedSpec(StagePlan(s, e), e.status);
    assert Plan(stages, e) == StagePlan(s, e) + Plan(stages[1..], e);
    StepLog(r.log, StagePlan(s, e), Plan(stages[1..], e), e.status);
  }

  lemma StepDirs(r: Run, r1: Run, s: Stage, rest: seq<Stage>, e: Env)
    requires r1.dirs == r.dirs + DirsOf([s], e)
    ensures r1.dirs + DirsOf(rest, e) == r.dirs + DirsOf([s] + rest, e)
  {
    assert ([s] + rest)[0] == s && ([s] + rest)[1..] == rest;
    assert DirsOf([s], e) == StageDirs(s, e.derivs, SubjectFor(s, e.raw));
  }

  lemma StepSkipped(skipped: seq<Stage>, s: Stage, rest: seq<Stage>, e: Env)
    ensures (skipped + SkippedAmong([s], e)) + SkippedAmong(rest, e) == skipped + SkippedAmong([s] + rest, e)
  {
    assert ([s] + rest)[0] == s && ([s] + rest)[1..] == rest;
    assert SkippedAmong([s] + rest, e) == SkippedAmong([s], e) + SkippedAmong(rest, e);
  }

  lemma StepLog(log: seq<Command>, p: seq<Command>, q: seq<Command>, status: Command -> int)
    requires Shell.AllSucceed(p, status)
    ensures (log + p) + Shell.Executed(q, status) == log + Shell.Executed(p + q, status)
    ensures Shell.AllSucceed(q, status) <==> Shell.AllSucceed(p + q, status)
  {
    Shell.ExecutedConcat(p, q, status);
    Shell.AllSucceedConcat(p, q, status);
  }

  /** Calling stage `i` of `__main__` on a run that has not been aborted leaves the later stages to do. */
  lemma AdvanceAt(pre: Run, post: Run, i: nat, e: Env)
    requires i < |Order| && !pre.aborted
    requires post == StageStep(pre, Order[i], SubjectFor(Order[i], e.raw), e)
    ensures RunStages(pre, Order[i..], e) == RunStages(post, Order[i + 1..], e)
  {
    assert Order[i..][0] == Order[i] && Order[i..][1..] == Order[i + 1..];
  }

  /** One stage, described stage by stage. */
  lemma StageStepSpec(r: Run, s: Stage, e: Env)
    requires !r.aborted
    ensures StageStep(r, s, SubjectFor(s, e.raw), e) ==
            Run(r.dirs + DirsOf([s], e), r.log + Shell.Executed(StagePlan(s, e), e.status),
                r.skipped + SkippedAmong([s], e), !Shell.AllSucceed(StagePlan(s, e), e.status))
  {
    assert [s][0] == s && [s][1..] == [];
    assert DirsOf([s], e) == StageDirs(s, e.derivs, SubjectFor(s, e.raw));
    if LicenseGated(s) && !e.license(s) {
      assert SkippedAmong([s], e) == [s];
      assert Shell.Executed(StagePlan(s, e), e.status) == [];
    } else {
      assert SkippedAmong([s], e) == [];
    }
  }

  /** The stages entered are always the first ones of the list, in list order. */
  lemma {:induction false} ReachedIsPrefix(stages: seq<Stage>, e: Env)
    ensures |Reached(stages, e)| <= |stages|
    ensures Reached(stages, e) == stages[..|Reached(stages, e)|]
    ensures stages != [] ==> |Reached(stages, e)| >= 1
  {
    if stages != [] {
      ReachedIsPrefix(stages[1..], e);
      var rest := if Shell.AllSucceed(StagePlan(stages[0], e), e.status) then Reached(stages[1..], e) else [];
      assert stages[..1 + |rest|] == [stages[0]] + stages[1..][..|rest|];
    }
  }

  /** `__main__`'s plan is the stages' own commands in call order. */
  lemma MainPlan(e: Env)
    ensures Plan(Order, e) ==
            StagePlan(Dcm2Bids, e) + (StagePlan(Mriqc, e) + (StagePlan(FastSurfer, e)
            + (StagePlan(DeepBrainNet, e) + (StagePlan(WmhSegmentation, e)
            + (StagePlan(QsiPrep, e) + StagePlan(FmriPrep, e))))))
  {
    var o := Order;
    forall i | 0 <= i < 7 ensures Plan(o[i..], e) == StagePlan(o[i], e) + Plan(o[i + 1..], e) {
      assert o[i..][0] == o[i] && o[i..][1..] == o[i + 1..];
    }
    assert o[7..] == [];
    assert Plan(o[6..], e) == StagePlan(FmriPrep, e) + [];
    assert Plan(o[5..], e) == StagePlan(QsiPrep, e) + StagePlan(FmriPrep, e);
    assert Plan(o[4..], e) == StagePlan(WmhSegmentation, e) + Plan(o[5..], e);
    assert Plan(o[3..], e) == StagePlan(DeepBrainNet, e) + Plan(o[4..], e);
    assert Plan(o[2..], e) == StagePlan(FastSurfer, e) + Plan(o[3..], e);
    assert Plan(o[1..], e) == StagePlan(Mriqc, e) + Plan(o[2..], e);
    assert o[0..] == o;
  }

  /** Every planned command belongs to one of the stages, and not to a stage that skipped. */
  lemma {:induction false} PlanCommandsNotSkipped(stages: seq<Stage>, e: Env, c: Command)
    requires c in Plan(stages, e)
    ensures StageOf(c.image) in stages
    ensures !(LicenseGated(StageOf(c.image)) && !e.license(StageOf(c.image)))
    ensures c.subject == SubjectFor(StageOf(c.image), e.raw)
  {
    if c !in StagePlan(stages[0], e) {
      PlanCommandsNotSkipped(stages[1..], e, c);
    }
  }

  /** In any plan, the QA command directly follows the FastSurfer command for the same subject. */
  lemma {:induction false} QaFollowsFastSurfer(stages: seq<Stage>, e: Env, j: nat)
    requires j < |Plan(stages, e)| && Plan(stages, e)[j].image == QaToolsImg
    ensures j > 0 && Plan(stages, e)[j - 1] == Command(FastSurferImg, Plan(stages, e)[j].subject)
  {
    var p := StagePlan(stages[0], e);
    var rest := Plan(stages[1..], e);
    if j >= |p| {
      assert Plan(stages, e)[j] == rest[j - |p|];
      QaFollowsFastSurfer(stages[1..], e, j - |p|);
      if j == |p| {
        assert false;
      }
      assert Plan(stages, e)[j - 1] == rest[j - 1 - |p|];
    }
  }

  /** Every directory a reached stage creates exists afterwards, also for a stage that skipped. */
  lemma {:induction false} StageDirsCreated(stages: seq<Stage>, e: Env, s: Stage)
    requires s in stages
    ensures StageDirs(s, e.derivs, SubjectFor(s, e.raw)) <= DirsOf(stages, e)
  {
    if stages[0] != s {
      StageDirsCreated(stages[1..], e, s);
    }
  }

  /** Only license-gated stages whose license was missing ever skip. */
  lemma {:induction false} SkippedAreGatedUnlicensed(stages: seq<Stage>, e: Env, s: Stage)
    ensures s in SkippedAmong(stages, e) <==> s in stages && LicenseGated(s) && !e.license(s)
  {
    if stages != [] {
      SkippedAreGatedUnlicensed(stages[1..], e, s);
      assert s in stages <==> s == stages[0] || s in stages[1..];
    }
  }

  /**
   * A failing command aborts the run: the run is aborted exactly when some
   * planned command fails; then that command is the last one that ran, every
   * earlier one succeeded and no later command or stage ran. A run that is not
   * aborted ran the whole plan and entered every stage.
   */
  lemma AbortStopsTheRun(e: Env, existing: set<Path>)
    ensures var r := MainRun(e, existing);
      && |r.log| <= |Plan(Order, e)| && r.log == Plan(Order, e)[..|r.log|]
      && (r.aborted <==> !Shell.AllSucceed(Plan(Order, e), e.status))
      && (r.aborted ==> r.log != [] && e.status(r.log[|r.log| - 1]) != 0
                        && Shell.AllSucceed(r.log[..|r.log| - 1], e.status))
      && (!r.aborted ==> r.log == Plan(Order, e) && Reached(Order, e) == Order)
  {
    RunStagesSpec(Run(existing, [], [], false), Order, e);
    ReachedIsPrefix(Order, e);
    Shell.ExecutedSpec(Plan(Order, e), e.status);
    var r := MainRun(e, existing);
    assert r.log == Shell.Executed(Plan(Order, e), e.status);
    if !r.aborted {
      ReachedAll(Order, e);
    }
  }

  lemma {:induction false} ReachedAll(stages: seq<Stage>, e: Env)
    requires Shell.AllSucceed(Plan(stages, e), e.status)
    ensures Reached(stages, e) == stages
  {
    if stages != [] {
      Shell.AllSucceedConcat(StagePlan(stages[0], e), Plan(stages[1..], e), e.status);
      ReachedAll(stages[1..], e);
    }
  }

  /**
   * The commands that ran: the conversion got the raw subject and every other
   * command the sanitised label; no command of a stage that skipped ran; the
   * FastSurfer QA ran only with the license present and after FastSurfer itself
   * succeeded.
   */
  lemma CommandsThatRan(e: Env, existing: set<Path>)
    ensures var r := MainRun(e, existing);
      && (forall c :: c in r.log ==> c.subject == (if c.image == HeudiconvImg then e.raw else Subjects.BidsSubject(e.raw)))
      && (forall c :: c in r.log ==> !(LicenseGated(StageOf(c.image)) && !e.license(StageOf(c.image))))
      && (forall j :: 0 <= j < |r.log| && r.log[j].image == QaToolsImg ==>
            e.license(FastSurfer) && j > 0 && r.log[j - 1] == Command(FastSurferImg, r.log[j].subject)
            && e.status(r.log[j - 1]) == 0)
  {
    RanCommandsPlanned(e, existing);
    RanQaAfterFastSurfer(e, existing);
  }

  /** Every command that ran was planned, so it carries its stage's subject and its stage did not skip. */
  lemma RanCommandsPlanned(e: Env, existing: set<Path>)
    ensures var r := MainRun(e, existing);
      && (forall c :: c in r.log ==> c.subject == (if c.image == HeudiconvImg then e.raw else Subjects.BidsSubject(e.raw)))
      && (forall c :: c in r.log ==> !(LicenseGated(StageOf(c.image)) && !e.license(StageOf(c.image))))
  {
    LogInPlan(e, existing);
    var r := MainRun(e, existing);
    var plan := Plan(Order, e);
    forall c | c in r.log
      ensures c.subject == (if c.image == HeudiconvImg then e.raw else Subjects.BidsSubject(e.raw))
      ensures !(LicenseGated(StageOf(c.image)) && !e.license(StageOf(c.image)))
    {
      PlanCommandsNotSkipped(Order, e, c);
    }
  }

  /** Only planned commands run. */
  lemma LogInPlan(e: Env, existing: set<Path>)
    ensures forall c :: c in MainRun(e, existing).log ==> c in Plan(Order, e)
  {
    AbortStopsTheRun(e, existing);
    var r := MainRun(e, existing);
    var plan := Plan(Order, e);
    forall c | c in r.log ensures c in plan {
      var i :| 0 <= i < |r.log| && r.log[i] == c;
      assert plan[..|r.log|][i] == plan[i];
    }
  }

  /** A QA command that ran follows a FastSurfer command for the same subject that succeeded. */
  lemma RanQaAfterFastSurfer(e: Env, existing: set<Path>)
    ensures var r := MainRun(e, existing);
      forall j :: 0 <= j < |r.log| && r.log[j].image == QaToolsImg ==>
        e.license(FastSurfer) && j > 0 && r.log[j - 1] == Command(FastSurferImg, r.log[j].subject)
        && e.status(r.log[j - 1]) == 0
  {
    AbortStopsTheRun(e, existing);
    var r := MainRun(e, existing);
    var plan := Plan(Order, e);
    forall j | 0 <= j < |plan| && plan[j].image == QaToolsImg
      ensures e.license(FastSurfer) && j > 0 && plan[j - 1] == Command(FastSurferImg, plan[j].subject)
    {
      QaFollowsFastSurfer(Order, e, j);
      PlanCommandsNotSkipped(Order, e, plan[j]);
    }
    QaInCutPlan(r.log, plan, e.status, r.aborted, e.license(FastSurfer));
  }

  /**
   * In a log that is a plan cut after its first failure, or all of a plan that
   * succeeded, a QA command follows a FastSurfer command that succeeded, when
   * it does so in the plan.
   */
  lemma QaInCutPlan(log: seq<Command>, plan: seq<Command>, status: Command -> int, aborted: bool, licensed: bool)
    requires |log| <= |plan| && log == plan[..|log|]
    requires aborted ==> log != [] && Shell.AllSucceed(log[..|log| - 1], status)
    requires !aborted ==> log == plan && Shell.AllSucceed(plan, status)
    requires forall j :: 0 <= j < |plan| && plan[j].image == QaToolsImg ==>
               licensed && j > 0 && plan[j - 1] == Command(FastSurferImg, plan[j].subject)
    ensures forall j :: 0 <= j < |log| && log[j].image == QaToolsImg ==>
              licensed && j > 0 && log[j - 1] == Command(FastSurferImg, log[j].subject) && status(log[j - 1]) == 0
  {
    forall j | 0 <= j < |log| && log[j].image == QaToolsImg
      ensures licensed && j > 0 && log[j - 1] == Command(FastSurferImg, log[j].subject) && status(log[j - 1]) == 0
    {
      assert log[j] == plan[j];
      assert log[j - 1] == plan[j - 1];
      if aborted {
        assert log[..|log| - 1][j - 1] == log[j - 1];
      }
    }
  }

  /**
   * License checks: a stage prints the license error exactly when it is
   * reached, is gated and the license is absent at that moment; DeepBrainNet
   * and the WMH segmentation never skip; a stage that skipped still created
   * its output directory, and the run went on to the next stage.
   */
  lemma LicenseSkips(e: Env, existing: set<Path>, s: Stage)
    ensures var r := MainRun(e, existing);
      && (s in r.skipped <==> s in Reached(Order, e) && LicenseGated(s) && !e.license(s))
      && (s == DeepBrainNet || s == WmhSegmentation ==> s !in r.skipped)
      && (s in r.skipped ==> StageDirs(s, e.derivs, SubjectFor(s, e.raw)) <= r.dirs)
  {
    RunStagesSpec(Run(existing, [], [], false), Order, e);
    SkippedAreGatedUnlicensed(Reached(Order, e), e, s);
    var r := MainRun(e, existing);
    assert r.skipped == [] + SkippedAmong(Reached(Order, e), e);
    if s in r.skipped {
      StageDirsCreated(Reached(Order, e), e, s);
    }
  }

  /**
   * `mkdir(exist_ok=True)` makes the run independent of the directories that
   * already exist: the commands, the license errors and the abort are the same,
   * and a second run over the first one's directories leaves them as they are.
   */
  lemma RerunWithExistingDirs(e: Env, existing: set<Path>)
    ensures var first := MainRun(e, {});
      var again := MainRun(e, existing);
      && again.log == first.log && again.skipped == first.skipped && again.aborted == first.aborted
      && again.dirs == existing + first.dirs
      && MainRun(e, first.dirs) == first
  {
    RunStagesSpec(Run({}, [], [], false), Order, e);
    RunStagesSpec(Run(existing, [], [], false), Order, e);
    var first := MainRun(e, {});
    RunStagesSpec(Run(first.dirs, [], [], false), Order, e);
    assert first.dirs + DirsOf(Reached(Order, e), e) == first.dirs;
  }

  /** The state of one `run_pipeline.py` process. */
  class Pipeline {
    const env: Env
    var dirs: set<Path>
    var log: seq<Command>
    var skipped: seq<Stage>
    var aborted: bool

    function State(): Run
      reads this
    {
      Run(dirs, log, skipped, aborted)
    }

    constructor (env: Env, existing: set<Path>)
      ensures this.env == env && State() == Run(existing, [], [], false)
    {
      this.env := env;
      dirs, log, skipped, aborted := existing, [], [], false;
    }

    /** `runBash(cmd)`: the command runs, then a non-zero exit status raises. */
    method RunBash(c: Command) returns (ok: bool)
      requires !aborted
      modifies this
      ensures ok == (env.status(c) == 0)
      ensures State() == Run(old(dirs), old(log) + [c], old(skipped), !ok)
    {
      log := log + [c];
      ok := env.status(c) == 0;
      aborted := !ok;
    }

    /** `Path(p).mkdir(parents=True, exist_ok=True)`: never fails when the directory exists. */
    method MakeDirs(p: Path)
      modifies this
      ensures State() == old(State()).(dirs := old(dirs) + Ancestors(p))
    {
      dirs := dirs + Ancestors(p);
    }

    /** Print the license error and skip the stage. */
    method SkipStage(s: Stage)
      modifies this
      ensures State() == old(State()).(skipped := old(skipped) + [s])
    {
      skipped := skipped + [s];
    }

    method RunDcm2Bids(subject: string)
      requires !aborted
      modifies this
      ensures State() == StageStep(old(State()), Dcm2Bids, subject, env)
    {
      Shell.ExecutedOne(Command(HeudiconvImg, subject), env.status);
      var ok := RunBash(Command(HeudiconvImg, subject));
    }

    method RunMriqc(subject: string)
      requires !aborted
      modifies this
      ensures State() == StageStep(old(State()), Mriqc, subject, env)
    {
      MakeDirs(env.derivs + ["mriqc"]);
      Shell.ExecutedOne(Command(MriqcImg, subject), env.status);
      var ok := RunBash(Command(MriqcImg, subject));
    }

    method RunFastSurfer(subject: string)
      requires !aborted
      modifies this
      ensures State() == StageStep(old(State()), FastSurfer, subject, env)
    {
      MakeDirs(env.derivs + ["fastsurfer"]);
      if env.license(FastSurfer) {
        var fs, qa := Command(FastSurferImg, subject), Command(QaToolsImg, subject);
        assert [fs, qa][1..] == [qa];
        Shell.ExecutedOne(qa, env.status);
        Shell.AllSucceedConcat([fs], [qa], env.status);
        assert [fs] + [qa] == [fs, qa];
        var ok := RunBash(fs);
        if ok {
          ok := RunBash(qa);
        }
      } else {
        SkipStage(FastSurfer);
      }
    }

    method RunDeepBrainNet(subject: string)
      requires !aborted
      modifies this
      ensures State() == StageStep(old(State()), DeepBrainNet, subject, env)
    {
      MakeDirs(env.derivs + ["deep-brain-net"]);
      Shell.ExecutedOne(Command(DeepBrainNetImg, subject), env.status);
      var ok := RunBash(Command(DeepBrainNetImg, subject));
    }

    method RunWmhSegmentation(subject: string)
      requires !aborted
      modifies this
      ensures State() == StageStep(old(State()), WmhSegmentation, subject, env)
    {
      MakeDirs(env.derivs + ["lesion-segmentation"]);
      Shell.ExecutedOne(Command(LesionSegImg, subject), env.status);
      var ok := RunBash(Command(LesionSegImg, subject));
    }

    method RunQsiPrep(subject: string)
      requires !aborted
      modifies this
      ensures State() == StageStep(old(State()), QsiPrep, subject, env)
    {
      MakeDirs(env.derivs);
      if env.license(QsiPrep) {
        Shell.ExecutedOne(Command(QsiPrepImg, subject), env.status);
        var ok := RunBash(Command(QsiPrepImg, subject));
      } else {
        SkipStage(QsiPrep);
      }
    }

    method RunFmriPrep(subject: string)
      requires !aborted
      modifies this
      ensures State() == StageStep(old(State()), FmriPrep, subject, env)
    {
      MakeDirs(env.derivs + ["fmriprep", subject]);
      if env.license(FmriPrep) {
        Shell.ExecutedOne(Command(FmriPrepImg, subject), env.status);
        var ok := RunBash(Command(FmriPrepImg, subject));
      } else {
        SkipStage(FmriPrep);
      }
    }

    /** `__main__`: the seven stages in order; an exception from any of them ends the run. */
    method RunMain()
      requires !aborted
      modifies this
      ensures State() == RunStages(old(State()), Order, env)
    {
      var bidsSubject := Subjects.BidsSubject(env.raw);
      ghost var pre := State();
      RunDcm2Bids(env.raw);
      AdvanceAt(pre, State(), 0, env);
      if aborted { return; }
      pre := State();
      RunMriqc(bidsSubject);
      AdvanceAt(pre, State(), 1, env);
      if aborted { return; }
      pre := State();
      RunFastSurfer(bidsSubject);
      AdvanceAt(pre, State(), 2, env);
      if aborted { return; }
      pre := State();
      RunDeepBrainNet(bidsSubject);
      AdvanceAt(pre, State(), 3, env);
      if aborted { return; }
      pre := State();
      RunWmhSegmentation(bidsSubject);
      AdvanceAt(pre, State(), 4, env);
      if aborted { return; }
      pre := State();
      RunQsiPrep(bidsSubject);
      AdvanceAt(pre, State(), 5, env);
      if aborted { return; }
      pre := State();
      RunFmriPrep(bidsSubject);
      AdvanceAt(pre, State(), 6, env);
    }
  }
}
