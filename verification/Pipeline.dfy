/** A Build Run's pipeline racing with cancellation. The worker owns the Run in memory and
    saves it; a request may take the cancellation gate between any two of its actions. */
module Pipeline {
  import opened Wrappers

  datatype Status = Pending | Queued | Running | Cancelling | Success | Prepared | Failed | Cancelled
  datatype StepStatus = Waiting | Active | Succeeded | Skipped | Broken | Stopped
  datatype Owner = Open | CancellationOwned | TerminalOwned
  const STEPS := 10
  const SOURCE := 0
  const DETECTION := 1
  const DEPENDENCIES := 2
  const SOURCE_CHANGES := 3
  const BUILD := 4
  const STAGING := 5
  const METADATA := 6
  const SYSTEMD := 7
  const PACKAGE := 8
  const ARTIFACT := 9

  /** What the store keeps of a Run, as far as its outcome goes. */
  datatype Record = Record(status: Status, steps: seq<StepStatus>, artifact: Option<int>)

  predicate Terminal(s: Status) { s in {Success, Prepared, Failed, Cancelled} }
  predicate Passed(s: StepStatus) { s in {Succeeded, Skipped} }
  predicate Closed(s: StepStatus) { s !in {Waiting, Active} }

  predicate NoneActive(steps: seq<StepStatus>) { forall i :: 0 <= i < |steps| ==> steps[i] != Active }
  predicate AllPassed(steps: seq<StepStatus>) { forall i :: 0 <= i < |steps| ==> Passed(steps[i]) }

  /** A final record: nothing is left running, and only success carries an artifact. */
  predicate Settled(r: Record) {
    && Terminal(r.status) && NoneActive(r.steps)
    && (r.status in {Success, Prepared} ==> AllPassed(r.steps))
    && (r.status == Success <==> r.artifact.Some?)
  }

  predicate StepForward(a: StepStatus, b: StepStatus) {
    a == b || a == Waiting || (a == Active && Closed(b))
  }

  predicate StepsForward(a: seq<StepStatus>, b: seq<StepStatus>) {
    |a| == |b| && forall i :: 0 <= i < |a| ==> StepForward(a[i], b[i])
  }

  /** Closing a running step is progress. */
  lemma ClosesForward(a: seq<StepStatus>, b: seq<StepStatus>, k: nat, v: StepStatus)
    requires StepsForward(a, b) && k < |b| && b[k] == Active && Closed(v)
    ensures StepsForward(a, b[k := v])
  {}

  lemma OpensForward(a: seq<StepStatus>, k: nat)
    requires k < |a| && a[k] == Waiting
    ensures StepsForward(a, a[k := Active])
  {}

  lemma ForwardSelf(a: seq<StepStatus>)
    ensures StepsForward(a, a)
  {}

  predicate StatusForward(a: Status, b: Status) {
    a == b || a in {Pending, Queued} || (a == Running && b !in {Pending, Queued}) || (a == Cancelling && Terminal(b))
  }

  /** Two saves in a row: progress only, and a final record is not changed again. */
  predicate Forward(a: Record, b: Record) {
    && StatusForward(a.status, b.status) && StepsForward(a.steps, b.steps)
    && (Terminal(a.status) ==> a == b)
  }

  predicate SavesOk(saves: seq<Record>) {
    && (forall i :: 0 <= i < |saves| ==> |saves[i].steps| == STEPS && (Terminal(saves[i].status) ==> Settled(saves[i])))
    && (forall i :: 0 <= i < |saves| - 1 ==> Forward(saves[i], saves[i + 1]))
  }

  /** Once a final record is saved, every later save repeats it. */
  lemma {:induction false} OneTerminalRecord(saves: seq<Record>, i: nat, j: nat)
    requires SavesOk(saves) && i <= j < |saves| && Terminal(saves[i].status)
    ensures saves[j] == saves[i]
    decreases j - i
  {
    if i < j {
      OneTerminalRecord(saves, i, j - 1);
      assert Forward(saves[j - 1], saves[j - 1 + 1]);
    }
  }

  /** A step that ended keeps its outcome in every later save. */
  lemma {:induction false} StepsEndOnce(saves: seq<Record>, i: nat, j: nat, k: nat)
    requires SavesOk(saves) && i <= j < |saves| && k < STEPS
    ensures StepForward(saves[i].steps[k], saves[j].steps[k])
    decreases j - i
  {
    if i < j {
      StepsEndOnce(saves, i, j - 1, k);
      assert Forward(saves[j - 1], saves[j - 1 + 1]);
    }
  }

  /** How a stage leaves: normally, by its declared error, or cancelled. */
  datatype Ending = Returned | DeclaredError | Interrupted

  datatype Mode = FromSource | FromArchive | UpstreamDeb

  /** How many pieces of work a step has: dependencies are checked and then installed, source
      changes applied and then compared, staging and its metadata prepared one after the other.
      Metadata and systemd are staged with staging, and a built artifact is inspected with its
      package. */
  function Pieces(mode: Mode, dryRun: bool, k: int): nat {
    match mode
    case FromSource =>
      if k in {DEPENDENCIES, SOURCE_CHANGES, STAGING} then 2
      else if k in {SOURCE, DETECTION, BUILD} || (k == PACKAGE && !dryRun) then 1 else 0
    case FromArchive => if k == STAGING then 2 else if k == SOURCE || (k == PACKAGE && !dryRun) then 1 else 0
    case UpstreamDeb => if k in {SOURCE, DETECTION} || (k == ARTIFACT && !dryRun) then 1 else 0
  }

  /** Whether a Run of this kind skips a step. */
  predicate Skips(mode: Mode, dryRun: bool, k: int) {
    match mode
    case FromSource => dryRun && k in {BUILD, PACKAGE, ARTIFACT}
    case FromArchive => k in {DEPENDENCIES, SOURCE_CHANGES, BUILD} || (dryRun && k in {PACKAGE, ARTIFACT})
    case UpstreamDeb => DEPENDENCIES <= k <= PACKAGE || (dryRun && k == ARTIFACT)
  }

  /** The outcome with which a step passes; units are optional. */
  predicate Fits(mode: Mode, dryRun: bool, k: int, s: StepStatus) {
    if k == SYSTEMD && mode != UpstreamDeb then Passed(s) else s == (if Skips(mode, dryRun, k) then Skipped else Succeeded)
  }

  /** The steps under which an error of step `n` may be filed. */
  function Family(n: int): set<int> {
    if n == STAGING then {STAGING, METADATA, SYSTEMD} else if n == PACKAGE then {PACKAGE, ARTIFACT} else {n}
  }

  /** One piece of work of one step, and how it ended. */
  datatype Ended = Ended(step: int, piece: nat, ending: Ending)

  /** The first `p` pieces of a step, done. */
  ghost function Done(n: nat, p: nat): seq<Ended> {
    if p == 0 then [] else Done(n, p - 1) + [Ended(n, p - 1, Returned)]
  }

  /** All the work of the first `n` steps, in order, done. */
  ghost function Plan(mode: Mode, dryRun: bool, n: nat): seq<Ended> {
    if n == 0 then [] else Plan(mode, dryRun, n - 1) + Done(n - 1, Pieces(mode, dryRun, n - 1))
  }

  /** The work went as planned until piece `p` of step `n` raised its declared error. */
  ghost predicate BrokeAt(worked: seq<Ended>, mode: Mode, dryRun: bool, n: nat, p: nat) {
    p < Pieces(mode, dryRun, n) && worked == Plan(mode, dryRun, n) + Done(n, p) + [Ended(n, p, DeclaredError)]
  }

  /** Some stage raised its declared error. */
  ghost predicate Faulty(worked: seq<Ended>) {
    exists i :: 0 <= i < |worked| && worked[i].ending == DeclaredError
  }

  /** The declared error is filed under a broken step, behind steps that passed as planned. */
  ghost predicate Filed(worked: seq<Ended>, steps: seq<StepStatus>, mode: Mode, dryRun: bool) {
    exists n: nat, p: nat, k: nat ::
      && BrokeAt(worked, mode, dryRun, n, p) && n < |steps| && k < |steps| && k in Family(n) && steps[k] == Broken
      && forall i :: 0 <= i < n ==> Fits(mode, dryRun, i, steps[i])
  }

  lemma {:induction false} DoneReturns(n: nat, p: nat)
    ensures !Faulty(Done(n, p))
  {
    if p > 0 { DoneReturns(n, p - 1); }
  }

  /** Work as planned has no error in it. */
  lemma {:induction false} PlanReturns(mode: Mode, dryRun: bool, n: nat)
    ensures !Faulty(Plan(mode, dryRun, n))
  {
    if n > 0 {
      PlanReturns(mode, dryRun, n - 1);
      DoneReturns(n - 1, Pieces(mode, dryRun, n - 1));
    }
  }

  lemma FiledIsFaulty(worked: seq<Ended>, steps: seq<StepStatus>, mode: Mode, dryRun: bool)
    requires Filed(worked, steps, mode, dryRun)
    ensures Faulty(worked)
  {
    assert worked[|worked| - 1].ending == DeclaredError;
  }

  class Worker {
    const mode: Mode
    const dryRun: bool
    var status: Status
    var steps: seq<StepStatus>
    var artifact: Option<int>
    var owner: Owner
    /** The interrupted command could not be terminated. */
    var terminationFailed: bool
    ghost var saves: seq<Record>
    /** How every piece of work ended; only Work appends to it. */
    ghost var worked: seq<Ended>

    constructor (initial: Status, kind: Mode, dry: bool)
      ensures status == initial && mode == kind && dryRun == dry && owner == Open && artifact == None
      ensures steps == seq(STEPS, _ => Waiting) && saves == [Now()] && worked == []
    {
      status, mode, dryRun, owner, artifact, terminationFailed := initial, kind, dry, Open, None, false;
      steps, worked := seq(STEPS, _ => Waiting), [];
      new;
      saves := [Now()];
    }

    ghost function Now(): Record
      reads this
    {
      Record(status, steps, artifact)
    }

    /** The Run is undecided: nothing final was saved and the gate is not the worker's. */
    ghost predicate Undecided()
      reads this
    {
      && |steps| == STEPS && artifact == None && owner != TerminalOwned
      && SavesOk(saves) && saves != []
      && StepsForward(saves[|saves| - 1].steps, steps)
      && saves[|saves| - 1].status in {Running, Cancelling} && saves[|saves| - 1].artifact == None
      && (saves[|saves| - 1].status == Cancelling ==> owner == CancellationOwned)
    }

    ghost predicate Going()
      reads this
    {
      Undecided() && status in {Running, Cancelling} && status == saves[|saves| - 1].status
    }

    /** The store knows how far the steps are. */
    ghost predicate Kept()
      reads this
    {
      saves != [] && saves[|saves| - 1].steps == steps
    }

    /** The first `n` steps passed on their work, the others are waiting. */
    ghost predicate Between(n: nat)
      reads this
    {
      && n <= STEPS && Going() && Kept() && worked == Plan(mode, dryRun, n)
      && (forall i :: 0 <= i < n ==> Fits(mode, dryRun, i, steps[i])) && (forall i :: n <= i < STEPS ==> steps[i] == Waiting)
    }

    /** Step `n` is running after `n` passed steps. */
    ghost predicate At(n: nat)
      reads this
    {
      && n < STEPS && Going() && Kept() && steps[n] == Active
      && (forall i :: 0 <= i < n ==> Fits(mode, dryRun, i, steps[i])) && (forall i :: n < i < STEPS ==> steps[i] == Waiting)
    }

    /** ... and `p` pieces of its work are done. */
    ghost predicate Inside(n: nat, p: nat)
      reads this
    {
      At(n) && worked == Plan(mode, dryRun, n) + Done(n, p)
    }

    /** ... and the next piece just raised its declared error. */
    ghost predicate Faulted(n: nat, p: nat)
      reads this
    {
      At(n) && BrokeAt(worked, mode, dryRun, n, p)
    }

    /** A stage failed: "failed" is only in memory until the gate is taken. */
    ghost predicate Lost()
      reads this
    {
      Undecided() && status == Failed && NoneActive(steps) && Kept() && Filed(worked, steps, mode, dryRun)
    }

    /** Cancellation is under way; at most one step is running. Only an interrupted command can
        have failed to end. */
    ghost predicate Abandoned()
      reads this
    {
      && Undecided() && owner == CancellationOwned
      && (terminationFailed ==> worked != [] && worked[|worked| - 1].ending == Interrupted)
      && (forall i, j :: 0 <= i < j < STEPS ==> steps[i] != Active || steps[j] != Active)
    }

    ghost predicate Decided()
      reads this
    {
      && SavesOk(saves) && saves != [] && saves[|saves| - 1] == Now() && Settled(Now())
      && owner != Open
      && (status in {Success, Prepared} ==> owner == TerminalOwned)
      && (status == Success ==> !dryRun) && (status == Prepared ==> dryRun)
      && (owner == CancellationOwned ==> status == if terminationFailed then Failed else Cancelled)
      && (owner == TerminalOwned ==> status != Cancelled && (status == Failed <==> Faulty(worked)))
      && (owner == TerminalOwned && status == Failed ==> Filed(worked, steps, mode, dryRun))
      && (owner == CancellationOwned && status == Failed ==> worked != [] && worked[|worked| - 1].ending == Interrupted)
      && (status in {Success, Prepared} ==>
            worked == Plan(mode, dryRun, STEPS) && forall k :: 0 <= k < STEPS ==> Fits(mode, dryRun, k, steps[k]))
    }

    // ------------------------------------------------------------------- primitives

    /** Another thread may call request_cancel here. */
    method Meanwhile()
      modifies this`owner
      ensures owner == old(owner) || (old(owner) == Open && owner == CancellationOwned)
    {
      var requested := *;
      if requested && owner == Open { owner := CancellationOwned; }
    }

    /** claim_terminal */
    method TakeGate() returns (ok: bool)
      modifies this`owner
      ensures ok <==> owner == TerminalOwned && old(owner) != TerminalOwned
      ensures owner == old(owner) || (old(owner) == Open && owner in {CancellationOwned, TerminalOwned})
      ensures owner != Open
    {
      Meanwhile();
      ok := owner == Open;
      if ok { owner := TerminalOwned; }
    }

    /** BuildStore.save */
    method Save()
      requires |steps| == STEPS && SavesOk(saves) && saves != [] && Forward(saves[|saves| - 1], Now())
      requires Terminal(status) ==> Settled(Now())
      modifies this`saves
      ensures saves == old(saves) + [Now()] && SavesOk(saves)
    {
      saves := saves + [Now()];
    }

    /** _start_step */
    method Start(n: nat)
      requires Between(n) && n < STEPS
      modifies this`steps, this`saves
      ensures old(saves) <= saves
      ensures Inside(n, 0)
    {
      steps := steps[n := Active];
      Save();
    }

    /** _finish_step with a passing status while the Run goes on; only behind the auxiliary
        installation may a request be pending. */
    method Pass(n: nat, outcome: StepStatus)
      requires Inside(n, Pieces(mode, dryRun, n)) && Fits(mode, dryRun, n, outcome) && (owner == CancellationOwned ==> n == DEPENDENCIES)
      modifies this`steps, this`saves
      ensures old(saves) <= saves
      ensures Between(n + 1)
    {
      steps := steps[n := outcome];
      Save();
    }

    /** _observe_cancellation: is there a request? */
    method Observe() returns (requested: bool)
      requires Undecided() && (status in {Running, Cancelling} ==> Going())
      modifies this`owner, this`status, this`saves
      ensures old(saves) <= saves
      ensures Undecided() && requested == (owner == CancellationOwned)
      ensures old(Going()) ==> Going()
      ensures !old(Going()) ==> status == old(status) && saves == old(saves)
      ensures !requested ==> status == old(status)
      ensures requested && old(Going()) ==> status == Cancelling
      ensures old(Kept()) ==> Kept()
      ensures old(owner) != Open ==> owner == old(owner)
    {
      Meanwhile();
      requested := owner == CancellationOwned;
      if requested && status == Running {
        status := Cancelling;
        Save();
      }
    }

    /** _cancellation_checkpoint */
    method Checkpoint() returns (raised: bool)
      requires Undecided() && (status in {Running, Cancelling} ==> Going())
      modifies this`owner, this`status, this`saves, this`terminationFailed
      ensures old(saves) <= saves
      ensures Undecided() && raised == (owner == CancellationOwned)
      ensures old(Going()) ==> Going()
      ensures !old(Going()) ==> status == old(status) && saves == old(saves)
      ensures !raised ==> status == old(status)
      ensures raised ==> !terminationFailed
      ensures old(Kept()) ==> Kept()
      ensures old(owner) != Open ==> owner == old(owner)
    {
      raised := Observe();
      if raised { terminationFailed := false; }
    }

    /** _start_step and the checkpoint behind it */
    method Enter(n: nat) returns (raised: bool)
      requires Between(n) && n < STEPS
      modifies this`owner, this`status, this`steps, this`saves, this`terminationFailed
      ensures old(saves) <= saves && raised == (owner == CancellationOwned)
      ensures if raised then Abandoned() else Inside(n, 0)
    {
      Start(n);
      raised := Checkpoint();
    }

    /** A checkpoint inside a running step */
    method Look(n: nat, ghost p: nat) returns (raised: bool)
      requires Inside(n, p)
      modifies this`owner, this`status, this`saves, this`terminationFailed
      ensures old(saves) <= saves && raised == (owner == CancellationOwned)
      ensures if raised then Abandoned() else Inside(n, p)
    {
      raised := Checkpoint();
    }

    /** A stage at work: it may log events, look for a request, and end in three ways. It is
        interrupted only when cancellation was requested. No work begins on a Run that is known
        to be cancelled. */
    method Work(n: nat, ghost p: nat) returns (end: Ending)
      requires Inside(n, p) && p < Pieces(mode, dryRun, n) && owner != CancellationOwned
      modifies this`owner, this`status, this`saves, this`terminationFailed, this`worked
      ensures old(saves) <= saves && worked == old(worked) + [Ended(n, p, end)]
      ensures match end case Returned => Inside(n, p + 1) case DeclaredError => Faulted(n, p) case Interrupted => Abandoned()
      ensures end != Interrupted ==> terminationFailed == old(terminationFailed)
    {
      hide SavesOk, StepsForward;
      WorkRounds(n, p);
      Meanwhile();
      end := *;
      if end == Interrupted {
        if owner == CancellationOwned { terminationFailed := *; } else { end := Returned; }
      }
      worked := worked + [Ended(n, p, end)];
    }

    method WorkRounds(n: nat, ghost p: nat)
      requires Inside(n, p)
      modifies this`owner, this`status, this`saves
      ensures old(saves) <= saves && Inside(n, p)
    {
      var rounds: int := *;
      for r := 0 to if rounds < 0 then 0 else rounds
        invariant Inside(n, p) && old(saves) <= saves
      {
        var looks := *;
        if looks {
          var requested := Observe();
        } else {
          Save();
        }
      }
    }

    /** A check at the end of a stage that cannot be interrupted, only raise. */
    method Compare(n: nat, ghost p: nat) returns (failed: bool)
      requires Inside(n, p) && p < Pieces(mode, dryRun, n)
      modifies this`worked
      ensures worked == old(worked) + [Ended(n, p, if failed then DeclaredError else Returned)]
      ensures if failed then Faulted(n, p) else Inside(n, p + 1)
    {
      hide SavesOk, StepsForward;
      failed := *;
      worked := worked + [Ended(n, p, if failed then DeclaredError else Returned)];
    }

    /** _finish_step with "failed", then the status in memory. */
    method Fail(n: nat, ghost p: nat)
      requires Faulted(n, p)
      modifies this`steps, this`saves, this`status
      ensures old(saves) <= saves
      ensures Lost()
    {
      steps := steps[n := Broken];
      Save();
      status := Failed;
      assert BrokeAt(worked, mode, dryRun, n, p) && n in Family(n) && steps[n] == Broken;
    }

    /** _claim_terminal: the gate is either taken or cancellation is raised, never neither. */
    method Claim() returns (raised: bool)
      requires owner == TerminalOwned || (Undecided() && (status in {Running, Cancelling} ==> Going()))
      modifies this`owner, this`status, this`saves, this`terminationFailed
      ensures old(saves) <= saves
      ensures raised <==> owner == CancellationOwned
      ensures !raised ==> owner == TerminalOwned && status == old(status) && saves == old(saves)
      ensures raised ==> Undecided() && !terminationFailed
    {
      if owner == TerminalOwned { return false; }
      var ok := TakeGate();
      if ok { return false; }
      raised := Checkpoint();
      assert raised;
    }

    // ----------------------------------------------------------------------- stages

    /** The work of a stage, with its declared error filed under its step. */
    method Attempt(n: nat, ghost p: nat) returns (raised: bool, failed: bool)
      requires Inside(n, p) && p < Pieces(mode, dryRun, n) && owner != CancellationOwned
      modifies this
      ensures old(saves) <= saves
      ensures !(raised && failed) && old(worked) <= worked
      ensures if raised then Abandoned() else if failed then Lost() else Inside(n, p + 1)
    {
      hide Inside, Abandoned, Lost, Faulted;
      var end := Work(n, p);
      if end == DeclaredError { Fail(n, p); }
      raised, failed := end == Interrupted, end == DeclaredError;
    }

    /** Resolve and acquire the source. */
    method StageSource() returns (raised: bool)
      requires Between(SOURCE) && mode != UpstreamDeb
      modifies this
      ensures old(saves) <= saves
      ensures raised ==> Abandoned()
      ensures !raised ==> Between(SOURCE + 1) || Lost()
    {
      hide Inside, Between, Abandoned, Won, Lost, Faulted;
      var failed := false;
      raised := Enter(SOURCE);
      if raised { return; }
      raised, failed := Attempt(SOURCE, 0);
      if raised || failed { return; }
      raised := Look(SOURCE, 1);
      if raised { return; }
      Pass(SOURCE, Succeeded);
    }

    /** Detect the project; an archive needs no detector. */
    method StageDetection() returns (raised: bool)
      requires Between(DETECTION) && mode != UpstreamDeb
      modifies this
      ensures old(saves) <= saves
      ensures raised ==> Abandoned()
      ensures !raised ==> Between(DETECTION + 1) || Lost()
    {
      hide Inside, Between, Abandoned, Won, Lost, Faulted;
      var failed := false;
      raised := Enter(DETECTION);
      if raised { return; }
      if mode != FromArchive {
        raised, failed := Attempt(DETECTION, 0);
        if raised || failed { return; }
      }
      raised := Look(DETECTION, Pieces(mode, dryRun, DETECTION));
      if raised { return; }
      Pass(DETECTION, Succeeded);
    }

    /** Check dependencies, then run the auxiliary installation; no checkpoint follows that. */
    method StageDependencies() returns (raised: bool)
      requires Between(DEPENDENCIES) && mode != UpstreamDeb
      modifies this
      ensures old(saves) <= saves
      ensures raised ==> Abandoned()
      ensures !raised ==> Between(DEPENDENCIES + 1) || Lost()
    {
      hide Inside, Between, Abandoned, Won, Lost, Faulted;
      var failed := false;
      raised := Enter(DEPENDENCIES);
      if raised { return; }
      if mode == FromArchive {
        Pass(DEPENDENCIES, Skipped);
        return;
      }
      raised, failed := Attempt(DEPENDENCIES, 0);
      if raised || failed { return; }
      raised := Look(DEPENDENCIES, 1);
      if raised { return; }
      raised, failed := Attempt(DEPENDENCIES, 1);
      if raised || failed { return; }
      Pass(DEPENDENCIES, Succeeded);
    }

    /** Apply source changes; the sealed inputs are compared last. */
    method StageSourceChanges() returns (raised: bool)
      requires Between(SOURCE_CHANGES) && mode != UpstreamDeb
      modifies this
      ensures old(saves) <= saves
      ensures raised ==> Abandoned()
      ensures !raised ==> Between(SOURCE_CHANGES + 1) || Lost()
    {
      hide Inside, Between, Abandoned, Won, Lost, Faulted;
      var failed := false;
      raised := Enter(SOURCE_CHANGES);
      if raised { return; }
      if mode == FromArchive {
        Pass(SOURCE_CHANGES, Skipped);
        return;
      }
      raised, failed := Attempt(SOURCE_CHANGES, 0);
      if raised || failed { return; }
      raised := Look(SOURCE_CHANGES, 1);
      if raised { return; }
      failed := Compare(SOURCE_CHANGES, 1);
      if failed {
        Fail(SOURCE_CHANGES, 1);
      } else {
        Pass(SOURCE_CHANGES, Succeeded);
      }
    }

    /** Run the build commands; a dry run only plans them. */
    method StageBuild() returns (raised: bool)
      requires Between(BUILD) && mode != UpstreamDeb
      modifies this
      ensures old(saves) <= saves
      ensures raised ==> Abandoned()
      ensures !raised ==> Between(BUILD + 1) || Lost()
    {
      hide Inside, Between, Abandoned, Won, Lost, Faulted;
      var failed := false;
      raised := Enter(BUILD);
      if raised { return; }
      if mode == FromArchive {
        Pass(BUILD, Skipped);
        return;
      }
      raised, failed := Attempt(BUILD, 0);
      if raised || failed { return; }
      raised := Look(BUILD, 1);
      if raised { return; }
      Pass(BUILD, if dryRun then Skipped else Succeeded);
    }

    /** The packaging error of staging, filed under the step its code names. */
    method StagingFailed(stage: nat, ghost p: nat)
      requires Faulted(STAGING, p) && stage in {STAGING, METADATA, SYSTEMD}
      modifies this`steps, this`saves, this`status
      ensures old(saves) <= saves
      ensures Lost()
    {
      hide BrokeAt, SavesOk;
      if steps[stage] == Waiting { steps := steps[stage := Active]; }
      steps := steps[stage := Broken];
      Save();
      if stage != STAGING && steps[STAGING] == Active {
        steps := steps[STAGING := Broken];
        Save();
      }
      status := Failed;
      assert BrokeAt(worked, mode, dryRun, STAGING, p) && stage in Family(STAGING) && steps[stage] == Broken;
    }

    method StageStaging() returns (raised: bool)
      requires Between(STAGING) && mode != UpstreamDeb
      modifies this
      ensures old(saves) <= saves
      ensures raised ==> Abandoned()
      ensures !raised ==> Between(PACKAGE) || Lost()
    {
      hide Inside, Between, Abandoned, Won, Lost, Faulted;
      raised := Enter(STAGING);
      if raised { return; }
      for part := 0 to 2
        invariant Inside(STAGING, part) && owner != CancellationOwned && !raised && old(saves) <= saves
      {
        var end := Work(STAGING, part);
        if end == Interrupted { return true; }
        if end == DeclaredError {
          var metadata, systemd := *, *;
          StagingFailed(if metadata then METADATA else if systemd then SYSTEMD else STAGING, part);
          return;
        }
        raised := Look(STAGING, part + 1);
        if raised { return; }
      }
      Pass(STAGING, Succeeded);
      raised := Enter(METADATA);
      if raised { return; }
      Pass(METADATA, Succeeded);
      raised := Enter(SYSTEMD);
      if raised { return; }
      var configured := *;
      Pass(SYSTEMD, if configured then Succeeded else Skipped);
    }

    /** The worker holds the gate and a successful outcome is in memory. */
    ghost predicate Won()
      reads this
    {
      && owner == TerminalOwned && |steps| == STEPS && SavesOk(saves) && saves != []
      && Forward(saves[|saves| - 1], Now()) && Settled(Now()) && status in {Success, Prepared}
      && (status == Success ==> !dryRun) && (status == Prepared ==> dryRun)
      && worked == Plan(mode, dryRun, STEPS) && forall k :: 0 <= k < STEPS ==> Fits(mode, dryRun, k, steps[k])
    }

    /** Skip `artifact` and settle on "prepared". */
    method Prepare() returns (raised: bool)
      requires Inside(ARTIFACT, 0) && dryRun && owner != CancellationOwned
      modifies this
      ensures old(saves) <= saves
      ensures raised ==> Abandoned()
      ensures !raised ==> Won()
    {
      hide SavesOk, StepsForward;
      Pass(ARTIFACT, Skipped);
      raised := Checkpoint();
      if raised { return; }
      raised := Claim();
      if raised { return; }
      status := Prepared;
    }

    /** Take the gate, then register the artifact and finish the last step. */
    method Register(stored: int) returns (raised: bool)
      requires Inside(ARTIFACT, Pieces(mode, dryRun, ARTIFACT)) && !dryRun
      modifies this
      ensures old(saves) <= saves
      ensures raised ==> Abandoned()
      ensures !raised ==> Won()
    {
      hide SavesOk, StepsForward;
      raised := Look(ARTIFACT, Pieces(mode, dryRun, ARTIFACT));
      if raised { return; }
      raised := Claim();
      if raised { return; }
      ClosesForward(saves[|saves| - 1].steps, steps, ARTIFACT, Succeeded);
      artifact, status := Some(stored), Success;
      steps := steps[ARTIFACT := Succeeded];
      Save();
      ForwardSelf(steps);
    }

    /** The package was built, but its inspection failed: that is filed under `artifact`. */
    method InspectionFailed()
      requires Faulted(PACKAGE, 0)
      modifies this`steps, this`saves, this`status
      ensures old(saves) <= saves
      ensures Lost()
    {
      hide SavesOk, StepsForward;
      ClosesForward(saves[|saves| - 1].steps, steps, PACKAGE, Succeeded);
      steps := steps[PACKAGE := Succeeded];
      Save();
      OpensForward(steps, ARTIFACT);
      steps := steps[ARTIFACT := Active];
      Save();
      ForwardSelf(steps);
      ClosesForward(steps, steps, ARTIFACT, Broken);
      steps := steps[ARTIFACT := Broken];
      Save();
      ForwardSelf(steps);
      status := Failed;
      assert BrokeAt(worked, mode, dryRun, PACKAGE, 0) && ARTIFACT in Family(PACKAGE) && steps[ARTIFACT] == Broken;
    }

    method StagePackage() returns (raised: bool)
      requires Between(PACKAGE) && mode != UpstreamDeb
      modifies this
      ensures old(saves) <= saves
      ensures raised ==> Abandoned()
      ensures !raised ==> Won() || Lost()
    {
      hide Inside, Between, Abandoned, Won, Lost, Faulted;
      raised := Enter(PACKAGE);
      if raised { return; }
      if dryRun {
        Pass(PACKAGE, Skipped);
        raised := Enter(ARTIFACT);
        if raised { return; }
        raised := Prepare();
        return;
      }
      var end := Work(PACKAGE, 0);
      if end == Interrupted { return true; }
      if end == DeclaredError {
        var inspection := *;
        if inspection {
          InspectionFailed();
        } else {
          Fail(PACKAGE, 0);
        }
        return;
      }
      raised := Look(PACKAGE, 1);
      if raised { return; }
      Pass(PACKAGE, Succeeded);
      Start(ARTIFACT);
      var stored := *;
      raised := Register(stored);
    }

    /** The five stages before staging, each only when none before it failed. */
    method EarlyStages() returns (raised: bool)
      requires Between(SOURCE) && mode != UpstreamDeb
      modifies this
      ensures old(saves) <= saves
      ensures raised ==> Abandoned()
      ensures !raised ==> Between(STAGING) || Lost()
    {
      raised := StageSource();
      if raised || status == Failed { return; }
      raised := StageDetection();
      if raised || status == Failed { return; }
      raised := StageDependencies();
      if raised || status == Failed { return; }
      raised := StageSourceChanges();
      if raised || status == Failed { return; }
      raised := StageBuild();
    }

    method BuildArtifact() returns (raised: bool)
      requires Between(SOURCE) && mode != UpstreamDeb
      modifies this
      ensures old(saves) <= saves
      ensures raised ==> Abandoned()
      ensures !raised ==> Won() || Lost()
    {
      raised := EarlyStages();
      if raised || status == Failed { return; }
      raised := StageStaging();
      if raised || status == Failed { return; }
      raised := StagePackage();
    }

    /** next(step for step in steps if running) */
    method FindActive() returns (found: Option<nat>)
      ensures found.Some? ==> found.value < |steps| && steps[found.value] == Active
      ensures found.None? ==> NoneActive(steps)
    {
      for i := 0 to |steps|
        invariant forall j :: 0 <= j < i ==> steps[j] != Active
      {
        if steps[i] == Active { return Some(i); }
      }
      return None;
    }

    /** The declared error of an upstream package, filed under the running step. */
    method UpstreamFailed(ghost n: nat)
      requires Faulted(n, 0)
      modifies this`steps, this`saves, this`status
      ensures old(saves) <= saves
      ensures Lost()
    {
      var active := FindActive();
      assert steps[n] == Active;
      Fail(active.value, 0);
    }

    /** One working step of _run_upstream_artifact. */
    method UpstreamStage(n: nat) returns (raised: bool)
      requires Between(n) && mode == UpstreamDeb && n < DEPENDENCIES
      modifies this
      ensures old(saves) <= saves
      ensures raised ==> Abandoned()
      ensures !raised ==> Between(n + 1) || Lost()
    {
      hide Inside, Between, Abandoned, Won, Lost, Faulted;
      raised := Enter(n);
      if raised { return; }
      var end := Work(n, 0);
      if end == Interrupted { return true; }
      if end == DeclaredError { UpstreamFailed(n); return; }
      raised := Look(n, 1);
      if raised { return; }
      Pass(n, Succeeded);
    }

    method UpstreamArtifact() returns (raised: bool)
      requires Between(SOURCE) && mode == UpstreamDeb
      modifies this
      ensures old(saves) <= saves
      ensures raised ==> Abandoned()
      ensures !raised ==> Won() || Lost()
    {
      hide Inside, Abandoned, Won;
      raised := UpstreamStage(SOURCE);
      if raised || status == Failed { return; }
      raised := UpstreamStage(DETECTION);
      if raised || status == Failed { return; }
      for n := DEPENDENCIES to ARTIFACT
        invariant Between(n) && !raised && old(saves) <= saves
      {
        raised := Enter(n);
        if raised { return; }
        Pass(n, Skipped);
      }
      raised := UpstreamFinal();
    }

    method UpstreamFinal() returns (raised: bool)
      requires Between(ARTIFACT) && mode == UpstreamDeb
      modifies this
      ensures old(saves) <= saves
      ensures raised ==> Abandoned()
      ensures !raised ==> Won() || Lost()
    {
      hide Inside, Between, Abandoned, Won, Lost, Faulted;
      raised := Enter(ARTIFACT);
      if raised { return; }
      if dryRun {
        raised := Prepare();
        return;
      }
      var end := Work(ARTIFACT, 0);
      if end == Interrupted { return true; }
      if end == DeclaredError { UpstreamFailed(ARTIFACT); return; }
      raised := Look(ARTIFACT, 1);
      if raised { return; }
      var stored := *;
      raised := Register(stored);
    }

    // ---------------------------------------------------------------------- endings

    /** _finish_terminal_run */
    method FinishTerminal() returns (raised: bool)
      requires Won() || Lost()
      modifies this
      ensures old(saves) <= saves
      ensures raised ==> Abandoned()
      ensures !raised ==> Decided()
    {
      PlanReturns(mode, dryRun, STEPS);
      if status == Failed { FiledIsFaulty(worked, steps, mode, dryRun); }
      hide Plan, Fits, Filed, Faulty;
      raised := Claim();
      if raised { return; }
      Save();
    }

    /** _finalize_execution_cancellation */
    method Conclude()
      requires Abandoned()
      modifies this`steps, this`status, this`saves
      ensures old(saves) <= saves
      ensures Decided() && forall i :: 0 <= i < STEPS ==>
        steps[i] == if old(steps[i]) != Active then old(steps[i]) else if terminationFailed then Broken else Stopped
    {
      var active := FindActive();
      if active.Some? {
        steps := steps[active.value := if terminationFailed then Broken else Stopped];
      }
      status := if terminationFailed then Failed else Cancelled;
      Save();
    }

    /** execute_pipeline_run. Whatever the stages do and whenever a request arrives, the Run
        that started ends with exactly one final record. */
    method Execute(expected: Status, snapshotOk: bool) returns (ran: bool)
      requires expected in {Pending, Queued}
      requires owner != TerminalOwned && artifact == None
      requires steps == seq(STEPS, _ => Waiting) && saves == [Now()] && worked == []
      modifies this
      ensures ran <==> old(status) == expected && snapshotOk
      ensures !ran ==> Now() == old(Now()) && saves == old(saves) && owner == old(owner)
      ensures ran ==> Decided() && old(saves) <= saves
    {
      if status != expected || !snapshotOk { return false; }
      ran := true;
      var raised := Launch();
      if !raised {
        hide Between, Abandoned, Won, Lost, Decided;
        if mode == UpstreamDeb {
          raised := UpstreamArtifact();
        } else {
          raised := BuildArtifact();
        }
        if !raised { raised := FinishTerminal(); }
      }
      if raised { Conclude(); }
    }

    /** The Run is marked running before anything else. */
    method Launch() returns (raised: bool)
      requires status in {Pending, Queued} && owner != TerminalOwned && artifact == None
      requires steps == seq(STEPS, _ => Waiting) && saves == [Now()] && worked == []
      modifies this`status, this`saves, this`owner, this`terminationFailed
      ensures old(saves) <= saves
      ensures if raised then Abandoned() else Between(SOURCE)
    {
      status := Running;
      Save();
      raised := Checkpoint();
      if !raised { Save(); }
    }
  }
}
