/** What every orchestrator step keeps for the generation it works on. */
module OrchestratorInvariant {
  import opened Wrappers
  import opened AutomationRow
  import opened Orchestrator

  /** The committed Run that belongs to this row, if there is one. */
  function RunOf(c: Claim, r: Row, store: Store): Option<Run> {
    if r.preallocated.Some? && HasRun(store, r.preallocated.value) && Bound(c, r, store[r.preallocated.value].run.header)
    then Some(store[r.preallocated.value].run) else None
  }

  function Failures(records: seq<Record>): nat {
    if records == [] then 0
    else Failures(records[..|records| - 1]) + (if records[|records| - 1].PublishFailed? then 1 else 0)
  }

  predicate LastFailed(records: seq<Record>) { records != [] && records[|records| - 1].PublishFailed? }

  /** Validation attempts and retries, stage by stage. `f` counts failed Validations that were
      retried; wherever a new attempt may be admitted there are no more attempts than that. */
  predicate AttemptsOk(r: Row, run: Run, f: nat) {
    var n := |run.attempts|;
    && n <= f + 1
    && (r.validationId.Some? ==> r.validationId.value < n)
    && (r.stage == Publication ==> n > 0 && run.attempts[n - 1] == AttemptSucceeded)
    && (r.stage in {Detection, RunAdmission, RunStage} ==> n == 0)
    && (r.stage == ValidationAdmission ==> (r.validationId == Newest(run) ==> n <= f))
    && (r.stage in {Validation, Publication} ==> n > 0 && r.validationId == Newest(run))
    && (r.stage == Validation && r.state == RetryDelayed ==> n <= f)
  }

  /** Every recorded publication failure but the last is counted, and the last one is
      counted before another call. Only a call in progress leaves a record in flight. */
  predicate RecordsOk(r: Row, run: Run, pc: PC) {
    var records := run.records;
    && (r.stage !in {Publication, TerminalStage} ==> records == [])
    && Failures(records) <= r.publicationRetries + 1
    && (r.stage == Publication && (r.state == RetryDelayed || !LastFailed(records)) ==>
          Failures(records) <= r.publicationRetries)
    && (forall i :: 0 <= i < |records| && records[i] == InFlight ==> pc.PublishRunning? && i == |records| - 1)
  }

  /** What a success stands on: the Run did what the policy asks for, and so did its newest
      Validation and its publication where the policy goes that far. */
  predicate Earned(policy: Policy, run: Run) {
    && run.status == (if policy == Test then Prepared else Succeeded)
    && (policy in {BuildValidate, Full} ==> run.attempts != [] && run.attempts[|run.attempts| - 1] == AttemptSucceeded)
    && (policy == Full ==> Published(true) in run.records)
  }

  /** Only a succeeded Run is validated, only under a policy that asks for it, and only a full
      policy publishes. */
  predicate StagePolicy(r: Row, run: Run) {
    && (r.stage in {ValidationAdmission, Validation, Publication} ==>
          run.status == Succeeded && r.policy in {BuildValidate, Full})
    && (r.stage == Publication ==> r.policy == Full)
  }

  /** A success is earned and a cancellation has a cause. */
  predicate VerdictOk(r: Row, run: Run) {
    && (r.runId.Some? && r.classification == Some(Success) ==> Earned(r.policy, run))
    && (r.runId.Some? && r.classification == Some(Cancelled) ==> WasCancelled(run))
  }

  predicate WasCancelled(run: Run) {
    run.status == RunCancelled || (run.attempts != [] && run.attempts[|run.attempts| - 1] == AttemptCancelled)
  }

  predicate SameCounters(a: Row, b: Row) {
    && a.retryCount == b.retryCount && a.runRetries == b.runRetries
    && a.validationRetries == b.validationRetries && a.publicationRetries == b.publicationRetries
  }

  /** Local row and durable row, at each program counter. */
  predicate PcOk(c: Claim, g: Gen, run: Option<Run>) {
    var r := g.row;
    match g.pc
    case Idle => true
    case AdmitRun(row, existing) =>
      row == r && !r.Stopped() && (if existing then r.stage == RunStage else r.runId.None?)
    case Enqueue(row, existing) =>
      row == r && !r.Stopped() && r.stage in {RunAdmission, RunStage} && (existing ==> r.stage == RunStage)
    case Creating(row, header) => row == r && !r.Stopped() && r.stage == RunAdmission && Bound(c, r, header)
    case Linking(row) => row == r && !r.Stopped() && r.stage in {RunAdmission, RunStage} && run.Some?
    case Submitting(row) =>
      SameCounters(row, r) && r.stage == RunStage && row.stage in {RunAdmission, RunStage} && row.preallocated == r.preallocated
    case RunAdmitted(_) => r.stage == RunStage
    case HandleRun(row) => row == r && r.stage == RunStage
    case AdmitValidation(row) =>
      && row == r && (r.stage in {RunStage, ValidationAdmission} || (r.stage == Validation && r.state == RetryDelayed))
      && run.Some? && run.value.status == Succeeded && r.policy in {BuildValidate, Full}
    case CallAdmit(row) =>
      row == r && r.stage == ValidationAdmission && run.Some? && |run.value.attempts| <= g.log.failureRetries
    case LinkValidation(row, attempt) =>
      row == r && r.stage == ValidationAdmission && run.Some? && Some(attempt) == Newest(run.value)
    case HandleValidation(row) =>
      row == r && ((r.stage == Validation && r.state == Admitted) || r.stage == Publication)
    case Publish(row) =>
      && row == r && ((r.stage == Validation && r.state == Admitted) || r.stage == Publication)
      && run.Some? && |run.value.attempts| > 0 && run.value.attempts[|run.value.attempts| - 1] == AttemptSucceeded
      && r.policy == Full
    case PublishCall(row) =>
      && row == r && r.stage == Publication && r.state == Admitted && run.Some?
      && Failures(run.value.records) <= r.publicationRetries
    case PublishRunning(row, i) =>
      && row == r && r.stage == Publication && r.state == Admitted && run.Some? && |run.value.records| == i + 1
      && run.value.records[i] == InFlight
    case PublishDone(row, i) => row == r && r.stage == Publication && r.state == Admitted
    case Retry(row) =>
      && SameCounters(row, r) && !r.Stopped()
      && (row.stage == r.stage || (row.stage == RunAdmission && r.stage == RunStage))
      && (r.stage == Validation ==> r.state == Admitted && r.validationRetries < MAX_VALIDATION_RETRIES)
      && (r.stage == Publication ==> r.publicationRetries < MAX_PUBLICATION_RETRIES)
    case Stop(row, classification) =>
      && SameCounters(row, r) && !r.Stopped() && classification != TransientRetryable
      && (r.runId.Some? && classification == Success ==> run.Some? && Earned(r.policy, run.value))
      && (r.runId.Some? && classification == Cancelled ==> run.Some? && WasCancelled(run.value))
    case Announce(classification) =>
      r.Stopped() && !r.notified && g.log.announced == 0 && r.classification == Some(classification)
    case Mark => r.Stopped() && (Announced(r) ==> g.log.announced == 1)
  }

  /** Completions that are announced: all but cancelled and disabled ones. */
  predicate Announced(r: Row) { r.classification !in {Some(Cancelled), Some(Disabled)} }

  predicate LogOk(g: Gen, run: Option<Run>) {
    && g.log.committed == (if run.Some? && g.row.preallocated.Some? then [g.row.preallocated.value] else [])
    && g.log.announced <= 1
    && (g.log.announced == 1 ==> g.row.Stopped() && Announced(g.row))
    && (g.row.notified && Announced(g.row) ==> g.log.announced == 1)
    && g.log.failureRetries <= g.row.validationRetries && g.log.failureRetries <= MAX_VALIDATION_RETRIES
    && (forall n :: n in g.log.refused ==> n == MAX_RETRY_COUNT + 1)
    && g.row.publicationRetries <= MAX_PUBLICATION_RETRIES
  }

  /** The invariant of one generation, given its own committed Run. */
  predicate Inv(c: Claim, g: Gen, run: Option<Run>) {
    && ValidRow(g.row, g.row.generation)
    && (g.row.runId.Some? ==> g.row.state !in {Claimed, RunPreallocated} && run.Some?)
    && (run.Some? ==> Bound(c, g.row, run.value.header))
    && (run.Some? ==> AttemptsOk(g.row, run.value, g.log.failureRetries) && RecordsOk(g.row, run.value, g.pc))
    && (run.Some? ==> StagePolicy(g.row, run.value) && VerdictOk(g.row, run.value))
    && PcOk(c, g, run)
    && LogOk(g, run)
  }

  /** No other Run in the store carries this generation's provenance. */
  ghost predicate OnlyRun(c: Claim, r: Row, store: Store) {
    forall id :: HasRun(store, id) && Carries(store[id].run.header, c.key, r.generation) ==>
      r.preallocated == Some(id) && Bound(c, r, store[id].run.header)
  }

  predicate Carries(h: RunHeader, key: Key, generation: nat) {
    h.automation.Some? && h.automation.value.key == key && h.automation.value.generation == generation
  }

  /** A step for this generation leaves every other workspace alone, and its own slot never
      holds, before or after, a Run of somebody else that changed. */
  ghost predicate Frame(c: Claim, r: Row, before: Store, after: Store) {
    forall id :: (id in before || id in after) && !(id in before && id in after && before[id] == after[id]) ==>
      && r.preallocated == Some(id)
      && (HasRun(before, id) ==> Bound(c, r, before[id].run.header))
      && (HasRun(after, id) ==> Bound(c, r, after[id].run.header))
  }

  ghost predicate StepOk(c: Claim, g: Gen, store: Store, out: Out) {
    && out.gen.row.generation == g.row.generation
    && Extends(g.row, out.gen.row) && (g.row.Stopped() ==> out.gen.row.Stopped())
    && Inv(c, out.gen, RunOf(c, out.gen.row, out.store))
    && OnlyRun(c, out.gen.row, out.store)
    && Frame(c, out.gen.row, store, out.store)
  }

  ghost predicate Ready(c: Claim, g: Gen, store: Store) {
    Inv(c, g, RunOf(c, g.row, store)) && OnlyRun(c, g.row, store)
  }

  /** A step that leaves the store alone is judged on the row and program counter. */
  lemma SameStore(c: Claim, g: Gen, store: Store, g': Gen)
    requires Ready(c, g, store) && Extends(g.row, g'.row) && ValidRow(g'.row, g.row.generation)
    requires g.row.Stopped() ==> g'.row.Stopped()
    requires g'.row.preallocated != g.row.preallocated ==> g.row.preallocated.None?
    requires Inv(c, g', if g'.row.preallocated == g.row.preallocated then RunOf(c, g.row, store) else None)
    ensures StepOk(c, g, store, Out(g', store))
  {
    if g'.row.preallocated != g.row.preallocated {
      var id := g'.row.preallocated.value;
      if HasRun(store, id) && Bound(c, g'.row, store[id].run.header) {
        assert Carries(store[id].run.header, c.key, g.row.generation);
        assert false;
      }
    }
    assert RunOf(c, g'.row, store) == if g'.row.preallocated == g.row.preallocated then RunOf(c, g.row, store) else None;
  }

  /** A step that changes only the generation's own committed Run. */
  lemma OwnRun(c: Claim, g: Gen, store: Store, g': Gen, run: Run)
    requires Ready(c, g, store) && g'.row == g.row && g.row.preallocated.Some?
    requires RunOf(c, g.row, store).Some? && run.header == RunOf(c, g.row, store).value.header
    requires Inv(c, g', Some(run))
    ensures StepOk(c, g, store, Out(g', store[g.row.preallocated.value := Committed(run)]))
  {
    assert RunOf(c, g.row, store[g.row.preallocated.value := Committed(run)]) == Some(run);
  }

  /** A notified row is a stopped one. */
  lemma ExtendsItself(r: Row)
    requires ValidRow(r, r.generation)
    ensures r.notified ==> r.Stopped()
  {}

  /** finish() of an active row is refused only for a count out of range. */
  lemma FinishFacts(r: Row, cls: Classification, retry: RetryClass, count: int, notBefore: Option<Time>,
                    code: Option<Code>, diagnostic: Option<Code>, now: Time)
    requires ValidRow(r, r.generation) && !r.Stopped() && 0 <= count
    requires if cls == TransientRetryable then retry == Transient && notBefore.Some?
             else notBefore.None? && retry == (if cls == BlockedManual then Operator else NoRetry)
    ensures var w := AutomationRow.Finish(r, cls, retry, count, notBefore, code, diagnostic, now);
            && (ValidRow(w, r.generation) <==> count <= MAX_RETRY_COUNT)
            && Extends(r, w) && w.preallocated == r.preallocated && w.runId == r.runId && w.retryCount == count
            && w.validationId == r.validationId && w.notified == r.notified
            && w.classification == Some(cls) && w.policy == r.policy
            && w.stage == (if cls == TransientRetryable then r.stage else TerminalStage)
            && w.state == FinishState(cls)
            && w.validationRetries == (if cls == TransientRetryable && r.stage in {ValidationAdmission, Validation}
                                       then count else r.validationRetries)
            && w.publicationRetries == (if cls == TransientRetryable && r.stage == Publication
                                        then count else r.publicationRetries)
  {
    hide StateRules, StageRules;
    FinishAccepted(r, cls, retry, count, notBefore, code, diagnostic, now);
    ExtendsItself(r);
  }

  lemma RetryInv(c: Claim, g: Gen, run: Option<Run>, row: Row, o: Obs)
    requires Inv(c, g, run) && g.pc == Retry(row)
    ensures var g' := RetryStep(g, row, o);
            && Extends(g.row, g'.row) && g'.row.preallocated == g.row.preallocated
            && ValidRow(g'.row, g.row.generation) && Inv(c, g', run)
  {
    hide AutomationRow.Finish, StageRules;
    FinishFacts(g.row, TransientRetryable, Transient, RetryCountOf(row), Some(o.notBefore), Some("code"), Some("delayed"), o.now);
  }

  lemma StopInv(c: Claim, g: Gen, run: Option<Run>, row: Row, cls: Classification, o: Obs)
    requires Inv(c, g, run) && g.pc == Stop(row, cls)
    ensures var g' := StopStep(g, row, cls, o);
            && Extends(g.row, g'.row) && g'.row.preallocated == g.row.preallocated
            && ValidRow(g'.row, g.row.generation) && Inv(c, g', run)
  {
    hide AutomationRow.Finish;
    FinishFacts(g.row, cls, if cls == BlockedManual then Operator else NoRetry, row.retryCount, None,
                Some("code"), Some("finished"), o.now);
  }

  lemma MoveInv(c: Claim, g: Gen, run: Option<Run>, pc: PC)
    requires Inv(c, g, run) && !g.pc.PublishRunning? && PcOk(c, g.(pc := pc), run)
    ensures Inv(c, g.(pc := pc), run)
  {
  }

  lemma MoveKeeps(c: Claim, g: Gen, store: Store, pc: PC)
    requires Ready(c, g, store) && !g.pc.PublishRunning? && PcOk(c, g.(pc := pc), RunOf(c, g.row, store))
    ensures StepOk(c, g, store, Out(g.(pc := pc), store))
  {
    MoveInv(c, g, RunOf(c, g.row, store), pc);
    SameStore(c, g, store, g.(pc := pc));
  }

  lemma PreallocateInv(c: Claim, g: Gen, run: Option<Run>, existing: bool, o: Obs)
    requires Inv(c, g, run) && g.pc == AdmitRun(g.row, existing) && g.row.preallocated.None?
    ensures match Preallocate(g.row, o.candidate, o.now)
            case Write(w) =>
              var g' := Save(g, w, Enqueue(w, existing), Stop(g.row, TerminalFailure));
              g' == g.(row := w, pc := Enqueue(w, existing)) && Extends(g.row, w) && ValidRow(w, g.row.generation)
              && Inv(c, g', None)
            case Keep(_) => false
            case Raise(_) => true
  {
  }

  lemma LinkInv(c: Claim, g: Gen, run: Run, next: PC, o: Obs)
    requires Inv(c, g, Some(run)) && !g.pc.PublishRunning? && !g.row.Stopped() && g.row.runId.None?
    ensures match LinkRun(c, g.row, run.header.id, Some(run.header), o.now)
            case Write(w) =>
              && Extends(g.row, w) && ValidRow(w, g.row.generation) && w.preallocated == g.row.preallocated
              && w.stage == RunStage && SameCounters(w, g.row) && !w.Stopped()
              && (PcOk(c, g.(row := w, pc := next), Some(run)) ==> Inv(c, g.(row := w, pc := next), Some(run)))
            case _ => false
  {
  }

  lemma ReconcileKeeps(c: Claim, g: Gen, store: Store, existing: bool, o: Obs)
    requires Ready(c, g, store) && g.pc == AdmitRun(g.row, existing) && g.row.preallocated.Some?
    ensures StepOk(c, g, store, Reconcile(c, g, store, g.row, existing, o))
  {
    var id := g.row.preallocated.value;
    var out := Reconcile(c, g, store, g.row, existing, o);
    if g.row.runId.Some? || id !in store {
      MoveKeeps(c, g, store, Enqueue(g.row, existing));
    } else if store[id].Committed? {
      var run := store[id].run;
      if Bound(c, g.row, run.header) {
        LinkInv(c, g, run, out.gen.pc, o);
        SameStore(c, g, store, out.gen);
      } else {
        MoveKeeps(c, g, store, Stop(g.row, TerminalFailure));
      }
    } else {
      MoveInv(c, g, None, Enqueue(g.row, existing));
    }
  }

  lemma AdmitRunKeeps(c: Claim, g: Gen, store: Store, existing: bool, o: Obs)
    requires Ready(c, g, store) && g.pc == AdmitRun(g.row, existing)
    ensures StepOk(c, g, store, AdmitRunStep(c, g, store, g.row, existing, o))
  {
    hide StepOk, AdmitRunStep, Ready;
    if g.row.preallocated.Some? { AdmitAgainKeeps(c, g, store, existing, o); } else { AdmitFirstKeeps(c, g, store, existing, o); }
  }

  lemma AdmitAgainKeeps(c: Claim, g: Gen, store: Store, existing: bool, o: Obs)
    requires Ready(c, g, store) && g.pc == AdmitRun(g.row, existing) && g.row.preallocated.Some?
    ensures StepOk(c, g, store, AdmitRunStep(c, g, store, g.row, existing, o))
  {
    hide OwnedIdentity, InitiallyAuthorized, DownstreamAuthorized, Reconcile, StepOk, Save, Preallocate, Bound;
    var out := AdmitRunStep(c, g, store, g.row, existing, o);
    if out == Reconcile(c, g, store, g.row, existing, o) {
      ReconcileKeeps(c, g, store, existing, o);
    } else {
      MoveKeeps(c, g, store, out.gen.pc);
    }
  }

  /** A generation whose Run is not admitted may be left, delayed or stopped. */
  lemma LeaveAdmission(c: Claim, g: Gen, run: Option<Run>, existing: bool, pc: PC)
    requires Inv(c, g, run) && g.pc == AdmitRun(g.row, existing)
    requires pc == Idle || pc == Retry(g.row) || (pc.Stop? && pc.row == g.row && pc.classification != TransientRetryable)
    requires pc.Stop? && pc.classification in {Success, Cancelled} ==> g.row.runId.None?
    ensures PcOk(c, g.(pc := pc), run)
  {
  }

  lemma AdmitFirstKeeps(c: Claim, g: Gen, store: Store, existing: bool, o: Obs)
    requires Ready(c, g, store) && g.pc == AdmitRun(g.row, existing) && g.row.preallocated.None?
    ensures StepOk(c, g, store, AdmitRunStep(c, g, store, g.row, existing, o))
  {
    hide OwnedIdentity, InitiallyAuthorized, DownstreamAuthorized, Reconcile, StepOk, Save, Preallocate, Bound, Inv, PcOk, OnlyRun;
    var out := AdmitRunStep(c, g, store, g.row, existing, o);
    PreallocateInv(c, g, RunOf(c, g.row, store), existing, o);
    NotStoppedYet(c, g, RunOf(c, g.row, store), existing);
    if out.gen.pc.Enqueue? {
      SameStore(c, g, store, out.gen);
    } else {
      LeaveAdmission(c, g, RunOf(c, g.row, store), existing, out.gen.pc);
      MoveKeeps(c, g, store, out.gen.pc);
    }
  }

  lemma NotStoppedYet(c: Claim, g: Gen, run: Option<Run>, existing: bool)
    requires Inv(c, g, run) && g.pc == AdmitRun(g.row, existing)
    ensures !g.row.Stopped() && ValidRow(g.row, g.row.generation)
    ensures g.row.preallocated.None? ==> g.row.runId.None?
  {
  }

  /** Reserving the preallocated workspace. */
  lemma ReserveKeeps(c: Claim, g: Gen, store: Store, existing: bool, header: RunHeader)
    requires Ready(c, g, store) && g.pc == Enqueue(g.row, existing) && Bound(c, g.row, header)
    requires g.row.preallocated.Some? && g.row.preallocated.value !in store
    ensures StepOk(c, g, store, Out(g.(pc := Creating(g.row, header)), store[g.row.preallocated.value := Incomplete]))
  {
    assert RunOf(c, g.row, store[g.row.preallocated.value := Incomplete]) == None;
    assert RunOf(c, g.row, store) == None;
    ExtendsItself(g.row);
    MoveInv(c, g, None, Creating(g.row, header));
  }

  lemma EnqueueKeeps(c: Claim, g: Gen, store: Store, existing: bool, o: Obs)
    requires Ready(c, g, store) && g.pc == Enqueue(g.row, existing)
    ensures StepOk(c, g, store, EnqueueStep(c, g, store, g.row, existing, o))
  {
    hide DownstreamAuthorized, StepOk;
    var out := EnqueueStep(c, g, store, g.row, existing, o);
    if out.gen.pc.Creating? {
      ReserveKeeps(c, g, store, existing, out.gen.pc.header);
    } else {
      MoveKeeps(c, g, store, out.gen.pc);
    }
  }

  lemma CreatingKeeps(c: Claim, g: Gen, store: Store, header: RunHeader, o: Obs)
    requires Ready(c, g, store) && g.pc == Creating(g.row, header)
    ensures StepOk(c, g, store, CreatingStep(g, store, g.row, header, o))
  {
    var out := CreatingStep(g, store, g.row, header, o);
    if out.gen.pc.Linking? {
      assert RunOf(c, g.row, store) == None;
      assert RunOf(c, g.row, out.store) == Some(Run(header, g.row.policy == Test, None, Pending, [], []));
    } else {
      MoveKeeps(c, g, store, out.gen.pc);
    }
  }

  lemma LinkingKeeps(c: Claim, g: Gen, store: Store, o: Obs)
    requires Ready(c, g, store) && g.pc == Linking(g.row)
    ensures StepOk(c, g, store, LinkingStep(c, g, store, g.row, o))
  {
    var out := LinkingStep(c, g, store, g.row, o);
    if o.raised == Nothing && g.row.runId.None? {
      LinkInv(c, g, RunOf(c, g.row, store).value, out.gen.pc, o);
      SameStore(c, g, store, out.gen);
    } else {
      MoveKeeps(c, g, store, out.gen.pc);
    }
  }

  /** The writes the orchestrator asks of advance_lifecycle are always accepted. */
  lemma AdvanceFacts(r: Row, stage: Stage, v: Option<AttemptId>, p: Option<AttemptId>, now: Time)
    requires ValidRow(r, r.generation) && !r.Stopped() && r.runId.Some?
    requires match stage
             case RunStage => r.stage == RunStage && v.None? && p.None?
             case ValidationAdmission => r.publicationId.None? && v.None? && p.None?
             case Validation => r.publicationId.None? && v.Some? && p.None?
             case Publication => r.validationId.Some? && v.None?
             case _ => false
    ensures Advance(r, stage, v, p, now).Write?
    ensures var w := Advance(r, stage, v, p, now).row;
            && ValidRow(w, r.generation) && Extends(r, w) && w.preallocated == r.preallocated && w.runId == r.runId
            && SameCounters(w, r) && w.state == Admitted && w.stage == stage && !w.Stopped()
            && w.validationId == (if v.Some? then v else r.validationId) && w.policy == r.policy
  {
    hide StateRules, StageRules;
    StageFacts(r);
    AdvanceAccepted(r, stage, v, p, now);
    ExtendsItself(r);
  }

  /** What the stage of a row says about its links. */
  lemma StageFacts(r: Row)
    requires ValidRow(r, r.generation)
    ensures r.publicationId.Some? ==> r.validationId.Some?
    ensures r.stage == RunStage ==> r.validationId.None? && r.publicationId.None?
  {}

  /** The bookkeeping part of the invariant survives a write that changes no counter. */
  lemma WriteInv(c: Claim, g: Gen, run: Run, w: Row, pc: PC)
    requires Inv(c, g, Some(run)) && !g.row.Stopped()
    requires ValidRow(w, g.row.generation) && Extends(g.row, w) && SameCounters(w, g.row)
    requires w.preallocated == g.row.preallocated && w.policy == g.row.policy && w.state == Admitted
    requires AttemptsOk(w, run, g.log.failureRetries) && RecordsOk(w, run, pc) && StagePolicy(w, run)
    requires PcOk(c, g.(row := w, pc := pc), Some(run))
    ensures Inv(c, g.(row := w, pc := pc), Some(run))
  {
  }

  lemma SubmitKeeps(c: Claim, g: Gen, store: Store, row: Row, o: Obs)
    requires Ready(c, g, store) && g.pc == Submitting(row)
    ensures StepOk(c, g, store, SubmittingStep(g, store, row, o))
  {
    var out := SubmittingStep(g, store, row, o);
    if out.gen.pc.RunAdmitted? && row.preallocated.Some? {
      var run := RunOf(c, g.row, store).value;
      MoveInv(c, g, Some(run), out.gen.pc);
      OwnRun(c, g, store, out.gen, run.(status := Queued));
    } else {
      MoveKeeps(c, g, store, out.gen.pc);
    }
  }

  lemma RunAdmittedKeeps(c: Claim, g: Gen, store: Store, row: Row, o: Obs)
    requires Ready(c, g, store) && g.pc == RunAdmitted(row)
    ensures StepOk(c, g, store, RunAdmittedStep(g, store, o))
  {
    var out := RunAdmittedStep(g, store, o);
    AdvanceFacts(g.row, RunStage, None, None, o.now);
    WriteInv(c, g, RunOf(c, g.row, store).value, out.gen.row, out.gen.pc);
    SameStore(c, g, store, out.gen);
  }

  lemma HandleRunKeeps(c: Claim, g: Gen, store: Store, o: Obs)
    requires Ready(c, g, store) && g.pc == HandleRun(g.row)
    ensures StepOk(c, g, store, HandleRunStep(g, store, g.row))
  {
    MoveKeeps(c, g, store, HandleRunStep(g, store, g.row).gen.pc);
  }

  lemma RelinkInv(c: Claim, g: Gen, run: Run, o: Obs)
    requires Inv(c, g, Some(run)) && (g.pc == AdmitValidation(g.row) || g.pc == HandleValidation(g.row))
    requires LinkIsStale(g.row, run)
    ensures var g' := Relink(g, run, o);
            && Extends(g.row, g'.row) && g'.row.preallocated == g.row.preallocated
            && ValidRow(g'.row, g.row.generation) && Inv(c, g', Some(run))
  {
    AdvanceFacts(g.row, Validation, Newest(run), None, o.now);
    var w := Advance(g.row, Validation, Newest(run), None, o.now).row;
    WriteInv(c, g, run, w, HandleValidation(w));
  }

  /** Any active generation may be left alone or stopped. */
  lemma LeaveOk(c: Claim, g: Gen, run: Option<Run>, pc: PC)
    requires !g.row.Stopped()
    requires pc == Idle || (pc.Stop? && pc.row == g.row && pc.classification !in {TransientRetryable, Success, Cancelled})
    ensures PcOk(c, g.(pc := pc), run)
  {
  }

  /** A linked row's Run is the committed one under its id. */
  lemma LinkedRun(c: Claim, g: Gen, store: Store)
    requires Ready(c, g, store) && g.row.runId.Some?
    ensures HasRun(store, g.row.runId.value) && RunOf(c, g.row, store) == Some(store[g.row.runId.value].run)
    ensures g.row.preallocated == g.row.runId
  {
  }

  lemma AdmissionFacts(c: Claim, g: Gen, run: Option<Run>)
    requires Inv(c, g, run) && g.pc == AdmitValidation(g.row)
    ensures run.Some? && !g.row.Stopped() && g.row.runId.Some? && ValidRow(g.row, g.row.generation) && g.row.publicationId.None?
  {
  }

  /** Asking for a Validation: the row is moved first, then the manager is called or awaited. */
  lemma AdmissionInv(c: Claim, g: Gen, run: Run, o: Obs, pc: PC)
    requires Inv(c, g, Some(run)) && g.pc == AdmitValidation(g.row) && !LinkIsStale(g.row, run)
    requires Advance(g.row, ValidationAdmission, None, None, o.now).Write?
    requires var w := Advance(g.row, ValidationAdmission, None, None, o.now).row; pc == CallAdmit(w) || pc == Retry(w)
    ensures Inv(c, g.(row := Advance(g.row, ValidationAdmission, None, None, o.now).row, pc := pc), Some(run))
  {
    hide Advance, Bound, StateRules;
    AdvanceFacts(g.row, ValidationAdmission, None, None, o.now);
    WriteInv(c, g, run, Advance(g.row, ValidationAdmission, None, None, o.now).row, pc);
  }

  lemma AdmitValidationKeeps(c: Claim, g: Gen, store: Store, o: Obs)
    requires Ready(c, g, store) && g.pc == AdmitValidation(g.row)
    ensures StepOk(c, g, store, AdmitValidationStep(c, g, store, g.row, o))
  {
    hide DownstreamAuthorized, StepOk, Advance, Inv, PcOk, OnlyRun, StateRules, StageRules, LinkIsStale;
    AdmissionFacts(c, g, RunOf(c, g.row, store));
    LinkedRun(c, g, store);
    var out := AdmitValidationStep(c, g, store, g.row, o);
    var run := store[g.row.runId.value].run;
    AdvanceFacts(g.row, ValidationAdmission, None, None, o.now);
    if o.open && LinkIsStale(g.row, run) {
      RelinkInv(c, g, run, o);
      SameStore(c, g, store, out.gen);
    } else if out.gen.pc.CallAdmit? || out.gen.pc.Retry? {
      AdmissionInv(c, g, run, o, out.gen.pc);
      SameStore(c, g, store, out.gen);
    } else {
      LeaveOk(c, g, Some(run), out.gen.pc);
      MoveKeeps(c, g, store, out.gen.pc);
    }
  }

  lemma AttemptAdded(c: Claim, g: Gen, run: Run, attempt: Attempt, pc: PC)
    requires Inv(c, g, Some(run)) && g.pc == CallAdmit(g.row)
    requires pc == Idle || pc == Retry(g.row) || pc == LinkValidation(g.row, |run.attempts|)
    ensures Inv(c, g.(pc := pc), Some(run.(attempts := run.attempts + [attempt])))
  {
  }

  lemma CallAdmitKeeps(c: Claim, g: Gen, store: Store, o: Obs)
    requires Ready(c, g, store) && g.pc == CallAdmit(g.row)
    ensures StepOk(c, g, store, CallAdmitStep(g, store, g.row, o))
  {
    var out := CallAdmitStep(g, store, g.row, o);
    if o.admission == AdmitRefused {
      MoveKeeps(c, g, store, out.gen.pc);
    } else {
      var run := RunOf(c, g.row, store).value;
      var attempt := if o.admission == AdmitNew then Active else AttemptCancelled;
      AttemptAdded(c, g, run, attempt, out.gen.pc);
      OwnRun(c, g, store, out.gen, run.(attempts := run.attempts + [attempt]));
    }
  }

  lemma LinkValidationKeeps(c: Claim, g: Gen, store: Store, attempt: AttemptId, o: Obs)
    requires Ready(c, g, store) && g.pc == LinkValidation(g.row, attempt)
    ensures StepOk(c, g, store, LinkValidationStep(g, store, g.row, attempt, o))
  {
    var out := LinkValidationStep(g, store, g.row, attempt, o);
    AdvanceFacts(g.row, Validation, Some(attempt), None, o.now);
    WriteInv(c, g, RunOf(c, g.row, store).value, out.gen.row, out.gen.pc);
    SameStore(c, g, store, out.gen);
  }

  lemma HandleValidationKeeps(c: Claim, g: Gen, store: Store, o: Obs)
    requires Ready(c, g, store) && g.pc == HandleValidation(g.row)
    ensures StepOk(c, g, store, HandleValidationStep(g, store, g.row, o))
  {
    hide Relink, StepOk, Bound;
    var out := HandleValidationStep(g, store, g.row, o);
    assert !LinkIsStale(g.row, RunOf(c, g.row, store).value);
    MoveKeeps(c, g, store, out.gen.pc);
  }

  lemma PublishFacts(c: Claim, g: Gen, run: Option<Run>)
    requires Inv(c, g, run) && g.pc == Publish(g.row)
    ensures run.Some? && !g.row.Stopped() && g.row.runId.Some? && g.row.validationId.Some? && ValidRow(g.row, g.row.generation)
    ensures g.row.publicationRetries >= 0
  {
  }

  /** A recorded failure is linked and counted before anything else. */
  lemma FailureInv(c: Claim, g: Gen, run: Run, w: Row)
    requires Inv(c, g, Some(run)) && g.pc == Publish(g.row) && LastFailed(run.records) && g.row.state != RetryDelayed
    requires ValidRow(w, g.row.generation) && Extends(g.row, w) && SameCounters(w, g.row) && w.preallocated == g.row.preallocated
    requires w.policy == g.row.policy && w.state == Admitted && w.stage == Publication && w.validationId == g.row.validationId
    ensures Inv(c, g.(row := w, pc := AfterFailure(w, run.records[|run.records| - 1].kind)), Some(run))
  {
    hide Bound, StateRules, StageRules, Extends;
    PublishFacts(c, g, Some(run));
    WriteInv(c, g, run, w, AfterFailure(w, run.records[|run.records| - 1].kind));
  }

  /** Otherwise every recorded failure is counted when publish is called. */
  lemma CallInv(c: Claim, g: Gen, run: Run, w: Row)
    requires Inv(c, g, Some(run)) && g.pc == Publish(g.row) && !(LastFailed(run.records) && g.row.state != RetryDelayed)
    requires ValidRow(w, g.row.generation) && Extends(g.row, w) && SameCounters(w, g.row) && w.preallocated == g.row.preallocated
    requires w.policy == g.row.policy && w.state == Admitted && w.stage == Publication && w.validationId == g.row.validationId
    ensures Inv(c, g.(row := w, pc := PublishCall(w)), Some(run))
  {
    hide Bound, StateRules, StageRules, Extends;
    PublishFacts(c, g, Some(run));
    WriteInv(c, g, run, w, PublishCall(w));
  }

  lemma PublishKeeps(c: Claim, g: Gen, store: Store, o: Obs)
    requires Ready(c, g, store) && g.pc == Publish(g.row)
    ensures StepOk(c, g, store, PublishStep(c, g, store, g.row, o))
  {
    hide DownstreamAuthorized, StepOk, Advance, Inv, PcOk, OnlyRun, StateRules, StageRules, AfterFailure;
    PublishFacts(c, g, RunOf(c, g.row, store));
    LinkedRun(c, g, store);
    var out := PublishStep(c, g, store, g.row, o);
    var run := store[g.row.runId.value].run;
    var counted := LastFailed(run.records) && g.row.state != RetryDelayed;
    AdvanceFacts(g.row, Publication, None, if counted then Some(|run.records| - 1) else None, o.now);
    if out.gen == g.(pc := out.gen.pc) && (out.gen.pc == Idle || out.gen.pc.Stop?) && (out.gen.pc.Stop? ==> out.gen.pc.row == g.row && out.gen.pc.classification in {Disabled, BlockedManual}) {
      LeaveOk(c, g, Some(run), out.gen.pc);
      MoveKeeps(c, g, store, out.gen.pc);
    } else if counted {
      FailureInv(c, g, run, out.gen.row);
      SameStore(c, g, store, out.gen);
    } else {
      CallInv(c, g, run, out.gen.row);
      SameStore(c, g, store, out.gen);
    }
  }

  lemma RecordAdded(c: Claim, g: Gen, run: Run)
    requires Inv(c, g, Some(run)) && g.pc == PublishCall(g.row)
    ensures Inv(c, g.(pc := PublishRunning(g.row, |run.records|)), Some(run.(records := run.records + [InFlight])))
  {
    assert (run.records + [InFlight])[..|run.records|] == run.records;
  }

  lemma PublishCallKeeps(c: Claim, g: Gen, store: Store, o: Obs)
    requires Ready(c, g, store) && g.pc == PublishCall(g.row)
    ensures StepOk(c, g, store, PublishCallStep(g, store, g.row, o))
  {
    var out := PublishCallStep(g, store, g.row, o);
    if out.gen.pc.PublishRunning? {
      var run := RunOf(c, g.row, store).value;
      RecordAdded(c, g, run);
      OwnRun(c, g, store, out.gen, run.(records := run.records + [InFlight]));
    } else {
      MoveKeeps(c, g, store, out.gen.pc);
    }
  }

  lemma RecordDone(c: Claim, g: Gen, run: Run, i: AttemptId, outcome: Record, pc: PC)
    requires Inv(c, g, Some(run)) && g.pc == PublishRunning(g.row, i) && outcome != InFlight
    requires pc == Idle || pc == PublishDone(g.row, i) || exists kind :: pc == AfterFailure(g.row, kind)
    ensures Inv(c, g.(pc := pc), Some(run.(records := run.records[i := outcome])))
  {
    assert run.records[i := outcome][..i] == run.records[..i];
  }

  lemma RunningFacts(c: Claim, g: Gen, run: Option<Run>, i: AttemptId)
    requires Inv(c, g, run) && g.pc == PublishRunning(g.row, i)
    ensures run.Some? && g.row.runId.Some? && g.row.preallocated.Some? && |run.value.records| == i + 1
  {
  }

  lemma PublishRunningKeeps(c: Claim, g: Gen, store: Store, i: AttemptId, o: Obs)
    requires Ready(c, g, store) && g.pc == PublishRunning(g.row, i)
    ensures StepOk(c, g, store, PublishRunningStep(g, store, g.row, i, o))
  {
    hide StepOk, Inv, OnlyRun, StateRules, StageRules, AfterFailure, Bound, Extends;
    RunningFacts(c, g, RunOf(c, g.row, store), i);
    LinkedRun(c, g, store);
    var out := PublishRunningStep(g, store, g.row, i, o);
    var run := store[g.row.runId.value].run;
    RowFacts(c, g, Some(run));
    if o.outcome == InFlight {
      SameStore(c, g, store, g);
    } else {
      RecordDone(c, g, run, i, o.outcome, out.gen.pc);
      OwnRun(c, g, store, out.gen, run.(records := run.records[i := o.outcome]));
    }
  }

  lemma DoneInv(c: Claim, g: Gen, run: Run, i: AttemptId, w: Row, pc: PC)
    requires Inv(c, g, Some(run)) && g.pc == PublishDone(g.row, i) && i < |run.records|
    requires ValidRow(w, g.row.generation) && Extends(g.row, w) && SameCounters(w, g.row)
    requires w.preallocated == g.row.preallocated && w.policy == g.row.policy && w.runId == g.row.runId
    requires w.state == Admitted && w.stage == Publication && w.validationId == g.row.validationId
    requires pc == match run.records[i]
             case Published(true) => Stop(w, Success)
             case Published(false) => Stop(w, BlockedManual)
             case PublishFailed(kind) => AfterFailure(w, kind)
             case InFlight => Idle
    ensures Inv(c, g.(row := w, pc := pc), Some(run))
  {
    hide ValidRow, Bound;
    assert LastFailed(run.records) <==> run.records[|run.records| - 1].PublishFailed?;
    WriteInv(c, g, run, w, pc);
  }

  lemma PublishDoneKeeps(c: Claim, g: Gen, store: Store, i: AttemptId, o: Obs)
    requires Ready(c, g, store) && g.pc == PublishDone(g.row, i)
    ensures StepOk(c, g, store, PublishDoneStep(g, store, g.row, i, o))
  {
    hide StepOk, AfterFailure;
    var out := PublishDoneStep(g, store, g.row, i, o);
    var run := RunOf(c, g.row, store).value;
    if i < |run.records| {
      AdvanceFacts(g.row, Publication, None, Some(i), o.now);
      DoneInv(c, g, run, i, out.gen.row, out.gen.pc);
      SameStore(c, g, store, out.gen);
    } else {
      MoveKeeps(c, g, store, out.gen.pc);
    }
  }

  lemma AnnounceInv(c: Claim, g: Gen, run: Option<Run>)
    requires Inv(c, g, run) && g.pc.Announce?
    ensures Inv(c, AnnounceStep(g, g.pc.classification), run)
  {
    hide StateRules, StageRules, Bound, AttemptsOk;
  }

  lemma MarkInv(c: Claim, g: Gen, run: Option<Run>, o: Obs)
    requires Inv(c, g, run) && g.pc.Mark?
    ensures var g' := MarkStep(g, o);
            && Inv(c, g', run) && Extends(g.row, g'.row) && g'.row.preallocated == g.row.preallocated
            && g'.row.Stopped() && ValidRow(g'.row, g.row.generation)
  {
    ExtendsItself(g.row);
    var w := g.row.(notified := true, updatedAt := o.now);
    assert ValidRow(w, g.row.generation);
  }

  lemma RowFacts(c: Claim, g: Gen, run: Option<Run>)
    requires Inv(c, g, run)
    ensures ValidRow(g.row, g.row.generation) && Extends(g.row, g.row)
  {
  }

  lemma NotifyKeeps(c: Claim, g: Gen, store: Store, o: Obs)
    requires Ready(c, g, store) && (g.pc.Announce? || g.pc.Mark? || g.pc.Idle?)
    ensures StepOk(c, g, store, Work(c, g, store, o))
  {
    hide StepOk, Inv, OnlyRun, StateRules, StageRules, Extends;
    var run := RunOf(c, g.row, store);
    RowFacts(c, g, run);
    if g.pc.Announce? { AnnounceInv(c, g, run); }
    if g.pc.Mark? { MarkInv(c, g, run, o); }
    SameStore(c, g, store, Work(c, g, store, o).gen);
  }

  /** Every step keeps the invariant of its own generation and touches nothing else. */
  lemma WorkKeeps(c: Claim, g: Gen, store: Store, o: Obs)
    requires Ready(c, g, store)
    ensures StepOk(c, g, store, Work(c, g, store, o))
  {
    hide StepOk, AdmitRunStep, EnqueueStep, CreatingStep, LinkingStep, SubmittingStep, RunAdmittedStep, HandleRunStep,
         AdmitValidationStep, CallAdmitStep, LinkValidationStep, HandleValidationStep, PublishStep, PublishCallStep,
         PublishRunningStep, PublishDoneStep, RetryStep, StopStep, AnnounceStep, MarkStep;
    match g.pc
    case Idle => NotifyKeeps(c, g, store, o);
    case AdmitRun(row, existing) => AdmitRunKeeps(c, g, store, existing, o);
    case Enqueue(row, existing) => EnqueueKeeps(c, g, store, existing, o);
    case Creating(row, header) => CreatingKeeps(c, g, store, header, o);
    case Linking(row) => LinkingKeeps(c, g, store, o);
    case Submitting(row) => SubmitKeeps(c, g, store, row, o);
    case RunAdmitted(row) => RunAdmittedKeeps(c, g, store, row, o);
    case HandleRun(row) => HandleRunKeeps(c, g, store, o);
    case AdmitValidation(row) => AdmitValidationKeeps(c, g, store, o);
    case CallAdmit(row) => CallAdmitKeeps(c, g, store, o);
    case LinkValidation(row, attempt) => LinkValidationKeeps(c, g, store, attempt, o);
    case HandleValidation(row) => HandleValidationKeeps(c, g, store, o);
    case Publish(row) => PublishKeeps(c, g, store, o);
    case PublishCall(row) => PublishCallKeeps(c, g, store, o);
    case PublishRunning(row, i) => PublishRunningKeeps(c, g, store, i, o);
    case PublishDone(row, i) => PublishDoneKeeps(c, g, store, i, o);
    case Retry(row) =>
      RetryInv(c, g, RunOf(c, g.row, store), row, o);
      SameStore(c, g, store, RetryStep(g, row, o));
    case Stop(row, classification) =>
      StopInv(c, g, RunOf(c, g.row, store), row, classification, o);
      SameStore(c, g, store, StopStep(g, row, classification, o));
    case Announce(_) => NotifyKeeps(c, g, store, o);
    case Mark => NotifyKeeps(c, g, store, o);
  }
}
