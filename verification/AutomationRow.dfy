/** One generation of an automation attempt as the ledger stores it: the save-time
    row rules and the row-level effect of every ledger operation. Identifiers,
    digests, codes and timestamps are abstract values. */
module AutomationRow {
  import opened Wrappers

  type Key = nat          // 256-bit digest; hex text of one length orders like the number
  type RunId = nat
  type AttemptId = nat
  type Time = int
  type RecipeId = string
  type Sha = string
  type Identity = string
  type Code = string

  datatype State = Claimed | RunPreallocated | Admitted | Terminal | RetryDelayed | Blocked
  datatype Classification = Success | TerminalFailure | TransientRetryable | BlockedManual | Cancelled | Disabled
  datatype RetryClass = NoRetry | Transient | Operator
  datatype Policy = Manual | Detect | Test | Build | BuildValidate | Full
  datatype Stage =
    | Detection | RunAdmission | RunStage | ValidationAdmission | Validation | Publication | TerminalStage

  const MAX_RETRY_COUNT := 1000

  datatype Row = Row(
    generation: nat,
    state: State,
    policy: Policy,
    detectedAt: Time,
    createdAt: Time,
    updatedAt: Time,
    preallocated: Option<RunId>,
    runId: Option<RunId>,
    classification: Option<Classification>,
    retryClass: RetryClass,
    retryCount: int,
    notBefore: Option<Time>,
    lastError: Option<Code>,
    diagnostic: Option<Code>,
    stage: Stage,
    validationId: Option<AttemptId>,
    publicationId: Option<AttemptId>,
    notified: bool,
    runRetries: int,
    validationRetries: int,
    publicationRetries: int)
  {
    predicate Stopped() { state == Terminal || state == Blocked }
  }

  /** The immutable inputs of one attempt. */
  datatype Claim = Claim(key: Key, recipeId: RecipeId, sha: Sha, identity: Identity)

  /** What a Run records about the claim that admitted it. */
  datatype Provenance = Provenance(key: Key, generation: nat, policy: Policy, identity: Identity)

  datatype LedgerError =
    | AttemptNotFound | StateConflict | PolicyIneligible | RunMismatch | RunNotFound | BindingInvalid
    | StageInvalid | RunNotLinked | ValidationMismatch | NotTerminal | LedgerInvalid | BoundsExceeded
    | PolicyMismatch | RecipeChanged | RetryStale | RetryNotTerminal | RecipeStale

  predicate CountOk(n: int) { 0 <= n <= MAX_RETRY_COUNT }

  predicate StateRules(r: Row) {
    && r.policy != Manual
    && CountOk(r.retryCount) && CountOk(r.runRetries) && CountOk(r.validationRetries) && CountOk(r.publicationRetries)
    && (r.runId.Some? ==> r.runId == r.preallocated)
    && (r.state == RunPreallocated || r.state == Admitted ==> r.preallocated.Some?)
    && (r.policy == Detect ==>
          r.preallocated.None? && r.runId.None? && r.state != RunPreallocated && r.state != Admitted)
    && (r.state == Admitted ==> r.runId.Some?)
    && (r.state in {Terminal, RetryDelayed, Blocked} <==> r.classification.Some?)
    && (r.state == RetryDelayed ==> r.classification == Some(TransientRetryable))
    && (r.state == Blocked ==> r.classification == Some(BlockedManual) && r.retryClass == Operator)
    && (r.state == Terminal ==>
          r.classification != Some(TransientRetryable) && r.classification != Some(BlockedManual) && r.retryClass == NoRetry)
    && (r.state in {Claimed, RunPreallocated, Admitted} ==> r.retryClass == NoRetry)
    && (r.state == RetryDelayed ==> r.retryClass == Transient)
    && (r.state == RetryDelayed <==> r.notBefore.Some?)
    && (r.notified ==> r.Stopped())
  }

  predicate StageRules(r: Row) {
    && (r.Stopped() <==> r.stage == TerminalStage)
    && (r.publicationId.Some? ==> r.validationId.Some?)
    && (r.stage == Detection ==>
          r.preallocated.None? && r.runId.None? && r.validationId.None? && r.publicationId.None?)
    && (r.stage == RunAdmission ==>
          r.preallocated.Some? && r.runId.None? && r.validationId.None? && r.publicationId.None?)
    && (r.stage == RunStage ==> r.runId.Some? && r.validationId.None? && r.publicationId.None?)
    && (r.stage == ValidationAdmission ==> r.runId.Some? && r.publicationId.None?)
    && (r.stage == Validation ==> r.runId.Some? && r.validationId.Some? && r.publicationId.None?)
    && (r.stage == Publication ==> r.runId.Some? && r.validationId.Some?)
  }

  /** Everything the validator demands of the row at index `expected`. */
  predicate ValidRow(r: Row, expected: nat) {
    r.generation == expected && StateRules(r) && StageRules(r)
  }

  function FreshRow(policy: Policy, detectedAt: Time, generation: nat, now: Time): Row {
    Row(generation, Claimed, policy, detectedAt, now, now, None, None, None, NoRetry, 0, None, None, None,
        Detection, None, None, false, 0, 0, 0)
  }

  /** A row operation writes a new row, answers without writing, or raises. */
  datatype RowResult = Write(row: Row) | Keep(row: Row) | Raise(error: LedgerError)

  function Preallocate(r: Row, candidate: RunId, now: Time): RowResult {
    if r.preallocated.Some? then Keep(r)
    else if r.state != Claimed then Raise(StateConflict)
    else if r.policy == Detect then Raise(PolicyIneligible)
    else Write(r.(preallocated := Some(candidate), state := RunPreallocated, stage := RunAdmission, updatedAt := now))
  }

  /** Run admission metadata, as far as a ledger link reads it. */
  datatype RunHeader = RunHeader(id: RunId, recipeId: RecipeId, sha: Sha, automation: Option<Provenance>)

  predicate Bound(c: Claim, r: Row, h: RunHeader) {
    && r.preallocated == Some(h.id)
    && h.recipeId == c.recipeId
    && h.sha == c.sha
    && h.automation == Some(Provenance(c.key, r.generation, r.policy, c.identity))
  }

  function LinkRun(c: Claim, r: Row, runId: RunId, found: Option<RunHeader>, now: Time): RowResult {
    if r.runId.Some? then (if r.runId.value != runId then Raise(RunMismatch) else Keep(r))
    else if r.preallocated != Some(runId) then Raise(RunMismatch)
    else if found.None? then Raise(RunNotFound)
    else if !Bound(c, r, found.value) then Raise(BindingInvalid)
    else Write(r.(runId := Some(runId), state := Admitted, stage := RunStage, classification := None,
                  retryClass := NoRetry, notBefore := None, lastError := None, diagnostic := None, updatedAt := now))
  }

  function FinishState(classification: Classification): State {
    match classification
    case TransientRetryable => RetryDelayed
    case BlockedManual => Blocked
    case _ => Terminal
  }

  function Finish(r: Row, classification: Classification, retryClass: RetryClass, retryCount: int,
                  notBefore: Option<Time>, lastError: Option<Code>, diagnostic: Option<Code>, now: Time): Row
  {
    var state := FinishState(classification);
    var base := r.(state := state,
                   stage := if state == RetryDelayed then r.stage else TerminalStage,
                   classification := Some(classification), retryClass := retryClass, retryCount := retryCount,
                   notBefore := notBefore, lastError := lastError, diagnostic := diagnostic, updatedAt := now);
    if classification != TransientRetryable then base
    else match r.stage
      case RunAdmission => base.(runRetries := retryCount)
      case ValidationAdmission => base.(validationRetries := retryCount)
      case Validation => base.(validationRetries := retryCount)
      case Publication => base.(publicationRetries := retryCount)
      case _ => base
  }

  function Advance(r: Row, stage: Stage, validationId: Option<AttemptId>, publicationId: Option<AttemptId>,
                   now: Time): RowResult
  {
    if stage == Detection || stage == TerminalStage then Raise(StageInvalid)
    else if r.Stopped() then Keep(r)
    else if r.runId.None? then Raise(RunNotLinked)
    else if validationId.Some? && r.validationId.Some? && r.validationId != validationId
            && stage != ValidationAdmission && stage != Validation then Raise(ValidationMismatch)
    else Write(r.(validationId := if validationId.Some? then validationId else r.validationId,
                  publicationId := if publicationId.Some? then publicationId else r.publicationId,
                  state := Admitted, stage := stage, classification := None, retryClass := NoRetry,
                  notBefore := None, lastError := None, diagnostic := None, updatedAt := now))
  }

  function Notify(r: Row, now: Time): RowResult {
    if !r.Stopped() then Raise(NotTerminal)
    else if r.notified then Keep(r)
    else Write(r.(notified := true, updatedAt := now))
  }

  /** What no ledger operation may ever take back from a row. */
  predicate Extends(a: Row, b: Row) {
    && a.generation == b.generation && a.policy == b.policy
    && a.detectedAt == b.detectedAt && a.createdAt == b.createdAt
    && (a.preallocated.Some? ==> b.preallocated == a.preallocated)
    && (a.runId.Some? ==> b.runId == a.runId)
    && (a.validationId.Some? ==> b.validationId.Some?)
    && (a.publicationId.Some? ==> b.publicationId.Some?)
    && (a.notified ==> b.notified && b.Stopped())
  }

  /** The validator accepts finish() of an active row exactly when the count is in range and
      retry class and delay fit the classification; no other rule can refuse it. */
  lemma FinishAccepted(r: Row, cls: Classification, retry: RetryClass, count: int, notBefore: Option<Time>,
                       code: Option<Code>, diagnostic: Option<Code>, now: Time)
    requires ValidRow(r, r.generation) && !r.Stopped()
    ensures ValidRow(Finish(r, cls, retry, count, notBefore, code, diagnostic, now), r.generation) <==>
            && CountOk(count) && (notBefore.Some? <==> cls == TransientRetryable)
            && retry == (if cls == TransientRetryable then Transient else if cls == BlockedManual then Operator else NoRetry)
  {
  }

  /** The validator accepts advancing an active, linked row exactly when the stage fits the
      links that the row has or is given. */
  lemma AdvanceAccepted(r: Row, stage: Stage, v: Option<AttemptId>, p: Option<AttemptId>, now: Time)
    requires ValidRow(r, r.generation) && !r.Stopped()
    requires Advance(r, stage, v, p, now).Write?
    ensures var validated, published := v.Some? || r.validationId.Some?, p.Some? || r.publicationId.Some?;
            ValidRow(Advance(r, stage, v, p, now).row, r.generation) <==>
            && stage != RunAdmission
            && (published ==> validated && stage == Publication)
            && (if validated then stage != RunStage else stage in {RunStage, ValidationAdmission})
  {
  }

  /** What each state says about a valid row. */
  lemma StatesMean(r: Row)
    requires ValidRow(r, r.generation)
    ensures match r.state
      case Claimed => r.classification == None && r.retryClass == NoRetry && r.notBefore == None && !r.notified
      case RunPreallocated =>
        r.preallocated.Some? && r.policy !in {Manual, Detect} && r.classification == None && r.retryClass == NoRetry && !r.notified
      case Admitted =>
        && r.runId.Some? && r.runId == r.preallocated && r.policy !in {Manual, Detect}
        && r.classification == None && r.retryClass == NoRetry && r.notBefore == None && !r.notified
      case RetryDelayed => r.classification == Some(TransientRetryable) && r.retryClass == Transient && r.notBefore.Some? && !r.notified
      case Blocked => r.classification == Some(BlockedManual) && r.retryClass == Operator && r.stage == TerminalStage && r.notBefore == None
      case Terminal =>
        && r.classification.Some? && r.classification.value !in {TransientRetryable, BlockedManual}
        && r.retryClass == NoRetry && r.stage == TerminalStage && r.notBefore == None
  {
  }

  /** Exactly which Run a row is linked to, and how every other request is answered. */
  lemma LinkAnswered(c: Claim, r: Row, runId: RunId, found: Option<RunHeader>, now: Time)
    ensures var e := LinkRun(c, r, runId, found, now);
            && (e.Write? <==> r.runId == None && r.preallocated == Some(runId) && found.Some? && Bound(c, r, found.value))
            && (e.Keep? <==> r.runId == Some(runId))
            && (e == Raise(RunMismatch) <==> (r.runId.Some? && r.runId.value != runId) || (r.runId == None && r.preallocated != Some(runId)))
            && (e == Raise(RunNotFound) <==> r.runId == None && r.preallocated == Some(runId) && found == None)
            && (e.Write? ==> e.row.runId == Some(runId) && e.row.stage == RunStage && e.row.state == Admitted && e.row.classification == None)
  {
  }

  /** A completion is marked once, and only of a stopped row. */
  lemma MarkAnswered(r: Row, now: Time)
    ensures Notify(r, now) == Raise(NotTerminal) <==> !r.Stopped()
    ensures Notify(r, now) == Keep(r) <==> r.Stopped() && r.notified
    ensures Notify(r, now).Write? ==> !r.notified && Notify(r, now).row == r.(notified := true, updatedAt := now)
  {
  }
}
