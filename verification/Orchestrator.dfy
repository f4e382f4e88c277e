/** The lifecycle of one generation as the orchestrator drives it, cut at every durable
    write. The program counter and the local copy of the row are volatile; the ledger row
    and the Run store survive a crash. Observations (Recipe, managers, exceptions, clock)
    are arbitrary inputs of each step. */
module Orchestrator {
  import opened Wrappers
  import opened AutomationRow
  import AutomationLedger

  const MAX_VALIDATION_RETRIES := 2
  const MAX_PUBLICATION_RETRIES := 3

  // ------------------------------------------------------------ durable stores

  datatype RunStatus = Pending | Queued | Running | Cancelling | Prepared | Succeeded | Failed | RunCancelled
  {
    predicate Final() { Prepared? || Succeeded? || Failed? || RunCancelled? }
  }

  /** Outcome of one Validation attempt that carries this generation's metadata; `transient`
      says that it failed in preparation with a retryable code. */
  datatype Attempt = Active | AttemptCancelled | AttemptFailed(transient: bool) | AttemptSucceeded

  datatype FailureKind = TransientCode | BlockedCode | OtherCode

  /** One publication record of a Run; `proven` says the stored proof re-validates. */
  datatype Record = InFlight | Published(proven: bool) | PublishFailed(kind: FailureKind)

  /** A committed Run. Attempts and records are in creation order and named by their index. */
  datatype Run = Run(header: RunHeader, dryRun: bool, manualIdentity: Option<Identity>, status: RunStatus,
                     attempts: seq<Attempt>, records: seq<Record>)

  /** A Run workspace with or without its committed run.json. */
  datatype Workspace = Incomplete | Committed(run: Run)

  type Store = map<RunId, Workspace>

  predicate HasRun(store: Store, id: RunId) { id in store && store[id].Committed? }

  // ------------------------------------------------------------ volatile state

  datatype PC =
    | Idle
    | AdmitRun(row: Row, existing: bool)
    | Enqueue(row: Row, existing: bool)
    | Creating(row: Row, header: RunHeader)
    | Linking(row: Row)
    | Submitting(row: Row)
    | RunAdmitted(row: Row)
    | HandleRun(row: Row)
    | AdmitValidation(row: Row)
    | CallAdmit(row: Row)
    | LinkValidation(row: Row, attempt: AttemptId)
    | HandleValidation(row: Row)
    | Publish(row: Row)
    | PublishCall(row: Row)
    | PublishRunning(row: Row, record: AttemptId)
    | PublishDone(row: Row, record: AttemptId)
    | Retry(row: Row)
    | Stop(row: Row, classification: Classification)
    | Announce(classification: Classification)
    | Mark

  /** History that no step reads: Runs committed for this generation, completions announced,
      failed Validations retried, and the counts the validator refused. */
  datatype Log = Log(committed: seq<RunId>, announced: nat, failureRetries: nat, refused: seq<int>)

  datatype Gen = Gen(row: Row, pc: PC, log: Log)

  const NO_LOG := Log([], 0, 0, [])

  datatype Raised = Nothing | ShuttingDown | RaisedTransient | RaisedBlocked | RaisedOther

  datatype Admission = AdmitNew | AdmitLost | AdmitRefused

  /** Everything one step may observe. */
  datatype Obs = Obs(
    open: bool,                               // admission_open()
    live: Option<AutomationLedger.Recipe>,    // the stored Recipe, if readable
    snapshot: AutomationLedger.Recipe,        // recipe.json of an existing Run
    readable: bool,                           // snapshot or attempt manifest could be read
    manager: bool,                            // a Validation manager exists
    raised: Raised,                           // exception out of the guarded block
    admission: Admission,                     // what manager.admit did
    outcome: Record,                          // how a publication attempt ended
    candidate: RunId,                         // freshly allocated Run id
    notBefore: Time,
    now: Time)

  datatype Out = Out(gen: Gen, store: Store)

  // ------------------------------------------------------------- authorization

  function Rank(p: Policy): nat {
    match p
    case Manual => 0 case Detect => 1 case Test => 2 case Build => 3 case BuildValidate => 4 case Full => 5
  }

  predicate InitiallyAuthorized(c: Claim, row: Row, live: Option<AutomationLedger.Recipe>) {
    AutomationLedger.Eligible(live, c.recipeId, c.sha, row.policy)
  }

  predicate DownstreamAuthorized(c: Claim, live: Option<AutomationLedger.Recipe>, required: Policy) {
    && live.Some? && live.value.name == c.recipeId && live.value.active && live.value.enabled
    && Rank(live.value.policy) >= Rank(required)
  }

  /** Another Run already builds exactly this upstream identity. */
  predicate OwnedIdentity(c: Claim, row: Row, store: Store) {
    exists id :: id in store && store[id].Committed? && OwnsIdentity(c, row, store[id].run)
  }

  predicate OwnsIdentity(c: Claim, row: Row, run: Run) {
    && run.header.recipeId == c.recipeId
    && (if run.header.automation.Some? then run.header.automation.value.identity == c.identity
        else run.manualIdentity == Some(c.identity))
    && (!run.dryRun || row.policy == Test)
    && run.status in {Pending, Queued, Running, Prepared, Succeeded}
  }

  // ------------------------------------------------------------- ledger writes

  /** A validated save; a refused one raises and is logged with the count it carried. */
  function Save(g: Gen, row: Row, next: PC, refused: PC): Gen {
    if ValidRow(row, g.row.generation) then g.(row := row, pc := next)
    else g.(pc := refused, log := g.log.(refused := g.log.refused + [row.retryCount]))
  }

  function AfterRaise(row: Row, raised: Raised): PC {
    match raised
    case ShuttingDown => Idle
    case RaisedTransient => Retry(row)
    case _ => Stop(row, TerminalFailure)
  }

  function RetryCountOf(row: Row): int {
    1 + match row.stage
        case RunAdmission => row.runRetries
        case ValidationAdmission => row.validationRetries
        case Validation => row.validationRetries
        case Publication => row.publicationRetries
        case _ => row.retryCount
  }

  function RetryStep(g: Gen, row: Row, o: Obs): Gen {
    var count := RetryCountOf(row);
    var written := AutomationRow.Finish(g.row, TransientRetryable, Transient, count, Some(o.notBefore), Some("code"), Some("delayed"), o.now);
    var saved := Save(g, written, Idle, Idle);
    if saved.row == written && g.row.stage == Validation
    then saved.(log := saved.log.(failureRetries := saved.log.failureRetries + 1)) else saved
  }

  function StopStep(g: Gen, row: Row, classification: Classification, o: Obs): Gen {
    var written := AutomationRow.Finish(g.row, classification, if classification == BlockedManual then Operator else NoRetry,
                          row.retryCount, None, Some("code"), Some("finished"), o.now);
    Save(g, written, if written.notified then Idle else Announce(classification), Idle)
  }

  function AnnounceStep(g: Gen, classification: Classification): Gen {
    if classification in {Cancelled, Disabled} then g.(pc := Mark)
    else g.(pc := Mark, log := g.log.(announced := g.log.announced + 1))
  }

  function MarkStep(g: Gen, o: Obs): Gen {
    match Notify(g.row, o.now)
    case Write(row) => Save(g, row, Idle, Idle)
    case _ => g.(pc := Idle)
  }

  // -------------------------------------------------------------- Run admission

  function AdmitRunStep(c: Claim, g: Gen, store: Store, row: Row, existing: bool, o: Obs): Out {
    if !o.open then Out(g.(pc := Idle), store)
    else if (if existing then !DownstreamAuthorized(c, o.live, row.policy) else !InitiallyAuthorized(c, row, o.live)) then
      Out(g.(pc := Stop(row, Disabled)), store)
    else if existing && !o.readable then Out(g.(pc := Stop(row, BlockedManual)), store)
    else if o.raised != Nothing then Out(g.(pc := AfterRaise(row, o.raised)), store)
    else if row.preallocated.None? then
      if OwnedIdentity(c, row, store) then Out(g.(pc := Stop(row, Success)), store)
      else match Preallocate(g.row, o.candidate, o.now)
        case Write(written) => Out(Save(g, written, Enqueue(written, existing), Stop(row, TerminalFailure)), store)
        case Keep(kept) => Out(g.(pc := Enqueue(kept, existing)), store)
        case Raise(_) => Out(g.(pc := Stop(row, TerminalFailure)), store)
    else Reconcile(c, g, store, row, existing, o)
  }

  /** reconcile_preallocated_run: link a committed Run, discard an uncommitted workspace. */
  function Reconcile(c: Claim, g: Gen, store: Store, row: Row, existing: bool, o: Obs): Out {
    if g.row.runId.Some? || g.row.preallocated.None? || g.row.preallocated.value !in store then
      Out(g.(pc := Enqueue(g.row, existing)), store)
    else
      var id := g.row.preallocated.value;
      match store[id]
      case Incomplete => Out(g.(pc := Enqueue(g.row, existing)), store - {id})
      case Committed(run) =>
        match LinkRun(c, g.row, id, Some(run.header), o.now)
        case Write(written) => Out(Save(g, written, Enqueue(written, existing), Stop(row, TerminalFailure)), store)
        case Keep(kept) => Out(g.(pc := Enqueue(kept, existing)), store)
        case Raise(_) => Out(g.(pc := Stop(row, TerminalFailure)), store)
  }

  function HeaderFor(c: Claim, row: Row, id: RunId, recipe: AutomationLedger.Recipe): RunHeader {
    RunHeader(id, recipe.name, recipe.sha, Some(Provenance(c.key, row.generation, row.policy, c.identity)))
  }

  function EnqueueStep(c: Claim, g: Gen, store: Store, row: Row, existing: bool, o: Obs): Out {
    if o.raised != Nothing then Out(g.(pc := AfterRaise(row, o.raised)), store)
    else if (if existing then !DownstreamAuthorized(c, o.live, row.policy) else !InitiallyAuthorized(c, row, o.live)) then
      Out(g.(pc := Stop(row, Disabled)), store)
    else if row.preallocated.None? then Out(g.(pc := Stop(row, TerminalFailure)), store)
    else
      var id := row.preallocated.value;
      var header := HeaderFor(c, row, id, if existing then o.snapshot else o.live.value);
      if id !in store then Out(g.(pc := Creating(row, header)), store[id := Incomplete])
      else if store[id].Incomplete? then Out(g.(pc := Stop(row, TerminalFailure)), store)
      else if store[id].run.header != header || store[id].run.dryRun != (row.policy == Test) then
        Out(g.(pc := Stop(row, TerminalFailure)), store)
      else Out(g.(pc := Linking(row)), store)
  }

  /** The write of run.json is what commits a Run. */
  function CreatingStep(g: Gen, store: Store, row: Row, header: RunHeader, o: Obs): Out {
    if o.raised != Nothing then Out(g.(pc := AfterRaise(row, o.raised)), store)
    else if header.id !in store || store[header.id].Committed? then Out(g.(pc := Stop(row, TerminalFailure)), store)
    else
      var run := Run(header, row.policy == Test, None, Pending, [], []);
      Out(g.(pc := Linking(row), log := g.log.(committed := g.log.committed + [header.id])),
          store[header.id := Committed(run)])
  }

  function LinkingStep(c: Claim, g: Gen, store: Store, row: Row, o: Obs): Out {
    if o.raised != Nothing then Out(g.(pc := AfterRaise(row, o.raised)), store)
    else if row.preallocated.None? || !HasRun(store, row.preallocated.value) then
      Out(g.(pc := Stop(row, TerminalFailure)), store)
    else
      var run := store[row.preallocated.value].run;
      var next := if run.status == Pending then Submitting(row) else RunAdmitted(row);
      match LinkRun(c, g.row, run.header.id, Some(run.header), o.now)
      case Write(written) => Out(Save(g, written, next, Stop(row, TerminalFailure)), store)
      case Keep(_) => Out(g.(pc := next), store)
      case Raise(_) => Out(g.(pc := Stop(row, TerminalFailure)), store)
  }

  /** transition_status: a compare-and-set from pending to queued. */
  function Queue(store: Store, id: RunId): Store {
    if HasRun(store, id) && store[id].run.status == Pending
    then store[id := Committed(store[id].run.(status := Queued))] else store
  }

  function SubmittingStep(g: Gen, store: Store, row: Row, o: Obs): Out {
    if o.raised != Nothing || row.preallocated.None? then Out(g.(pc := AfterRaise(row, o.raised)), store)
    else Out(g.(pc := RunAdmitted(row)), Queue(store, row.preallocated.value))
  }

  function RunAdmittedStep(g: Gen, store: Store, o: Obs): Out {
    match Advance(g.row, RunStage, None, None, o.now)
    case Write(written) =>
      var final := g.row.runId.Some? && HasRun(store, g.row.runId.value) && store[g.row.runId.value].run.status.Final();
      Out(Save(g, written, if final then HandleRun(written) else Idle, Idle), store)
    case _ => Out(g.(pc := Idle), store)
  }

  function HandleRunStep(g: Gen, store: Store, row: Row): Out {
    if row.runId.None? || !HasRun(store, row.runId.value) then Out(g.(pc := Stop(row, BlockedManual)), store)
    else
      var status := store[row.runId.value].run.status;
      var next :=
        if status == Pending then AdmitRun(row, true)
        else if !status.Final() then Idle
        else if status == RunCancelled then Stop(row, Cancelled)
        else if status != (if row.policy == Test then Prepared else Succeeded) then Stop(row, TerminalFailure)
        else if row.policy in {Test, Build} then Stop(row, Success)
        else AdmitValidation(row);
      Out(g.(pc := next), store)
  }

  // ----------------------------------------------------------------- Validation

  function Newest(run: Run): Option<AttemptId> {
    if |run.attempts| == 0 then None else Some(|run.attempts| - 1)
  }

  /** _reconcile_validation_link: follow the newest attempt of this generation. */
  predicate LinkIsStale(row: Row, run: Run) {
    Newest(run).Some? && Newest(run) != row.validationId
  }

  function Relink(g: Gen, run: Run, o: Obs): Gen {
    match Advance(g.row, Validation, Newest(run), None, o.now)
    case Write(written) => Save(g, written, HandleValidation(written), Idle)
    case Keep(kept) => g.(pc := HandleValidation(kept))
    case Raise(_) => g.(pc := Idle)
  }

  function AdmitValidationStep(c: Claim, g: Gen, store: Store, row: Row, o: Obs): Out {
    if !o.open || row.runId.None? || !HasRun(store, row.runId.value) then Out(g.(pc := Idle), store)
    else
      var run := store[row.runId.value].run;
      if LinkIsStale(row, run) then Out(Relink(g, run, o), store)
      else if !DownstreamAuthorized(c, o.live, if row.policy == Full then Full else BuildValidate) then
        Out(g.(pc := Stop(row, Disabled)), store)
      else if o.raised == ShuttingDown then Out(g.(pc := Idle), store)
      else match Advance(g.row, ValidationAdmission, None, None, o.now)
        case Write(written) =>
          Out(Save(g, written, if o.manager then CallAdmit(written) else Retry(written),
                   if o.manager then Stop(row, TerminalFailure) else Idle), store)
        case _ => Out(g.(pc := Idle), store)
  }

  function AddAttempt(store: Store, id: RunId, attempt: Attempt): Store
    requires HasRun(store, id)
  {
    store[id := Committed(store[id].run.(attempts := store[id].run.attempts + [attempt]))]
  }

  /** manager.admit stores an attempt, or stores one and reports that it lost it to
      shutdown, or refuses. */
  function CallAdmitStep(g: Gen, store: Store, row: Row, o: Obs): Out {
    if row.runId.None? || !HasRun(store, row.runId.value) then Out(g.(pc := Stop(row, TerminalFailure)), store)
    else
      var id := row.runId.value;
      match o.admission
      case AdmitNew => Out(g.(pc := LinkValidation(row, |store[id].run.attempts|)), AddAttempt(store, id, Active))
      case AdmitLost => Out(g.(pc := if o.open then Retry(row) else Idle), AddAttempt(store, id, AttemptCancelled))
      case AdmitRefused => Out(g.(pc := AfterRaise(row, o.raised)), store)
  }

  function LinkValidationStep(g: Gen, store: Store, row: Row, attempt: AttemptId, o: Obs): Out {
    match Advance(g.row, Validation, Some(attempt), None, o.now)
    case Write(written) =>
      var finished := row.runId.Some? && HasRun(store, row.runId.value) && attempt < |store[row.runId.value].run.attempts|
                      && store[row.runId.value].run.attempts[attempt] != Active;
      Out(Save(g, written, if finished && o.readable then HandleValidation(written) else Idle, Idle), store)
    case _ => Out(g.(pc := Idle), store)
  }

  function HandleValidationStep(g: Gen, store: Store, row: Row, o: Obs): Out {
    if row.runId.None? || !HasRun(store, row.runId.value) then Out(g.(pc := Stop(row, BlockedManual)), store)
    else
      var run := store[row.runId.value].run;
      if LinkIsStale(row, run) then Out(Relink(g, run, o), store)
      else if row.validationId.None? then Out(g.(pc := AdmitValidation(row)), store)
      else if !o.readable || row.validationId.value >= |run.attempts| then Out(g.(pc := Stop(row, BlockedManual)), store)
      else
        var next := match run.attempts[row.validationId.value]
          case Active => Idle
          case AttemptCancelled => Stop(row, Cancelled)
          case AttemptFailed(transient) =>
            if transient && row.validationRetries < MAX_VALIDATION_RETRIES then Retry(row) else Stop(row, TerminalFailure)
          case AttemptSucceeded => if row.policy == BuildValidate then Stop(row, Success) else Publish(row);
        Out(g.(pc := next), store)
  }

  // ---------------------------------------------------------------- Publication

  function AfterFailure(row: Row, kind: FailureKind): PC {
    if kind == TransientCode && row.publicationRetries < MAX_PUBLICATION_RETRIES then Retry(row)
    else Stop(row, if kind == BlockedCode then BlockedManual else TerminalFailure)
  }

  function KindOf(raised: Raised): FailureKind {
    match raised case RaisedTransient => TransientCode case RaisedBlocked => BlockedCode case _ => OtherCode
  }

  function PublishStep(c: Claim, g: Gen, store: Store, row: Row, o: Obs): Out {
    if !o.open then Out(g.(pc := Idle), store)
    else if !DownstreamAuthorized(c, o.live, Full) then Out(g.(pc := Stop(row, Disabled)), store)
    else if row.runId.None? || !HasRun(store, row.runId.value) then Out(g.(pc := Stop(row, BlockedManual)), store)
    else
      var records := store[row.runId.value].run.records;
      if |records| > 0 && records[|records| - 1].PublishFailed? && row.state != RetryDelayed then
        match Advance(g.row, Publication, None, Some(|records| - 1), o.now)
        case Write(written) => Out(Save(g, written, AfterFailure(written, records[|records| - 1].kind), Idle), store)
        case _ => Out(g.(pc := Idle), store)
      else if o.raised == ShuttingDown then Out(g.(pc := Idle), store)
      else match Advance(g.row, Publication, None, None, o.now)
        case Write(written) => Out(Save(g, written, PublishCall(written), Idle), store)
        case _ => Out(g.(pc := Idle), store)
  }

  function SetRecords(store: Store, id: RunId, records: seq<Record>): Store
    requires HasRun(store, id)
  {
    store[id := Committed(store[id].run.(records := records))]
  }

  /** publish_artifact stores a running record before it touches the repository. */
  function PublishCallStep(g: Gen, store: Store, row: Row, o: Obs): Out {
    if o.raised == ShuttingDown then Out(g.(pc := Idle), store)
    else if o.raised != Nothing || row.runId.None? || !HasRun(store, row.runId.value) then
      Out(g.(pc := AfterFailure(row, KindOf(o.raised))), store)
    else
      var id := row.runId.value;
      var records := store[id].run.records;
      Out(g.(pc := PublishRunning(row, |records|)), SetRecords(store, id, records + [InFlight]))
  }

  function PublishRunningStep(g: Gen, store: Store, row: Row, i: AttemptId, o: Obs): Out {
    if row.runId.None? || !HasRun(store, row.runId.value) || i >= |store[row.runId.value].run.records| || o.outcome == InFlight
    then Out(g, store)
    else
      var id := row.runId.value;
      var done := SetRecords(store, id, store[id].run.records[i := o.outcome]);
      if o.raised == ShuttingDown then Out(g.(pc := Idle), done)
      else if o.raised != Nothing then Out(g.(pc := AfterFailure(row, KindOf(o.raised))), done)
      else Out(g.(pc := PublishDone(row, i)), done)
  }

  function PublishDoneStep(g: Gen, store: Store, row: Row, i: AttemptId, o: Obs): Out {
    if row.runId.None? || !HasRun(store, row.runId.value) || i >= |store[row.runId.value].run.records| then
      Out(g.(pc := Idle), store)
    else match Advance(g.row, Publication, None, Some(i), o.now)
      case Write(written) =>
        var next := match store[row.runId.value].run.records[i]
          case Published(true) => Stop(written, Success)
          case Published(false) => Stop(written, BlockedManual)
          case PublishFailed(kind) => AfterFailure(written, kind)
          case InFlight => Idle;
        Out(Save(g, written, next, Idle), store)
      case _ => Out(g.(pc := Idle), store)
  }

  /** One atomic step of the orchestrator for one generation. */
  function Work(c: Claim, g: Gen, store: Store, o: Obs): Out {
    match g.pc
    case Idle => Out(g, store)
    case AdmitRun(row, existing) => AdmitRunStep(c, g, store, row, existing, o)
    case Enqueue(row, existing) => EnqueueStep(c, g, store, row, existing, o)
    case Creating(row, header) => CreatingStep(g, store, row, header, o)
    case Linking(row) => LinkingStep(c, g, store, row, o)
    case Submitting(row) => SubmittingStep(g, store, row, o)
    case RunAdmitted(_) => RunAdmittedStep(g, store, o)
    case HandleRun(row) => HandleRunStep(g, store, row)
    case AdmitValidation(row) => AdmitValidationStep(c, g, store, row, o)
    case CallAdmit(row) => CallAdmitStep(g, store, row, o)
    case LinkValidation(row, attempt) => LinkValidationStep(g, store, row, attempt, o)
    case HandleValidation(row) => HandleValidationStep(g, store, row, o)
    case Publish(row) => PublishStep(c, g, store, row, o)
    case PublishCall(row) => PublishCallStep(g, store, row, o)
    case PublishRunning(row, i) => PublishRunningStep(g, store, row, i, o)
    case PublishDone(row, i) => PublishDoneStep(g, store, row, i, o)
    case Retry(row) => Out(RetryStep(g, row, o), store)
    case Stop(row, classification) => Out(StopStep(g, row, classification, o), store)
    case Announce(classification) => Out(AnnounceStep(g, classification), store)
    case Mark => Out(MarkStep(g, o), store)
  }

  /** advance(): the branch taken for a row that is due and holds its Recipe's turn. */
  function Dispatch(row: Row): PC {
    if row.runId.None? then AdmitRun(row, false)
    else match row.stage
      case ValidationAdmission => AdmitValidation(row)
      case Validation => if row.state == RetryDelayed then AdmitValidation(row) else HandleValidation(row)
      case Publication => HandleValidation(row)
      case _ => HandleRun(row)
  }
}
