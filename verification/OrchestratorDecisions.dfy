/** What the orchestrator decides at each point of a lifecycle, outcome by outcome, and what
    must hold before it creates, validates or publishes anything. */
module OrchestratorDecisions {
  import opened Wrappers
  import opened AutomationRow
  import opened Orchestrator
  import AutomationLedger

  /** The verdict on a linked Run. Every status and policy has exactly one answer. */
  lemma RunVerdict(g: Gen, store: Store, row: Row)
    requires row.runId.Some? && HasRun(store, row.runId.value)
    ensures var status, next := store[row.runId.value].run.status, HandleRunStep(g, store, row).gen.pc;
            && (next == AdmitRun(row, true) <==> status == Pending)
            && (next == Idle <==> status in {Queued, Running, Cancelling})
            && (next == Stop(row, Cancelled) <==> status == RunCancelled)
            && (next == Stop(row, TerminalFailure) <==>
                  status == Failed || (row.policy == Test && status == Succeeded) || (row.policy != Test && status == Prepared))
            && (next == Stop(row, Success) <==>
                  (row.policy == Test && status == Prepared) || (row.policy == Build && status == Succeeded))
            && (next == AdmitValidation(row) <==> status == Succeeded && row.policy !in {Test, Build})
    ensures HandleRunStep(g, store, row) == Out(g.(pc := HandleRunStep(g, store, row).gen.pc), store)
  {
  }

  /** A Run that disappeared needs an operator. */
  lemma MissingRun(g: Gen, store: Store, row: Row, o: Obs)
    requires row.runId.None? || !HasRun(store, row.runId.value)
    ensures HandleRunStep(g, store, row) == Out(g.(pc := Stop(row, BlockedManual)), store)
    ensures HandleValidationStep(g, store, row, o) == Out(g.(pc := Stop(row, BlockedManual)), store)
  {
  }

  /** The verdict on the Validation attempt a row is linked to, when it is the newest one. */
  lemma ValidationVerdict(g: Gen, store: Store, row: Row, o: Obs)
    requires row.runId.Some? && HasRun(store, row.runId.value) && o.readable
    requires var attempts := store[row.runId.value].run.attempts; attempts != [] && row.validationId == Some(|attempts| - 1)
    ensures var attempts := store[row.runId.value].run.attempts;
            var newest, next := attempts[|attempts| - 1], HandleValidationStep(g, store, row, o).gen.pc;
            && (next == Idle <==> newest == Active)
            && (next == Stop(row, Cancelled) <==> newest == AttemptCancelled)
            && (next == Retry(row) <==> newest == AttemptFailed(true) && row.validationRetries < 2)
            && (next == Stop(row, TerminalFailure) <==>
                  newest == AttemptFailed(false) || (newest == AttemptFailed(true) && row.validationRetries >= 2))
            && (next == Stop(row, Success) <==> newest == AttemptSucceeded && row.policy == BuildValidate)
            && (next == Publish(row) <==> newest == AttemptSucceeded && row.policy != BuildValidate)
    ensures HandleValidationStep(g, store, row, o) == Out(g.(pc := HandleValidationStep(g, store, row, o).gen.pc), store)
  {
  }

  /** A newer attempt than the linked one is followed before anything is decided. */
  lemma NewestAttemptFollowed(g: Gen, store: Store, row: Row, o: Obs)
    requires row == g.row && row.runId.Some? && HasRun(store, row.runId.value) && ValidRow(row, row.generation)
    requires !row.Stopped() && row.publicationId.None?
    requires var attempts := store[row.runId.value].run.attempts; attempts != [] && row.validationId != Some(|attempts| - 1)
    ensures var out := HandleValidationStep(g, store, row, o);
            && out.store == store && out.gen.pc == HandleValidation(out.gen.row) && out.gen.row.stage == Validation
            && out.gen.row.validationId == Some(|store[row.runId.value].run.attempts| - 1)
  {
    var n := |store[row.runId.value].run.attempts|;
    AdvanceAccepted(row, Validation, Some(n - 1), None, o.now);
  }

  /** The verdict on a publication that ended. */
  lemma PublicationVerdict(g: Gen, store: Store, row: Row, i: AttemptId, o: Obs)
    requires row == g.row && row.runId.Some? && HasRun(store, row.runId.value) && ValidRow(row, row.generation)
    requires !row.Stopped() && row.stage == Publication && i < |store[row.runId.value].run.records|
    ensures var record, out := store[row.runId.value].run.records[i], PublishDoneStep(g, store, row, i, o);
            && out.store == store && out.gen.row.publicationId == Some(i) && out.gen.row.stage == Publication
            && (out.gen.pc == Stop(out.gen.row, Success) <==> record == Published(true))
            && (out.gen.pc == Stop(out.gen.row, BlockedManual) <==> record == Published(false) || record == PublishFailed(BlockedCode))
            && (out.gen.pc == Retry(out.gen.row) <==> record == PublishFailed(TransientCode) && row.publicationRetries < 3)
            && (out.gen.pc == Stop(out.gen.row, TerminalFailure) <==>
                  record == PublishFailed(OtherCode) || (record == PublishFailed(TransientCode) && row.publicationRetries >= 3))
  {
    AdvanceAccepted(row, Publication, None, Some(i), o.now);
  }

  /** The stored Recipe may be acted on: it is this claim's Recipe, active and automated. */
  predicate Automated(c: Claim, live: Option<AutomationLedger.Recipe>) {
    live.Some? && live.value.name == c.recipeId && live.value.active && live.value.enabled
  }

  /** Nothing is created, validated or published for a Recipe that is gone, inactive, not
      automated, or whose policy no longer goes that far; and no Run id is allocated for an
      upstream identity that another Run of the Recipe already builds. */
  lemma ActsOnlyWhenAllowed(c: Claim, g: Gen, store: Store, o: Obs)
    ensures var out := Work(c, g, store, o);
            && (out.gen.pc.Creating? && !g.pc.Creating? ==>
                  && g.pc.Enqueue? && Automated(c, o.live)
                  && (if g.pc.existing then Rank(o.live.value.policy) >= Rank(g.pc.row.policy)
                      else o.live.value.sha == c.sha && o.live.value.policy == g.pc.row.policy))
            && (out.gen.pc.CallAdmit? && !g.pc.CallAdmit? ==>
                  && g.pc.AdmitValidation? && Automated(c, o.live) && o.live.value.policy in {BuildValidate, Full}
                  && (g.pc.row.policy == Full ==> o.live.value.policy == Full))
            && (out.gen.pc.PublishCall? && !g.pc.PublishCall? ==>
                  g.pc.Publish? && Automated(c, o.live) && o.live.value.policy == Full)
            && (out.gen.row.preallocated != g.row.preallocated ==>
                  forall id :: HasRun(store, id) ==> !Builds(c, g.pc.row, store[id].run))
  {
    hide AdmitRunStep, EnqueueStep, AdmitValidationStep, PublishStep, CreatingStep, LinkingStep, SubmittingStep, RunAdmittedStep,
         HandleRunStep, CallAdmitStep, LinkValidationStep, HandleValidationStep, PublishCallStep, PublishRunningStep,
         PublishDoneStep, RetryStep, StopStep, AnnounceStep, MarkStep, Builds;
    match g.pc
    case AdmitRun(row, existing) => AdmitRunAllowed(c, g, store, row, existing, o);
    case Enqueue(row, existing) => EnqueueAllowed(c, g, store, row, existing, o);
    case AdmitValidation(row) => AdmitValidationAllowed(c, g, store, row, o);
    case Publish(row) => PublishAllowed(c, g, store, row, o);
    case _ => RunSteps(c, g, store, o); ValidationSteps(g, store, o); PublicationSteps(g, store, o); EndSteps(g, o);
  }

  /** The generation moves on without starting anything or touching its Run id. */
  predicate Harmless(before: Gen, after: Gen) {
    after.row.preallocated == before.row.preallocated && !after.pc.Creating? && !after.pc.CallAdmit? && !after.pc.PublishCall?
  }

  lemma AdmitRunAllowed(c: Claim, g: Gen, store: Store, row: Row, existing: bool, o: Obs)
    ensures var out := AdmitRunStep(c, g, store, row, existing, o);
            && Harmless(g.(row := out.gen.row), out.gen)
            && (out.gen.row.preallocated != g.row.preallocated ==> forall id :: HasRun(store, id) ==> !Builds(c, row, store[id].run))
  {
  }

  lemma EnqueueAllowed(c: Claim, g: Gen, store: Store, row: Row, existing: bool, o: Obs)
    ensures var out := EnqueueStep(c, g, store, row, existing, o);
            && Harmless(g, out.gen.(pc := Idle)) && !out.gen.pc.CallAdmit? && !out.gen.pc.PublishCall?
            && (out.gen.pc.Creating? ==>
                  && Automated(c, o.live)
                  && (if existing then Rank(o.live.value.policy) >= Rank(row.policy)
                      else o.live.value.sha == c.sha && o.live.value.policy == row.policy))
  {
  }

  lemma AdmitValidationAllowed(c: Claim, g: Gen, store: Store, row: Row, o: Obs)
    ensures var out := AdmitValidationStep(c, g, store, row, o);
            && Harmless(g, out.gen.(pc := Idle)) && !out.gen.pc.Creating? && !out.gen.pc.PublishCall?
            && (out.gen.pc.CallAdmit? ==>
                  && Automated(c, o.live) && o.live.value.policy in {BuildValidate, Full}
                  && (row.policy == Full ==> o.live.value.policy == Full))
  {
  }

  lemma PublishAllowed(c: Claim, g: Gen, store: Store, row: Row, o: Obs)
    ensures var out := PublishStep(c, g, store, row, o);
            && Harmless(g, out.gen.(pc := Idle)) && !out.gen.pc.Creating? && !out.gen.pc.CallAdmit?
            && (out.gen.pc.PublishCall? ==> Automated(c, o.live) && o.live.value.policy == Full)
  {
  }

  lemma RunSteps(c: Claim, g: Gen, store: Store, o: Obs)
    ensures g.pc.Creating? ==> Harmless(g, CreatingStep(g, store, g.pc.row, g.pc.header, o).gen)
    ensures g.pc.Linking? ==> Harmless(g, LinkingStep(c, g, store, g.pc.row, o).gen)
    ensures g.pc.Submitting? ==> Harmless(g, SubmittingStep(g, store, g.pc.row, o).gen)
    ensures g.pc.RunAdmitted? ==> Harmless(g, RunAdmittedStep(g, store, o).gen)
    ensures g.pc.HandleRun? ==> Harmless(g, HandleRunStep(g, store, g.pc.row).gen)
  {
    hide ValidRow, Bound;
  }

  lemma ValidationSteps(g: Gen, store: Store, o: Obs)
    ensures g.pc.CallAdmit? ==> Harmless(g, CallAdmitStep(g, store, g.pc.row, o).gen)
    ensures g.pc.LinkValidation? ==> Harmless(g, LinkValidationStep(g, store, g.pc.row, g.pc.attempt, o).gen)
    ensures g.pc.HandleValidation? ==> Harmless(g, HandleValidationStep(g, store, g.pc.row, o).gen)
  {
    hide ValidRow;
  }

  lemma PublicationSteps(g: Gen, store: Store, o: Obs)
    ensures g.pc.PublishCall? ==> Harmless(g, PublishCallStep(g, store, g.pc.row, o).gen)
    ensures g.pc.PublishRunning? ==> PublishRunningStep(g, store, g.pc.row, g.pc.record, o).gen == g
                                     || Harmless(g, PublishRunningStep(g, store, g.pc.row, g.pc.record, o).gen)
    ensures g.pc.PublishDone? ==> Harmless(g, PublishDoneStep(g, store, g.pc.row, g.pc.record, o).gen)
  {
    hide ValidRow;
  }

  lemma EndSteps(g: Gen, o: Obs)
    ensures g.pc.Retry? ==> Harmless(g, RetryStep(g, g.pc.row, o))
    ensures g.pc.Stop? ==> Harmless(g, StopStep(g, g.pc.row, g.pc.classification, o))
    ensures g.pc.Announce? ==> Harmless(g, AnnounceStep(g, g.pc.classification))
    ensures g.pc.Mark? ==> Harmless(g, MarkStep(g, o))
  {
    hide ValidRow;
  }

  /** A Run of the Recipe that builds, or built, exactly the claimed upstream identity. */
  predicate Builds(c: Claim, row: Row, run: Run) {
    && run.header.recipeId == c.recipeId && run.status in {Pending, Queued, Running, Prepared, Succeeded}
    && (row.policy == Test || !run.dryRun)
    && (match run.header.automation
        case Some(p) => p.identity == c.identity
        case None => run.manualIdentity == Some(c.identity))
  }

  // ------------------------------------------------------------ admissions and exceptions

  /** The stored Recipe still allows the Run: exactly as claimed for a new one, and going at
      least as far for one that exists. */
  predicate Allowed(c: Claim, live: Option<AutomationLedger.Recipe>, policy: Policy, existing: bool) {
    && Automated(c, live)
    && if existing then Rank(live.value.policy) >= Rank(policy) else live.value.sha == c.sha && live.value.policy == policy
  }

  /** The verdict on admitting a Run. A claim that never gets a Run is a success exactly when
      another Run builds its identity. */
  lemma AdmissionVerdict(c: Claim, g: Gen, store: Store, row: Row, existing: bool, o: Obs)
    requires g.row == row && ValidRow(row, row.generation) && (existing <==> row.runId.Some?) && !row.Stopped()
    ensures var next := AdmitRunStep(c, g, store, row, existing, o).gen.pc;
            var goes := o.open && Allowed(c, o.live, row.policy, existing) && (existing ==> o.readable);
            && (next == Idle <==> !o.open || (goes && o.raised == ShuttingDown))
            && (next == Stop(row, Disabled) <==> o.open && !Allowed(c, o.live, row.policy, existing))
            && (next == Stop(row, BlockedManual) <==> o.open && Allowed(c, o.live, row.policy, existing) && existing && !o.readable)
            && (next == Retry(row) <==> goes && o.raised == RaisedTransient)
            && (next == Stop(row, Success) <==>
                  && goes && o.raised == Nothing && row.preallocated.None?
                  && exists id :: HasRun(store, id) && Builds(c, row, store[id].run))
            && (goes && o.raised in {RaisedBlocked, RaisedOther} ==> next == Stop(row, TerminalFailure))
  {
    hide Builds, OwnsIdentity, StateRules, Reconcile;
    BuildsOwns(c, row, store);
    ReconcileGoesOn(c, g, store, row, existing, o);
  }

  lemma BuildsOwns(c: Claim, row: Row, store: Store)
    ensures OwnedIdentity(c, row, store) <==> exists id :: HasRun(store, id) && Builds(c, row, store[id].run)
  {
    assert forall run :: OwnsIdentity(c, row, run) <==> Builds(c, row, run);
  }

  lemma ReconcileGoesOn(c: Claim, g: Gen, store: Store, row: Row, existing: bool, o: Obs)
    ensures var next := Reconcile(c, g, store, row, existing, o).gen.pc;
            next.Enqueue? || next == Stop(row, TerminalFailure)
  {
  }

  /** The verdict on the gate-held admission of a preallocated Run: its workspace is reserved, or
      the Run that is there is exactly the one meant, or the generation stops. */
  lemma EnqueueVerdict(c: Claim, g: Gen, store: Store, row: Row, existing: bool, o: Obs)
    requires row.preallocated.Some? && o.raised == Nothing
    ensures var out, id := EnqueueStep(c, g, store, row, existing, o), row.preallocated.value;
            var recipe := if existing || o.live.None? then o.snapshot else o.live.value;
            var header := RunHeader(id, recipe.name, recipe.sha, Some(Provenance(c.key, row.generation, row.policy, c.identity)));
            var allowed := Allowed(c, o.live, row.policy, existing);
            && (out.gen.pc == Stop(row, Disabled) <==> !allowed)
            && (out.gen.pc == Creating(row, header) <==> allowed && id !in store)
            && (out.gen.pc == Linking(row) <==>
                  allowed && HasRun(store, id) && store[id].run.header == header && (store[id].run.dryRun <==> row.policy == Test))
            && (out.gen.pc == Stop(row, TerminalFailure) <==>
                  allowed && id in store && !(store[id].Committed? && store[id].run.header == header && (store[id].run.dryRun <==> row.policy == Test)))
            && out.store == (if out.gen.pc.Creating? then store[id := Incomplete] else store)
  {
  }

  /** What an exception out of Run or Validation admission leads to. */
  lemma RaisedInAdmission(row: Row, raised: Raised)
    ensures AfterRaise(row, raised) == Idle <==> raised == ShuttingDown
    ensures AfterRaise(row, raised) == Retry(row) <==> raised == RaisedTransient
    ensures AfterRaise(row, raised) == Stop(row, TerminalFailure) <==> raised in {Nothing, RaisedBlocked, RaisedOther}
  {
  }

  /** Admitting a Validation stores exactly one attempt, or none when it is refused. */
  lemma AttemptStored(g: Gen, store: Store, row: Row, o: Obs)
    requires row.runId.Some? && HasRun(store, row.runId.value)
    ensures var out, id := CallAdmitStep(g, store, row, o), row.runId.value;
            var attempts := store[id].run.attempts;
            && out.gen.row == g.row && out.store.Keys == store.Keys && (forall j :: j in store && j != id ==> out.store[j] == store[j])
            && HasRun(out.store, id) && out.store[id].run == store[id].run.(attempts := out.store[id].run.attempts)
            && out.store[id].run.attempts == attempts + (match o.admission
                 case AdmitNew => [Active] case AdmitLost => [AttemptCancelled] case AdmitRefused => [])
            && (out.gen.pc == LinkValidation(row, |attempts|) <==> o.admission == AdmitNew)
            && (o.admission == AdmitLost ==> out.gen.pc == if o.open then Retry(row) else Idle)
  {
    assert store[row.runId.value].run.attempts + [] == store[row.runId.value].run.attempts;
  }

  /** What an exception out of publication leads to. */
  predicate PublicationRaised(next: PC, row: Row, raised: Raised) {
    && (next == Idle <==> raised == ShuttingDown)
    && (next == Retry(row) <==> raised == RaisedTransient && row.publicationRetries < 3)
    && (next == Stop(row, BlockedManual) <==> raised == RaisedBlocked)
    && (next == Stop(row, TerminalFailure) <==> raised == RaisedOther || (raised == RaisedTransient && row.publicationRetries >= 3))
  }

  /** publish stores a record in flight before anything else, and exactly that record gets its
      outcome; an exception is judged by its kind. */
  lemma PublicationCall(g: Gen, store: Store, row: Row, o: Obs)
    requires row.runId.Some? && HasRun(store, row.runId.value)
    ensures var out, id := PublishCallStep(g, store, row, o), row.runId.value;
            var records := store[id].run.records;
            && (o.raised != Nothing ==> out.store == store && PublicationRaised(out.gen.pc, row, o.raised))
            && (o.raised == Nothing ==>
                  out.gen.pc == PublishRunning(row, |records|)
                  && out.store == store[id := Committed(store[id].run.(records := records + [InFlight]))])
    ensures forall i: nat :: i < |store[row.runId.value].run.records| && o.outcome != InFlight ==>
              var out, id := PublishRunningStep(g, store, row, i, o), row.runId.value;
              && out.store == store[id := Committed(store[id].run.(records := store[id].run.records[i := o.outcome]))]
              && (o.raised == Nothing ==> out.gen.pc == PublishDone(row, i))
              && (o.raised != Nothing ==> PublicationRaised(out.gen.pc, row, o.raised))
  {
  }

  /** A failed publication that was recorded but not yet counted is judged by its own kind, and
      publish is not called; otherwise it is, when the Recipe still allows it. */
  lemma RecordedFailureJudged(c: Claim, g: Gen, store: Store, row: Row, o: Obs)
    requires row == g.row && row.runId.Some? && HasRun(store, row.runId.value) && ValidRow(row, row.generation)
    requires !row.Stopped() && row.stage in {Validation, Publication} && o.open
    requires Automated(c, o.live) && o.live.value.policy == Full
    ensures var out, records := PublishStep(c, g, store, row, o), store[row.runId.value].run.records;
            var uncounted := records != [] && records[|records| - 1].PublishFailed? && row.state != RetryDelayed;
            && out.store == store
            && (out.gen.pc == PublishCall(out.gen.row) <==> !uncounted && o.raised != ShuttingDown)
            && (uncounted ==>
                  var kind := records[|records| - 1].kind;
                  && out.gen.row.publicationId == Some(|records| - 1) && out.gen.row.publicationRetries == row.publicationRetries
                  && (out.gen.pc == Retry(out.gen.row) <==> kind == TransientCode && row.publicationRetries < 3)
                  && (out.gen.pc == Stop(out.gen.row, BlockedManual) <==> kind == BlockedCode)
                  && (out.gen.pc == Stop(out.gen.row, TerminalFailure) <==>
                        kind == OtherCode || (kind == TransientCode && row.publicationRetries >= 3)))
  {
    var records := store[row.runId.value].run.records;
    if records != [] { AdvanceAccepted(row, Publication, None, Some(|records| - 1), o.now); }
    AdvanceAccepted(row, Publication, None, None, o.now);
  }

  // ---------------------------------------------------------------- links and crash points

  /** A preallocated Run found again: an unfinished workspace is discarded, a committed Run is
      linked exactly when it is this generation's, and any other one stops it. */
  lemma ReconcileVerdict(c: Claim, g: Gen, store: Store, existing: bool, o: Obs)
    requires ValidRow(g.row, g.row.generation) && !g.row.Stopped() && g.row.runId.None? && g.row.preallocated.Some?
    ensures var out, id := Reconcile(c, g, store, g.row, existing, o), g.row.preallocated.value;
            && (id !in store ==> out == Out(g.(pc := Enqueue(g.row, existing)), store))
            && (id in store && store[id].Incomplete? ==> out == Out(g.(pc := Enqueue(g.row, existing)), store - {id}))
            && (HasRun(store, id) ==>
                  && out.store == store
                  && (Bound(c, g.row, store[id].run.header) <==>
                        out.gen.row.runId == Some(id) && out.gen.row.stage == RunStage && out.gen.pc == Enqueue(out.gen.row, existing))
                  && (!Bound(c, g.row, store[id].run.header) <==> out.gen == g.(pc := Stop(g.row, TerminalFailure))))
  {
  }

  /** Committing a Run: an exception commits nothing. */
  lemma CommitVerdict(g: Gen, store: Store, row: Row, header: RunHeader, o: Obs)
    ensures var out := CreatingStep(g, store, row, header, o);
            && (out.store != store <==> o.raised == Nothing && header.id in store && store[header.id].Incomplete?)
            && (out.store != store <==> out.gen.pc == Linking(row))
            && (o.raised != Nothing ==> out == Out(g.(pc := AfterRaise(row, o.raised)), store))
  {
    if o.raised == Nothing && header.id in store && store[header.id].Incomplete? {
      assert CreatingStep(g, store, row, header, o).store[header.id].Committed?;
    }
  }

  /** Linking: a bound Run is linked, once, and submitted exactly while it is pending. */
  lemma LinkVerdict(c: Claim, g: Gen, store: Store, o: Obs)
    requires ValidRow(g.row, g.row.generation) && !g.row.Stopped() && g.row.preallocated.Some? && HasRun(store, g.row.preallocated.value)
    requires Bound(c, g.row, store[g.row.preallocated.value].run.header) && o.raised == Nothing
    requires g.row.runId.Some? ==> g.row.runId == g.row.preallocated
    requires g.row.validationId.None? && g.row.publicationId.None?
    ensures var out, id := LinkingStep(c, g, store, g.row, o), g.row.preallocated.value;
            && out.store == store && out.gen.row.runId == Some(id) && out.gen.row.preallocated == Some(id)
            && (g.row.runId.Some? ==> out.gen.row == g.row)
            && (out.gen.pc == Submitting(g.row) <==> store[id].run.status == Pending)
            && (out.gen.pc == RunAdmitted(g.row) <==> store[id].run.status != Pending)
  {
  }

  /** A Run that already ended, and an attempt that already ended, are judged at once. */
  lemma AlreadyEnded(g: Gen, store: Store, o: Obs)
    requires ValidRow(g.row, g.row.generation) && !g.row.Stopped() && g.row.runId.Some? && HasRun(store, g.row.runId.value)
    ensures g.row.stage == RunStage ==>
              var out := RunAdmittedStep(g, store, o);
              && out.store == store && out.gen.row.stage == RunStage
              && out.gen.pc == (if store[g.row.runId.value].run.status.Final() then HandleRun(out.gen.row) else Idle)
    ensures forall a: AttemptId :: a < |store[g.row.runId.value].run.attempts| && g.row.stage == ValidationAdmission ==>
              var out := LinkValidationStep(g, store, g.row, a, o);
              && out.store == store && out.gen.row.stage == Validation && out.gen.row.validationId == Some(a)
              && out.gen.pc == (if store[g.row.runId.value].run.attempts[a] != Active && o.readable
                                then HandleValidation(out.gen.row) else Idle)
  {
    if g.row.stage == RunStage { AdvanceAccepted(g.row, RunStage, None, None, o.now); }
    forall a: AttemptId | a < |store[g.row.runId.value].run.attempts| && g.row.stage == ValidationAdmission
      ensures ValidRow(Advance(g.row, Validation, Some(a), None, o.now).row, g.row.generation)
    {
      AdvanceAccepted(g.row, Validation, Some(a), None, o.now);
    }
  }

  /** The verdict on admitting a Validation when no newer attempt is there to be followed. */
  lemma ValidationAdmissionVerdict(c: Claim, g: Gen, store: Store, o: Obs)
    requires ValidRow(g.row, g.row.generation) && !g.row.Stopped() && g.row.runId.Some? && HasRun(store, g.row.runId.value)
    requires g.row.publicationId.None? && !LinkIsStale(g.row, store[g.row.runId.value].run)
    ensures var out := AdmitValidationStep(c, g, store, g.row, o);
            var allowed := Automated(c, o.live) && o.live.value.policy in {BuildValidate, Full} && (g.row.policy == Full ==> o.live.value.policy == Full);
            var goes := o.open && allowed && o.raised != ShuttingDown;
            && out.store == store
            && (out.gen.pc == Idle <==> !o.open || (allowed && o.raised == ShuttingDown))
            && (out.gen.pc == Stop(g.row, Disabled) <==> o.open && !allowed)
            && (goes ==> out.gen.row.stage == ValidationAdmission && out.gen.pc == (if o.manager then CallAdmit(out.gen.row) else Retry(out.gen.row)))
            && (!goes ==> out.gen.row == g.row)
  {
    AdvanceAccepted(g.row, ValidationAdmission, None, None, o.now);
  }

  /** Nothing is published while admission is closed or the Recipe does not allow it. */
  lemma PublicationRefused(c: Claim, g: Gen, store: Store, row: Row, o: Obs)
    ensures !o.open ==> PublishStep(c, g, store, row, o) == Out(g.(pc := Idle), store)
    ensures o.open && !(Automated(c, o.live) && o.live.value.policy == Full) ==>
              PublishStep(c, g, store, row, o) == Out(g.(pc := Stop(row, Disabled)), store)
  {
  }
}
