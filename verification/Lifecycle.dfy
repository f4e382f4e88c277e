/** The whole lifecycle of one undisturbed generation: claimed, built, validated and published
    as far as its policy asks, stopped as a success, announced and marked. */
module Lifecycle {
  import opened Wrappers
  import opened AutomationRow
  import opened Orchestrator
  import opened OrchestratorInvariant
  import opened OrchestratorDecisions
  import AutomationLedger

  /** Nothing goes wrong: admission is open, the Recipe is as it was claimed, nothing raises. */
  predicate Calm(c: Claim, policy: Policy, o: Obs) {
    && o.open && o.readable && o.manager && o.raised == Nothing && o.admission == AdmitNew && o.outcome == Published(true)
    && o.live == Some(AutomationLedger.Recipe(c.recipeId, c.sha, true, true, policy))
  }

  /** Some steps of the orchestrator under the same observations. */
  function Steps(c: Claim, g: Gen, store: Store, o: Obs, n: nat): Out
    decreases n
  {
    if n == 0 then Out(g, store) else var out := Work(c, g, store, o); Steps(c, out.gen, out.store, o, n - 1)
  }

  /** The next visit of a generation that was left idle. */
  function Visit(c: Claim, g: Gen, store: Store, o: Obs, n: nat): Out {
    Steps(c, g.(pc := Dispatch(g.row)), store, o, n)
  }

  function SetRun(store: Store, id: RunId, run: Run): Store { store[id := Committed(run)] }

  lemma SetTwice(store: Store, id: RunId, a: Run, b: Run)
    ensures SetRun(SetRun(store, id, a), id, b) == SetRun(store, id, b)
  {
  }

  /** The Run as it was admitted, and with its outcomes. */
  function AdmittedRun(c: Claim, row: Row, id: RunId): Run {
    Run(RunHeader(id, c.recipeId, c.sha, Some(Provenance(c.key, row.generation, row.policy, c.identity))),
        row.policy == Test, None, Queued, [], [])
  }

  function BuiltRun(c: Claim, row: Row, id: RunId): Run {
    AdmittedRun(c, row, id).(status := if row.policy == Test then Prepared else Succeeded)
  }

  /** From the claim on: admission, the worker's result, and, where the policy goes on, a
      Validation, its result and the publication. */
  function Lifecycle(c: Claim, row: Row, store: Store, o: Obs): Out {
    var id := o.candidate;
    var admitted := Visit(c, Gen(row, Idle, NO_LOG), store, o, 6);
    var built := SetRun(admitted.store, id, BuiltRun(c, row, id));
    var handled := Visit(c, admitted.gen, built, o, 4);
    if row.policy in {Test, Build} then handled
    else
      var validated := SetRun(handled.store, id, BuiltRun(c, row, id).(attempts := [AttemptSucceeded]));
      Visit(c, handled.gen, validated, o, if row.policy == BuildValidate then 4 else 8)
  }

  /** Stopped as a success, announced once and marked. */
  predicate Completed(g: Gen, id: RunId) {
    && g.pc == Idle && g.log == Log([id], 1, 0, []) && g.row.Stopped() && g.row.classification == Some(Success)
    && g.row.notified && g.row.runId == Some(id)
  }

  // ------------------------------------------------------------------- admission

  function Preallocated(row: Row, o: Obs): Row {
    row.(preallocated := Some(o.candidate), state := RunPreallocated, stage := RunAdmission, updatedAt := o.now)
  }

  function Linked(row: Row, o: Obs): Row {
    row.(preallocated := Some(o.candidate), runId := Some(o.candidate), state := Admitted, stage := RunStage, updatedAt := o.now)
  }

  /** A claim that may be built, and room for its Run. */
  ghost predicate Buildable(c: Claim, row: Row, store: Store, o: Obs) {
    && row.policy in {Test, Build, BuildValidate, Full} && row == FreshRow(row.policy, row.detectedAt, row.generation, row.createdAt)
    && Calm(c, row.policy, o) && o.candidate !in store
    && forall id :: HasRun(store, id) ==> !Builds(c, row, store[id].run)
  }

  lemma RunIsAllocated(c: Claim, row: Row, store: Store, o: Obs)
    requires Buildable(c, row, store, o)
    ensures var w := Preallocated(row, o);
            Work(c, Gen(row, AdmitRun(row, false), NO_LOG), store, o) == Out(Gen(w, Enqueue(w, false), NO_LOG), store)
  {
  }

  lemma RunIsReserved(c: Claim, row: Row, store: Store, o: Obs)
    requires Buildable(c, row, store, o)
    ensures var w, run := Preallocated(row, o), AdmittedRun(c, row, o.candidate);
            Work(c, Gen(w, Enqueue(w, false), NO_LOG), store, o)
              == Out(Gen(w, Creating(w, run.header), NO_LOG), store[o.candidate := Incomplete])
  {
  }

  lemma RunIsCommitted(c: Claim, row: Row, store: Store, o: Obs)
    requires Buildable(c, row, store, o)
    ensures var w, run := Preallocated(row, o), AdmittedRun(c, row, o.candidate);
            Work(c, Gen(w, Creating(w, run.header), NO_LOG), store[o.candidate := Incomplete], o)
              == Out(Gen(w, Linking(w), Log([o.candidate], 0, 0, [])), SetRun(store, o.candidate, run.(status := Pending)))
  {
    assert NO_LOG.committed + [o.candidate] == [o.candidate];
    assert store[o.candidate := Incomplete][o.candidate := Committed(AdmittedRun(c, row, o.candidate).(status := Pending))]
           == SetRun(store, o.candidate, AdmittedRun(c, row, o.candidate).(status := Pending));
  }

  lemma RunIsLinked(c: Claim, row: Row, store: Store, o: Obs)
    requires Buildable(c, row, store, o)
    ensures var w, l, log := Preallocated(row, o), Linked(row, o), Log([o.candidate], 0, 0, []);
            var pending := SetRun(store, o.candidate, AdmittedRun(c, row, o.candidate).(status := Pending));
            Work(c, Gen(w, Linking(w), log), pending, o) == Out(Gen(l, Submitting(w), log), pending)
  {
  }

  lemma RunIsSubmitted(c: Claim, row: Row, store: Store, o: Obs)
    requires Buildable(c, row, store, o)
    ensures var w, l, log, run := Preallocated(row, o), Linked(row, o), Log([o.candidate], 0, 0, []), AdmittedRun(c, row, o.candidate);
            Work(c, Gen(l, Submitting(w), log), SetRun(store, o.candidate, run.(status := Pending)), o)
              == Out(Gen(l, RunAdmitted(w), log), SetRun(store, o.candidate, run))
  {
    var run := AdmittedRun(c, row, o.candidate);
    assert SetRun(SetRun(store, o.candidate, run.(status := Pending)), o.candidate, run) == SetRun(store, o.candidate, run);
  }

  lemma RunIsAwaited(c: Claim, row: Row, store: Store, o: Obs)
    requires Buildable(c, row, store, o)
    ensures var w, l, log, queued := Preallocated(row, o), Linked(row, o), Log([o.candidate], 0, 0, []),
                                     SetRun(store, o.candidate, AdmittedRun(c, row, o.candidate));
            Work(c, Gen(l, RunAdmitted(w), log), queued, o) == Out(Gen(l, Idle, log), queued) && ValidRow(l, row.generation)
  {
  }

  lemma Admission(c: Claim, row: Row, store: Store, o: Obs)
    requires Buildable(c, row, store, o)
    ensures Visit(c, Gen(row, Idle, NO_LOG), store, o, 6)
         == Out(Gen(Linked(row, o), Idle, Log([o.candidate], 0, 0, [])), SetRun(store, o.candidate, AdmittedRun(c, row, o.candidate)))
    ensures ValidRow(Linked(row, o), row.generation)
  {
    RunIsAwaited(c, row, store, o);
    assert Dispatch(row) == AdmitRun(row, false);
    hide Work, Linked, Preallocated, AdmittedRun, ValidRow;
    RunIsAllocated(c, row, store, o);
    RunIsReserved(c, row, store, o);
    RunIsCommitted(c, row, store, o);
    RunIsLinked(c, row, store, o);
    RunIsSubmitted(c, row, store, o);
    SixSteps(c, Gen(row, AdmitRun(row, false), NO_LOG), store, o);
  }

  lemma SixSteps(c: Claim, g: Gen, store: Store, o: Obs)
    ensures var o1 := Work(c, g, store, o);
            var o2 := Work(c, o1.gen, o1.store, o);
            var o3 := Work(c, o2.gen, o2.store, o);
            var o4 := Work(c, o3.gen, o3.store, o);
            var o5 := Work(c, o4.gen, o4.store, o);
            Steps(c, g, store, o, 6) == Work(c, o5.gen, o5.store, o)
  {
    hide Work;
    var o1 := Work(c, g, store, o);
    var o2 := Work(c, o1.gen, o1.store, o);
    FourSteps(c, o2.gen, o2.store, o);
    assert Steps(c, o1.gen, o1.store, o, 5) == Steps(c, o2.gen, o2.store, o, 4);
  }

  lemma FourSteps(c: Claim, g: Gen, store: Store, o: Obs)
    ensures var o1 := Work(c, g, store, o);
            var o2 := Work(c, o1.gen, o1.store, o);
            var o3 := Work(c, o2.gen, o2.store, o);
            Steps(c, g, store, o, 4) == Work(c, o3.gen, o3.store, o)
  {
    hide Work;
    var o1 := Work(c, g, store, o);
    var o2 := Work(c, o1.gen, o1.store, o);
    var o3 := Work(c, o2.gen, o2.store, o);
    assert Steps(c, o1.gen, o1.store, o, 3) == Steps(c, o2.gen, o2.store, o, 2);
    assert Steps(c, o2.gen, o2.store, o, 2) == Steps(c, o3.gen, o3.store, o, 1);
    var o4 := Work(c, o3.gen, o3.store, o);
    assert Steps(c, o3.gen, o3.store, o, 1) == Steps(c, o4.gen, o4.store, o, 0);
  }

  // ------------------------------------------------------------------ completion

  /** A generation that is stopped is announced, unless it was cancelled or disabled, and marked. */
  lemma CompletionAnnounced(c: Claim, g: Gen, store: Store, o: Obs, cls: Classification)
    requires g.pc == Stop(g.row, cls) && ValidRow(g.row, g.row.generation) && !g.row.Stopped() && cls != TransientRetryable
    ensures var out := Steps(c, g, store, o, 3);
            && out.store == store && out.gen.pc == Idle && out.gen.row.Stopped() && out.gen.row.classification == Some(cls)
            && out.gen.row.notified && out.gen.row.runId == g.row.runId && out.gen.row.policy == g.row.policy
            && out.gen.log == g.log.(announced := g.log.announced + (if cls in {Cancelled, Disabled} then 0 else 1))
  {
    hide ValidRow, StopStep, MarkStep;
    Stopping(g, cls, o);
    var g1 := StopStep(g, g.row, cls, o);
    var g2 := AnnounceStep(g1, cls);
    Marking(g2, o);
    assert Steps(c, g2, store, o, 1) == Steps(c, MarkStep(g2, o), store, o, 0);
    assert Steps(c, g1, store, o, 2) == Steps(c, g2, store, o, 1);
  }

  lemma Stopping(g: Gen, cls: Classification, o: Obs)
    requires g.pc == Stop(g.row, cls) && ValidRow(g.row, g.row.generation) && !g.row.Stopped() && cls != TransientRetryable
    ensures var g1 := StopStep(g, g.row, cls, o);
            && g1.pc == Announce(cls) && g1.log == g.log && ValidRow(g1.row, g1.row.generation) && g1.row.Stopped() && !g1.row.notified
            && g1.row.classification == Some(cls) && g1.row.runId == g.row.runId && g1.row.policy == g.row.policy
  {
    hide ValidRow;
    ActiveFacts(g.row);
    FinishFacts(g.row, cls, if cls == BlockedManual then Operator else NoRetry, g.row.retryCount, None,
                Some("code"), Some("finished"), o.now);
  }

  lemma Marking(g: Gen, o: Obs)
    requires g.pc == Mark && ValidRow(g.row, g.row.generation) && g.row.Stopped() && !g.row.notified
    ensures MarkStep(g, o) == g.(pc := Idle, row := g.row.(notified := true, updatedAt := o.now))
  {
    hide ValidRow;
    MarkedValid(g.row, o.now);
  }

  lemma ActiveFacts(r: Row)
    requires ValidRow(r, r.generation) && !r.Stopped()
    ensures !r.notified && 0 <= r.retryCount <= MAX_RETRY_COUNT
  {
  }

  lemma MarkedValid(r: Row, now: Time)
    requires ValidRow(r, r.generation) && r.Stopped()
    ensures ValidRow(r.(notified := true, updatedAt := now), r.generation)
  {
  }

  lemma OneThenThree(c: Claim, g: Gen, store: Store, o: Obs)
    ensures var o1 := Work(c, g, store, o); Steps(c, g, store, o, 4) == Steps(c, o1.gen, o1.store, o, 3)
  {
  }

  // ----------------------------------------------------------------- the last visits

  function Validating(row: Row, o: Obs): Row { Linked(row, o).(stage := Validation, validationId := Some(0)) }

  function Publishing(row: Row, o: Obs): Row { Validating(row, o).(stage := Publication) }

  lemma BuiltOnly(c: Claim, row: Row, store: Store, o: Obs)
    requires Buildable(c, row, store, o) && row.policy in {Test, Build}
    ensures var built := SetRun(store, o.candidate, BuiltRun(c, row, o.candidate));
            var out := Visit(c, Gen(Linked(row, o), Idle, Log([o.candidate], 0, 0, [])), built, o, 4);
            Completed(out.gen, o.candidate) && out.store == built
  {
    var built := SetRun(store, o.candidate, BuiltRun(c, row, o.candidate));
    var l := Linked(row, o);
    var g := Gen(l, HandleRun(l), Log([o.candidate], 0, 0, []));
    RunIsAwaited(c, row, store, o);
    RunIsJudged(c, row, store, o);
    assert l.runId == Some(o.candidate) && !l.Stopped() && l.generation == row.generation && Dispatch(l) == HandleRun(l);
    hide Work, Linked, BuiltRun, ValidRow, Steps, Buildable;
    OneThenThree(c, g, built, o);
    CompletionAnnounced(c, g.(pc := Stop(l, Success)), built, o, Success);
  }

  lemma RunIsJudged(c: Claim, row: Row, store: Store, o: Obs)
    requires Buildable(c, row, store, o)
    ensures var built, l := SetRun(store, o.candidate, BuiltRun(c, row, o.candidate)), Linked(row, o);
            var g := Gen(l, HandleRun(l), Log([o.candidate], 0, 0, []));
            Work(c, g, built, o) == Out(g.(pc := if row.policy in {Test, Build} then Stop(l, Success) else AdmitValidation(l)), built)
  {
  }

  lemma ValidationRequested(c: Claim, row: Row, store: Store, o: Obs)
    requires Buildable(c, row, store, o) && row.policy in {BuildValidate, Full}
    ensures var built := SetRun(store, o.candidate, BuiltRun(c, row, o.candidate));
            var log := Log([o.candidate], 0, 0, []);
            Visit(c, Gen(Linked(row, o), Idle, log), built, o, 4)
              == Out(Gen(Validating(row, o), Idle, log), SetRun(store, o.candidate, BuiltRun(c, row, o.candidate).(attempts := [Active])))
  {
    var run := BuiltRun(c, row, o.candidate);
    var built, log := SetRun(store, o.candidate, run), Log([o.candidate], 0, 0, []);
    var l := Linked(row, o);
    var w := l.(stage := ValidationAdmission);
    var g0 := Gen(l, HandleRun(l), log);
    RunIsJudged(c, row, store, o);
    ValidationOpened(c, row, store, o);
    ValidationAdmitted(c, row, store, o);
    ValidationLinked(c, row, store, o);
    assert Dispatch(l) == HandleRun(l);
    hide Work, Linked, Validating, BuiltRun, Buildable, Steps;
    FourSteps(c, g0, built, o);
  }

  lemma ValidationOpened(c: Claim, row: Row, store: Store, o: Obs)
    requires Buildable(c, row, store, o) && row.policy in {BuildValidate, Full}
    ensures var built, log, l := SetRun(store, o.candidate, BuiltRun(c, row, o.candidate)), Log([o.candidate], 0, 0, []), Linked(row, o);
            var w := l.(stage := ValidationAdmission);
            Work(c, Gen(l, AdmitValidation(l), log), built, o) == Out(Gen(w, CallAdmit(w), log), built)
  {
  }

  lemma ValidationAdmitted(c: Claim, row: Row, store: Store, o: Obs)
    requires Buildable(c, row, store, o) && row.policy in {BuildValidate, Full}
    ensures var run, log, w := BuiltRun(c, row, o.candidate), Log([o.candidate], 0, 0, []), Linked(row, o).(stage := ValidationAdmission);
            Work(c, Gen(w, CallAdmit(w), log), SetRun(store, o.candidate, run), o)
              == Out(Gen(w, LinkValidation(w, 0), log), SetRun(store, o.candidate, run.(attempts := [Active])))
  {
    hide ValidRow;
    var run := BuiltRun(c, row, o.candidate);
    assert run.attempts + [Active] == [Active];
    SetTwice(store, o.candidate, run, run.(attempts := [Active]));
  }

  lemma ValidationLinked(c: Claim, row: Row, store: Store, o: Obs)
    requires Buildable(c, row, store, o) && row.policy in {BuildValidate, Full}
    ensures var log, w := Log([o.candidate], 0, 0, []), Linked(row, o).(stage := ValidationAdmission);
            var active := SetRun(store, o.candidate, BuiltRun(c, row, o.candidate).(attempts := [Active]));
            Work(c, Gen(w, LinkValidation(w, 0), log), active, o) == Out(Gen(Validating(row, o), Idle, log), active)
  {
  }

  lemma ValidatedOnly(c: Claim, row: Row, store: Store, o: Obs)
    requires Buildable(c, row, store, o) && row.policy == BuildValidate
    ensures var validated := SetRun(store, o.candidate, BuiltRun(c, row, o.candidate).(attempts := [AttemptSucceeded]));
            var out := Visit(c, Gen(Validating(row, o), Idle, Log([o.candidate], 0, 0, [])), validated, o, 4);
            Completed(out.gen, o.candidate) && out.store == validated
  {
    var validated := SetRun(store, o.candidate, BuiltRun(c, row, o.candidate).(attempts := [AttemptSucceeded]));
    var v := Validating(row, o);
    var g := Gen(v, HandleValidation(v), Log([o.candidate], 0, 0, []));
    assert Work(c, g, validated, o) == Out(g.(pc := Stop(v, Success)), validated);
    OneThenThree(c, g, validated, o);
    CompletionAnnounced(c, g.(pc := Stop(v, Success)), validated, o, Success);
  }

  lemma PublicationCalled(c: Claim, row: Row, store: Store, o: Obs)
    requires Buildable(c, row, store, o) && row.policy == Full
    ensures var run, log := BuiltRun(c, row, o.candidate).(attempts := [AttemptSucceeded]), Log([o.candidate], 0, 0, []);
            var v, w, validated := Validating(row, o), Publishing(row, o), SetRun(store, o.candidate, run);
            && Work(c, Gen(v, HandleValidation(v), log), validated, o) == Out(Gen(v, Publish(v), log), validated)
            && Work(c, Gen(v, Publish(v), log), validated, o) == Out(Gen(w, PublishCall(w), log), validated)
  {
  }

  lemma PublicationRecorded(c: Claim, row: Row, store: Store, o: Obs)
    requires Buildable(c, row, store, o) && row.policy == Full
    ensures var run, log, w := BuiltRun(c, row, o.candidate).(attempts := [AttemptSucceeded]), Log([o.candidate], 0, 0, []), Publishing(row, o);
            var running, done := SetRun(store, o.candidate, run.(records := [InFlight])),
                                 SetRun(store, o.candidate, run.(records := [Published(true)]));
            && Work(c, Gen(w, PublishCall(w), log), SetRun(store, o.candidate, run), o) == Out(Gen(w, PublishRunning(w, 0), log), running)
            && Work(c, Gen(w, PublishRunning(w, 0), log), running, o) == Out(Gen(w, PublishDone(w, 0), log), done)
  {
    hide ValidRow;
    var run := BuiltRun(c, row, o.candidate).(attempts := [AttemptSucceeded]);
    assert run.records + [InFlight] == [InFlight] && [InFlight][0 := Published(true)] == [Published(true)];
    SetTwice(store, o.candidate, run, run.(records := [InFlight]));
    SetTwice(store, o.candidate, run.(records := [InFlight]), run.(records := [Published(true)]));
  }

  lemma PublicationJudged(c: Claim, row: Row, store: Store, o: Obs)
    requires Buildable(c, row, store, o) && row.policy == Full
    ensures var run, log := BuiltRun(c, row, o.candidate).(attempts := [AttemptSucceeded]), Log([o.candidate], 0, 0, []);
            var w, x := Publishing(row, o), Publishing(row, o).(publicationId := Some(0));
            var done := SetRun(store, o.candidate, run.(records := [Published(true)]));
            && Work(c, Gen(w, PublishDone(w, 0), log), done, o) == Out(Gen(x, Stop(x, Success), log), done)
            && ValidRow(x, row.generation)
  {
  }

  lemma PublishedToo(c: Claim, row: Row, store: Store, o: Obs)
    requires Buildable(c, row, store, o) && row.policy == Full
    ensures var run := BuiltRun(c, row, o.candidate).(attempts := [AttemptSucceeded]);
            var out := Visit(c, Gen(Validating(row, o), Idle, Log([o.candidate], 0, 0, [])), SetRun(store, o.candidate, run), o, 8);
            Completed(out.gen, o.candidate) && out.store == SetRun(store, o.candidate, run.(records := [Published(true)]))
  {
    var run, log := BuiltRun(c, row, o.candidate).(attempts := [AttemptSucceeded]), Log([o.candidate], 0, 0, []);
    var v, x := Validating(row, o), Publishing(row, o).(publicationId := Some(0));
    var validated, done := SetRun(store, o.candidate, run), SetRun(store, o.candidate, run.(records := [Published(true)]));
    PublicationCalled(c, row, store, o);
    PublicationRecorded(c, row, store, o);
    PublicationJudged(c, row, store, o);
    assert x.policy == row.policy && x.runId == Some(o.candidate) && !x.Stopped() && x.generation == row.generation;
    assert Dispatch(v) == HandleValidation(v);
    hide Work, Validating, Publishing, BuiltRun, ValidRow;
    FiveThenThree(c, Gen(v, HandleValidation(v), log), validated, o);
    CompletionAnnounced(c, Gen(x, Stop(x, Success), log), done, o, Success);
  }

  lemma FiveThenThree(c: Claim, g: Gen, store: Store, o: Obs)
    ensures var o1 := Work(c, g, store, o);
            var o2 := Work(c, o1.gen, o1.store, o);
            var o3 := Work(c, o2.gen, o2.store, o);
            var o4 := Work(c, o3.gen, o3.store, o);
            var o5 := Work(c, o4.gen, o4.store, o);
            Steps(c, g, store, o, 8) == Steps(c, o5.gen, o5.store, o, 3)
  {
    hide Work;
    var o1 := Work(c, g, store, o);
    var o2 := Work(c, o1.gen, o1.store, o);
    var o3 := Work(c, o2.gen, o2.store, o);
    assert Steps(c, o1.gen, o1.store, o, 7) == Steps(c, o2.gen, o2.store, o, 6);
    assert Steps(c, o2.gen, o2.store, o, 6) == Steps(c, o3.gen, o3.store, o, 5);
    var o4 := Work(c, o3.gen, o3.store, o);
    assert Steps(c, o3.gen, o3.store, o, 5) == Steps(c, o4.gen, o4.store, o, 4);
    OneThenThree(c, o4.gen, o4.store, o);
  }

  /** The Run that a lifecycle leaves behind. */
  function LastRun(c: Claim, row: Row, id: RunId): Run {
    BuiltRun(c, row, id).(attempts := if row.policy in {BuildValidate, Full} then [AttemptSucceeded] else [],
                          records := if row.policy == Full then [Published(true)] else [])
  }

  lemma LifecycleEnds(c: Claim, row: Row, store: Store, o: Obs)
    requires Buildable(c, row, store, o)
    ensures var out := Lifecycle(c, row, store, o);
            Completed(out.gen, o.candidate) && out.store == SetRun(store, o.candidate, LastRun(c, row, o.candidate))
  {
    var id, run := o.candidate, BuiltRun(c, row, o.candidate);
    assert run.attempts == [] && run.records == [];
    assert row.policy in {BuildValidate, Full} || row.policy in {Test, Build};
    hide Visit, Work, Linked, Validating, Buildable, ValidRow, BuiltRun, AdmittedRun, SetRun, Completed;
    Admission(c, row, store, o);
    SetTwice(store, id, AdmittedRun(c, row, id), run);
    SetTwice(store, id, run.(attempts := [Active]), run.(attempts := [AttemptSucceeded]));
    if row.policy in {Test, Build} {
      BuiltOnly(c, row, store, o);
    } else {
      ValidationRequested(c, row, store, o);
      if row.policy == BuildValidate { ValidatedOnly(c, row, store, o); } else { PublishedToo(c, row, store, o); }
    }
  }

  /** Whatever is stored beside it: a claim that nothing disturbs is built, validated and
      published as far as its policy asks, by one Run, and stops as a success that stands on
      all of that, announced once and marked, with no save refused. */
  lemma UndisturbedLifecycle(c: Claim, row: Row, store: Store, o: Obs)
    requires Buildable(c, row, store, o)
    ensures var out := Lifecycle(c, row, store, o);
            && Completed(out.gen, o.candidate) && HasRun(out.store, o.candidate)
            && Earned(row.policy, out.store[o.candidate].run)
            && (forall id :: id in store ==> id in out.store && out.store[id] == store[id])
            && out.store.Keys == store.Keys + {o.candidate}
  {
    hide Lifecycle;
    LifecycleEnds(c, row, store, o);
  }
}
