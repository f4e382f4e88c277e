/** The whole automation: one ledger document, one Run store, one orchestrator with a lock
    per generation, detections and operators claiming beside it, workers finishing Runs and
    Validations, and restarts that lose everything volatile at any point. */
module AutomationSystem {
  import opened Wrappers
  import opened AutomationRow
  import opened AutomationLedger
  import opened Orchestrator
  import opened OrchestratorInvariant
  import opened RecipeTurn
  import LedgerHistory

  type Id = (Key, nat)

  datatype System = System(doc: Document, store: Store, pcs: map<Id, PC>, logs: map<Id, Log>)

  datatype Event =
    | Coordinate(op: Op)                                   // a detection or an operator retry
    | Begin(key: Key, generation: nat, due: bool)          // advance() acquires the lock
    | Step(key: Key, generation: nat, obs: Obs)            // its next atomic step
    | Restart                                              // crash, then startup recovery
    | RunProgress(id: RunId, status: RunStatus)            // the execution worker, until a final status
    | AttemptProgress(id: RunId, index: nat, outcome: Attempt)
    | ManualRun(id: RunId, run: Run)

  function GenAt(s: System, k: Key, g: nat): Gen
    requires HasRow(s.doc, k, g)
  {
    Gen(RowAt(s.doc, k, g), if (k, g) in s.pcs then s.pcs[(k, g)] else Idle,
        if (k, g) in s.logs then s.logs[(k, g)] else NO_LOG)
  }

  function PutGen(s: System, k: Key, g: nat, out: Out): System
    requires HasRow(s.doc, k, g)
  {
    System(PutRow(s.doc, k, g, out.gen.row), out.store, s.pcs[(k, g) := out.gen.pc], s.logs[(k, g) := out.gen.log])
  }

  function Recovered(records: seq<Record>): (r: seq<Record>)
    ensures |r| == |records|
    ensures forall i :: 0 <= i < |r| ==> r[i] == if records[i] == InFlight then PublishFailed(TransientCode) else records[i]
  {
    if records == [] then []
    else Recovered(records[..|records| - 1])
         + [if records[|records| - 1] == InFlight then PublishFailed(TransientCode) else records[|records| - 1]]
  }

  /** Startup terminalizes publication records that were in flight. */
  function RecoverStore(store: Store): Store {
    map id | id in store ::
      if store[id].Committed? then Committed(store[id].run.(records := Recovered(store[id].run.records))) else Incomplete
  }

  ghost function Next(cfg: Config, s: System, e: Event): System {
    match e
    case Coordinate(op) =>
      if ValidDocument(cfg, s.doc) && !IsRowOp(op) then s.(doc := Apply(cfg, s.doc, op).doc) else s
    case Begin(k, g, due) =>
      if HasRow(s.doc, k, g) && GenAt(s, k, g).pc == Idle && !RowAt(s.doc, k, g).Stopped() && due && HasTurn(s.doc, k, g)
      then s.(pcs := s.pcs[(k, g) := Dispatch(RowAt(s.doc, k, g))]) else s
    case Step(k, g, o) =>
      if HasRow(s.doc, k, g) then PutGen(s, k, g, Work(s.doc[k].ToClaim(), GenAt(s, k, g), s.store, o)) else s
    case Restart => System(s.doc, RecoverStore(s.store), map[], s.logs)
    case RunProgress(id, status) =>
      if HasRun(s.store, id) && !s.store[id].run.status.Final()
      then s.(store := s.store[id := Committed(s.store[id].run.(status := status))]) else s
    case AttemptProgress(id, i, outcome) =>
      if HasRun(s.store, id) && i < |s.store[id].run.attempts| && s.store[id].run.attempts[i] == Active
      then s.(store := s.store[id := Committed(s.store[id].run.(attempts := s.store[id].run.attempts[i := outcome]))])
      else s
    case ManualRun(id, run) =>
      if id !in s.store && run.header.id == id && run.header.automation.None?
      then s.(store := s.store[id := Committed(run)]) else s
  }

  ghost function Trace(cfg: Config, s: System, events: seq<Event>): System
    decreases |events|
  {
    if events == [] then s else Trace(cfg, Next(cfg, s, events[0]), events[1..])
  }

  // ------------------------------------------------------------------ invariant

  /** Every automated Run belongs to the row whose id it carries. */
  ghost predicate OwnedStore(d: Document, store: Store) {
    forall id :: HasRun(store, id) && store[id].run.header.automation.Some? ==>
      var p := store[id].run.header.automation.value;
      && HasRow(d, p.key, p.generation)
      && RowAt(d, p.key, p.generation).preallocated == Some(id)
      && Bound(d[p.key].ToClaim(), RowAt(d, p.key, p.generation), store[id].run.header)
  }

  ghost predicate GenOk(s: System, k: Key, g: nat)
    requires HasRow(s.doc, k, g)
  {
    var gen := GenAt(s, k, g);
    gen.row.generation == g && Inv(s.doc[k].ToClaim(), gen, RunOf(s.doc[k].ToClaim(), gen.row, s.store))
  }

  ghost predicate SystemOk(cfg: Config, s: System) {
    && ValidDocument(cfg, s.doc)
    && OwnedStore(s.doc, s.store)
    && (forall k: Key, g: nat :: HasRow(s.doc, k, g) ==> GenOk(s, k, g))
    && (forall id :: id in s.pcs || id in s.logs ==> HasRow(s.doc, id.0, id.1))
  }

  lemma KeyOf(cfg: Config, s: System, k: Key)
    requires SystemOk(cfg, s) && k in s.doc
    ensures s.doc[k].ToClaim().key == k
  {
    assert ValidEntry(cfg, k, s.doc[k]);
  }

  lemma IsReady(cfg: Config, s: System, k: Key, g: nat)
    requires SystemOk(cfg, s) && HasRow(s.doc, k, g)
    ensures Ready(s.doc[k].ToClaim(), GenAt(s, k, g), s.store)
  {
    hide Inv;
    KeyOf(cfg, s, k);
    assert GenOk(s, k, g);
  }

  /** A Run bound to one generation is bound to no other. */
  lemma BoundOnce(c: Claim, r: Row, c2: Claim, r2: Row, h: RunHeader)
    requires c.key != c2.key || r.generation != r2.generation
    ensures !(Bound(c, r, h) && Bound(c2, r2, h))
  {
  }

  lemma OthersKept(cfg: Config, s: System, k: Key, g: nat, out: Out, j: Key, h: nat)
    requires SystemOk(cfg, s) && HasRow(s.doc, k, g) && HasRow(s.doc, j, h) && (j, h) != (k, g)
    requires StepOk(s.doc[k].ToClaim(), GenAt(s, k, g), s.store, out)
    ensures HasRow(PutGen(s, k, g, out).doc, j, h) && GenOk(PutGen(s, k, g, out), j, h)
  {
    hide Inv, OnlyRun, Extends, ValidDocument, OwnedStore;
    var c2, r2 := s.doc[j].ToClaim(), RowAt(s.doc, j, h);
    assert GenOk(s, j, h) && GenOk(s, k, g);
    KeyOf(cfg, s, k);
    KeyOf(cfg, s, j);
    if r2.preallocated.Some? {
      var id := r2.preallocated.value;
      if HasRun(s.store, id) { BoundOnce(s.doc[k].ToClaim(), out.gen.row, c2, r2, s.store[id].run.header); }
      if HasRun(out.store, id) { BoundOnce(s.doc[k].ToClaim(), out.gen.row, c2, r2, out.store[id].run.header); }
    }
    assert RunOf(c2, r2, out.store) == RunOf(c2, r2, s.store);
    assert GenAt(PutGen(s, k, g, out), j, h) == GenAt(s, j, h);
  }

  lemma OwnershipKept(cfg: Config, s: System, k: Key, g: nat, out: Out)
    requires SystemOk(cfg, s) && HasRow(s.doc, k, g) && StepOk(s.doc[k].ToClaim(), GenAt(s, k, g), s.store, out)
    ensures OwnedStore(PutGen(s, k, g, out).doc, out.store)
  {
    hide Inv, ValidDocument;
    KeyOf(cfg, s, k);
    assert GenOk(s, k, g);
    var d := PutGen(s, k, g, out).doc;
    var c := s.doc[k].ToClaim();
    forall id | HasRun(out.store, id) && out.store[id].run.header.automation.Some?
      ensures var p := out.store[id].run.header.automation.value;
              && HasRow(d, p.key, p.generation) && RowAt(d, p.key, p.generation).preallocated == Some(id)
              && Bound(d[p.key].ToClaim(), RowAt(d, p.key, p.generation), out.store[id].run.header)
    {
      var p := out.store[id].run.header.automation.value;
      if !(id in s.store && s.store[id] == out.store[id]) {
        assert Carries(out.store[id].run.header, c.key, g);
      } else if p.key == k && p.generation == g {
        assert Carries(out.store[id].run.header, c.key, g);
      }
    }
  }

  lemma StepSystem(cfg: Config, s: System, k: Key, g: nat, o: Obs)
    requires SystemOk(cfg, s) && HasRow(s.doc, k, g)
    ensures SystemOk(cfg, Next(cfg, s, Step(k, g, o)))
  {
    hide Inv, Work, ValidDocument, OwnedStore;
    var c := s.doc[k].ToClaim();
    var out := Work(c, GenAt(s, k, g), s.store, o);
    var s' := PutGen(s, k, g, out);
    IsReady(cfg, s, k, g);
    WorkKeeps(c, GenAt(s, k, g), s.store, o);
    OwnershipKept(cfg, s, k, g, out);
    RowStaysValid(cfg, s, k, g, out);
    forall j: Key, h: nat | HasRow(s'.doc, j, h) ensures GenOk(s', j, h) {
      if (j, h) != (k, g) { OthersKept(cfg, s, k, g, out, j, h); }
      else { assert GenOk(s, k, g); assert GenAt(s', k, g) == out.gen; }
    }
  }

  lemma RowStaysValid(cfg: Config, s: System, k: Key, g: nat, out: Out)
    requires SystemOk(cfg, s) && HasRow(s.doc, k, g) && StepOk(s.doc[k].ToClaim(), GenAt(s, k, g), s.store, out)
    ensures ValidDocument(cfg, PutGen(s, k, g, out).doc)
  {
    assert GenOk(s, k, g);
    PutRowValid(cfg, s.doc, k, g, out.gen.row);
  }

  // ---------------------------------------------------------- the other events

  lemma DispatchOk(c: Claim, g: Gen, run: Option<Run>)
    requires Inv(c, g, run) && g.pc == Idle && !g.row.Stopped()
    ensures Inv(c, g.(pc := Dispatch(g.row)), run)
  {
  }

  lemma BeginSystem(cfg: Config, s: System, k: Key, g: nat, due: bool)
    requires SystemOk(cfg, s)
    ensures SystemOk(cfg, Next(cfg, s, Begin(k, g, due)))
  {
    hide Inv, ValidDocument, OwnedStore, Dispatch, HasTurn;
    var s' := Next(cfg, s, Begin(k, g, due));
    if s' != s {
      forall j: Key, h: nat | HasRow(s'.doc, j, h) ensures GenOk(s', j, h) {
        assert GenOk(s, j, h);
        if (j, h) == (k, g) {
          var c := s.doc[k].ToClaim();
          DispatchOk(c, GenAt(s, k, g), RunOf(c, RowAt(s.doc, k, g), s.store));
        }
      }
    }
  }

  lemma {:induction false} RecoveredFailures(records: seq<Record>)
    requires forall i :: 0 <= i < |records| && records[i] == InFlight ==> i == |records| - 1
    ensures Failures(Recovered(records)) ==
            Failures(records) + (if records != [] && records[|records| - 1] == InFlight then 1 else 0)
  {
    if records != [] {
      var prefix := records[..|records| - 1];
      assert Recovered(prefix) == prefix;
      assert Recovered(records)[..|records| - 1] == prefix;
    }
  }

  lemma RestartRecords(r: Row, run: Run, pc: PC)
    requires RecordsOk(r, run, pc) && r.publicationRetries >= 0
    requires pc.PublishRunning? ==> r.stage == Publication && r.state == Admitted
    ensures RecordsOk(r, run.(records := Recovered(run.records)), Idle)
  {
    RecoveredFailures(run.records);
  }

  lemma RestartAttempts(r: Row, run: Run, f: nat)
    requires AttemptsOk(r, run, f)
    ensures AttemptsOk(r, run.(records := Recovered(run.records)), f)
  {
    hide Recovered;
  }

  lemma RestartOk(c: Claim, g: Gen, run: Option<Run>)
    requires Inv(c, g, run)
    ensures Inv(c, g.(pc := Idle),
                if run.Some? then Some(run.value.(records := Recovered(run.value.records))) else None)
  {
    hide AttemptsOk, RecordsOk, Recovered;
    if run.Some? {
      RestartRecords(g.row, run.value, g.pc);
      RestartAttempts(g.row, run.value, g.log.failureRetries);
    }
  }

  lemma RestartSystem(cfg: Config, s: System)
    requires SystemOk(cfg, s)
    ensures SystemOk(cfg, Next(cfg, s, Restart))
  {
    hide Inv, ValidDocument, Recovered;
    var s' := Next(cfg, s, Restart);
    forall k: Key, g: nat | HasRow(s'.doc, k, g) ensures GenOk(s', k, g) {
      assert GenOk(s, k, g);
      var c := s.doc[k].ToClaim();
      RestartOk(c, GenAt(s, k, g), RunOf(c, RowAt(s.doc, k, g), s.store));
    }
  }

  /** What workers may change in a Run: its status, and the outcome of an active attempt. */
  predicate Progressed(a: Run, b: Run) {
    && a.header == b.header && a.records == b.records && |a.attempts| == |b.attempts|
    && (a.status.Final() ==> b.status == a.status)
    && forall i :: 0 <= i < |a.attempts| && a.attempts[i] != Active ==> b.attempts[i] == a.attempts[i]
  }

  lemma ProgressOk(c: Claim, g: Gen, a: Run, b: Run)
    requires Inv(c, g, Some(a)) && Progressed(a, b)
    ensures Inv(c, g, Some(b))
  {
  }

  lemma SameHeader(before: Run, after: Run)
    requires Progressed(before, after)
    ensures before.header == after.header
  {}

  lemma ProgressSystem(cfg: Config, s: System, id: RunId, run: Run)
    requires SystemOk(cfg, s) && HasRun(s.store, id) && Progressed(s.store[id].run, run)
    ensures SystemOk(cfg, s.(store := s.store[id := Committed(run)]))
  {
    hide Inv, ValidDocument, Bound, Progressed;
    var s' := s.(store := s.store[id := Committed(run)]);
    SameHeader(s.store[id].run, run);
    forall k: Key, g: nat | HasRow(s'.doc, k, g) ensures GenOk(s', k, g) {
      assert GenOk(s, k, g);
      var c, r := s.doc[k].ToClaim(), RowAt(s.doc, k, g);
      if r.preallocated == Some(id) && Bound(c, r, run.header) {
        ProgressOk(c, GenAt(s, k, g), s.store[id].run, run);
      } else {
        assert RunOf(c, r, s'.store) == RunOf(c, r, s.store);
      }
    }
  }

  lemma ManualSystem(cfg: Config, s: System, id: RunId, run: Run)
    requires SystemOk(cfg, s) && id !in s.store && run.header.automation.None?
    ensures SystemOk(cfg, s.(store := s.store[id := Committed(run)]))
  {
    hide Inv, ValidDocument;
    var s' := s.(store := s.store[id := Committed(run)]);
    forall k: Key, g: nat | HasRow(s'.doc, k, g) ensures GenOk(s', k, g) {
      assert GenOk(s, k, g);
      assert RunOf(s.doc[k].ToClaim(), RowAt(s.doc, k, g), s'.store) == RunOf(s.doc[k].ToClaim(), RowAt(s.doc, k, g), s.store);
    }
  }

  predicate NewRow(r: Row, g: nat, now: Time) {
    && r.createdAt == now && ValidRow(r, g) && (r.stage == Detection || r.stage == TerminalStage)
    && r.preallocated.None? && r.runId.None? && r.validationRetries == 0 && r.publicationRetries == 0 && !r.notified
  }

  /** The document kept every row and gained at most new ones, created now. */
  ghost predicate Added(d: Document, d': Document, now: Time) {
    && (forall k :: k in d ==> k in d' && d'[k].ToClaim() == d[k].ToClaim())
    && (forall k: Key, g: nat :: HasRow(d, k, g) ==> HasRow(d', k, g) && RowAt(d', k, g) == RowAt(d, k, g))
    && (forall k: Key, g: nat :: HasRow(d', k, g) && !HasRow(d, k, g) ==> NewRow(RowAt(d', k, g), g, now))
  }

  lemma ClaimAdds(cfg: Config, d: Document, op: Op)
    requires ValidDocument(cfg, d) && op.ClaimOp?
    ensures Added(d, ClaimCurrent(cfg, d, op).doc, op.now)
  {
    hide ValidDocument, ValidEntry, AttemptsOf, Eligible;
    assert op.policy != Manual && op.detectOnly == (op.policy == Detect) ==> NewRow(FirstRow(d, op), 0, op.now);
  }

  lemma RetryAdds(cfg: Config, d: Document, op: Op)
    requires ValidDocument(cfg, d) && op.RetryOp?
    ensures Added(d, ExplicitRetry(cfg, d, op).doc, op.now)
  {
    hide ValidDocument, IsNewest, Eligible, StateRules, StageRules;
    if op.key in d {
      LedgerHistory.RowIsValid(cfg, d, op.key, |d[op.key].generations| - 1);
      var entry := d[op.key];
      var latest := entry.generations[|entry.generations| - 1];
      var row := FreshRow(latest.policy, latest.detectedAt, |entry.generations|, op.now);
      FreshIsNew(latest, |entry.generations|, op.now);
    }
  }

  lemma FreshIsNew(latest: Row, g: nat, now: Time)
    requires ValidRow(latest, latest.generation)
    ensures NewRow(FreshRow(latest.policy, latest.detectedAt, g, now), g, now)
  {
  }

  /** A claim or an operator retry changes no existing row and adds at most one new one,
      either fresh or already stopped as a baseline. */
  lemma CoordinateAdds(cfg: Config, d: Document, op: Op)
    requires ValidDocument(cfg, d) && !IsRowOp(op)
    ensures Added(d, Apply(cfg, d, op).doc, op.now)
  {
    hide ValidDocument, Added, ClaimCurrent, ExplicitRetry;
    if op.ClaimOp? { ClaimAdds(cfg, d, op); } else { RetryAdds(cfg, d, op); }
  }

  lemma NewGenOk(c: Claim, r: Row)
    requires ValidRow(r, r.generation) && (r.stage == Detection || r.stage == TerminalStage)
    requires r.preallocated.None? && r.runId.None? && r.validationRetries == 0 && r.publicationRetries == 0 && !r.notified
    ensures Inv(c, Gen(r, Idle, NO_LOG), None)
  {
  }

  lemma CoordinateSystem(cfg: Config, s: System, op: Op)
    requires SystemOk(cfg, s) && !IsRowOp(op)
    ensures SystemOk(cfg, Next(cfg, s, Coordinate(op)))
  {
    hide Inv, ValidDocument, Apply;
    var s' := Next(cfg, s, Coordinate(op));
    CoordinateAdds(cfg, s.doc, op);
    forall k: Key, g: nat | HasRow(s'.doc, k, g) ensures GenOk(s', k, g) {
      if HasRow(s.doc, k, g) { assert GenOk(s, k, g); }
      else {
        assert (k, g) !in s.pcs && (k, g) !in s.logs;
        NewGenOk(s'.doc[k].ToClaim(), RowAt(s'.doc, k, g));
      }
    }
  }

  lemma NextOk(cfg: Config, s: System, e: Event)
    requires SystemOk(cfg, s)
    ensures SystemOk(cfg, Next(cfg, s, e))
  {
    match e
    case Coordinate(op) => if !IsRowOp(op) { CoordinateSystem(cfg, s, op); }
    case Begin(k, g, due) => BeginSystem(cfg, s, k, g, due);
    case Step(k, g, o) => if HasRow(s.doc, k, g) { StepSystem(cfg, s, k, g, o); }
    case Restart => RestartSystem(cfg, s);
    case RunProgress(id, status) =>
      if HasRun(s.store, id) && !s.store[id].run.status.Final() { ProgressSystem(cfg, s, id, s.store[id].run.(status := status)); }
    case AttemptProgress(id, i, outcome) =>
      if HasRun(s.store, id) && i < |s.store[id].run.attempts| && s.store[id].run.attempts[i] == Active {
        ProgressSystem(cfg, s, id, s.store[id].run.(attempts := s.store[id].run.attempts[i := outcome]));
      }
    case ManualRun(id, run) =>
      if id !in s.store && run.header.automation.None? { ManualSystem(cfg, s, id, run); }
  }
}
