/** The guarantees of the automation over every run: any sequence of detections, operator
    retries, orchestrator steps, worker progress and restarts, in any interleaving. */
module AutomationTheorems {
  import opened Wrappers
  import opened AutomationRow
  import opened AutomationLedger
  import opened Orchestrator
  import opened OrchestratorInvariant
  import opened RecipeTurn
  import opened AutomationSystem

  /** An empty ledger beside a store that may hold manual Runs. */
  ghost predicate Initial(s: System) {
    && s.doc == map[] && s.pcs == map[] && s.logs == map[]
    && forall id :: HasRun(s.store, id) ==> s.store[id].run.header.automation.None?
  }

  lemma InitialOk(cfg: Config, s: System)
    requires Initial(s)
    ensures SystemOk(cfg, s)
  {
    assert Recipes(s.doc) == {};
  }

  lemma {:induction false} TraceOk(cfg: Config, s: System, events: seq<Event>)
    requires SystemOk(cfg, s)
    ensures SystemOk(cfg, Trace(cfg, s, events))
    decreases |events|
  {
    hide SystemOk, Next;
    if events != [] {
      NextOk(cfg, s, events[0]);
      TraceOk(cfg, Next(cfg, s, events[0]), events[1..]);
    }
  }

  lemma ReachedOk(cfg: Config, s0: System, events: seq<Event>, k: Key, g: nat)
    requires Initial(s0)
    ensures var s := Trace(cfg, s0, events);
            && SystemOk(cfg, s)
            && (HasRow(s.doc, k, g) ==> GenOk(s, k, g) && s.doc[k].ToClaim().key == k)
  {
    hide Inv, Next;
    InitialOk(cfg, s0);
    TraceOk(cfg, s0, events);
    var s := Trace(cfg, s0, events);
    if HasRow(s.doc, k, g) { KeyOf(cfg, s, k); }
  }

  /** Exactly-once: whatever was interleaved or lost, a generation commits at most one Run, its
      id is the preallocated one, no other Run carries the generation's provenance, and a
      linked Run matches the claim's Recipe, revision, policy and identity. */
  lemma ExactlyOneRun(cfg: Config, s0: System, events: seq<Event>, k: Key, g: nat)
    requires Initial(s0)
    ensures var s := Trace(cfg, s0, events);
            && (forall a: RunId, b: RunId | HasRun(s.store, a) && HasRun(s.store, b) ::
                  Carries(s.store[a].run.header, k, g) && Carries(s.store[b].run.header, k, g) ==> a == b)
            && (forall a: RunId :: HasRun(s.store, a) && Carries(s.store[a].run.header, k, g) ==>
                  HasRow(s.doc, k, g) && RowAt(s.doc, k, g).preallocated == Some(a) && GenAt(s, k, g).log.committed == [a])
            && (HasRow(s.doc, k, g) ==>
                  var row := RowAt(s.doc, k, g);
                  && |GenAt(s, k, g).log.committed| <= 1
                  && (row.runId.Some? ==>
                        && row.runId == row.preallocated && HasRun(s.store, row.runId.value)
                        && Bound(s.doc[k].ToClaim(), row, s.store[row.runId.value].run.header)))
  {
    hide Next, PcOk, AttemptsOk, RecordsOk;
    var s := Trace(cfg, s0, events);
    ReachedOk(cfg, s0, events, k, g);
  }

  /** No stuck writes: the only save the validator ever refuses is a delayed retry whose
      counter has passed 1000. */
  lemma NoStuckWrites(cfg: Config, s0: System, events: seq<Event>, k: Key, g: nat)
    requires Initial(s0)
    ensures var s := Trace(cfg, s0, events);
            && ValidDocument(cfg, s.doc)
            && (HasRow(s.doc, k, g) ==> forall n :: n in GenAt(s, k, g).log.refused ==> n == MAX_RETRY_COUNT + 1)
  {
    hide Next, PcOk, AttemptsOk, RecordsOk;
    ReachedOk(cfg, s0, events, k, g);
  }

  /** Exactly when that happens: a delayed retry is refused, and leaves the row as it was,
      if and only if the counter of its stage already stands at 1000. */
  lemma RetryRefusedExactly(c: Claim, gen: Gen, run: Option<Run>, row: Row, o: Obs)
    requires Inv(c, gen, run) && gen.pc == Retry(row)
    ensures var after := RetryStep(gen, row, o);
            && (after.log.refused != gen.log.refused <==> RetryCountOf(row) == MAX_RETRY_COUNT + 1)
            && (after.log.refused != gen.log.refused ==> after.row == gen.row)
            && (after.log.refused == gen.log.refused ==> after.row.state == RetryDelayed)
  {
    hide AutomationRow.Finish;
    FinishFacts(gen.row, TransientRetryable, Transient, RetryCountOf(row), Some(o.notBefore), Some("code"), Some("delayed"), o.now);
  }

  predicate WithinBounds(gen: Gen, run: Option<Run>) {
    && gen.log.failureRetries <= MAX_VALIDATION_RETRIES
    && gen.row.publicationRetries <= MAX_PUBLICATION_RETRIES
    && (run.Some? ==> |run.value.attempts| <= MAX_VALIDATION_RETRIES + 1)
    && (run.Some? ==> Failures(run.value.records) <= MAX_PUBLICATION_RETRIES + 1)
    && (gen.pc.PublishCall? ==> run.Some? && Failures(run.value.records) <= gen.row.publicationRetries)
  }

  lemma InvWithinBounds(c: Claim, gen: Gen, run: Option<Run>)
    requires Inv(c, gen, run)
    ensures WithinBounds(gen, run)
  {
  }

  /** Bounded retries: at most three Validation attempts, two of them retries of a failure; at
      most three publication retries and four recorded failures; and when publish is called
      every recorded failure has been counted. */
  lemma BoundedRetries(cfg: Config, s0: System, events: seq<Event>, k: Key, g: nat)
    requires Initial(s0)
    ensures var s := Trace(cfg, s0, events);
            HasRow(s.doc, k, g) ==>
              WithinBounds(GenAt(s, k, g), RunOf(s.doc[k].ToClaim(), RowAt(s.doc, k, g), s.store))
  {
    hide Next, Inv, WithinBounds;
    ReachedOk(cfg, s0, events, k, g);
    var s := Trace(cfg, s0, events);
    if HasRow(s.doc, k, g) {
      InvWithinBounds(s.doc[k].ToClaim(), GenAt(s, k, g), RunOf(s.doc[k].ToClaim(), RowAt(s.doc, k, g), s.store));
    }
  }

  /** Outcomes are earned: on every run, a linked row stopped as a success has a Run that did
      what its policy asks for, with a succeeded newest Validation for the policies that
      validate and a proven publication for the one that publishes; a row stopped as cancelled
      has a cancelled Run or Validation; and only a succeeded Run is ever validated or
      published, under a policy that asks for it. */
  lemma OutcomesAreEarned(cfg: Config, s0: System, events: seq<Event>, k: Key, g: nat)
    requires Initial(s0)
    ensures var s := Trace(cfg, s0, events);
            HasRow(s.doc, k, g) && RowAt(s.doc, k, g).runId.Some? ==>
              var row := RowAt(s.doc, k, g);
              && HasRun(s.store, row.runId.value)
              && var run := s.store[row.runId.value].run;
                 && (row.classification == Some(Success) ==> Earned(row.policy, run))
                 && (row.classification == Some(Classification.Cancelled) ==> WasCancelled(run))
                 && (row.stage in {ValidationAdmission, Stage.Validation, Stage.Publication} ==>
                       run.status == Succeeded && row.policy in {BuildValidate, Full})
                 && (row.stage == Stage.Publication ==> row.policy == Full)
  {
    hide Next, PcOk, AttemptsOk, RecordsOk, Earned, WasCancelled;
    ReachedOk(cfg, s0, events, k, g);
  }

  // ------------------------------------------------------------- along one run

  /** From one state to a later one of the same run. */
  ghost predicate Later(s: System, t: System) {
    forall k: Key, g: nat :: HasRow(s.doc, k, g) ==>
      && HasRow(t.doc, k, g) && t.doc[k].ToClaim() == s.doc[k].ToClaim()
      && Extends(RowAt(s.doc, k, g), RowAt(t.doc, k, g))
      && (RowAt(s.doc, k, g).Stopped() ==> RowAt(t.doc, k, g).Stopped())
  }

  lemma NextLater(cfg: Config, s: System, e: Event)
    requires SystemOk(cfg, s)
    ensures Later(s, Next(cfg, s, e))
  {
    hide Inv, Work, Apply, ValidDocument, OwnedStore;
    forall k: Key, g: nat | HasRow(s.doc, k, g) ensures Extends(RowAt(s.doc, k, g), RowAt(s.doc, k, g)) {
      RowExtendsItself(cfg, s, k, g);
    }
    match e
    case Coordinate(op) => if !IsRowOp(op) { CoordinateAdds(cfg, s.doc, op); }
    case Step(k, g, o) =>
      if HasRow(s.doc, k, g) {
        IsReady(cfg, s, k, g);
        WorkKeeps(s.doc[k].ToClaim(), GenAt(s, k, g), s.store, o);
      }
    case _ =>
  }

  lemma RowExtendsItself(cfg: Config, s: System, k: Key, g: nat)
    requires SystemOk(cfg, s) && HasRow(s.doc, k, g)
    ensures Extends(RowAt(s.doc, k, g), RowAt(s.doc, k, g))
  {
    assert GenOk(s, k, g);
  }

  lemma LaterTransitive(s: System, t: System, u: System)
    requires Later(s, t) && Later(t, u)
    ensures Later(s, u)
  {
    forall k: Key, g: nat | HasRow(s.doc, k, g)
      ensures HasRow(u.doc, k, g) && u.doc[k].ToClaim() == s.doc[k].ToClaim()
      ensures Extends(RowAt(s.doc, k, g), RowAt(u.doc, k, g))
      ensures RowAt(s.doc, k, g).Stopped() ==> RowAt(u.doc, k, g).Stopped()
    {
      assert HasRow(t.doc, k, g);
    }
  }

  /** Along every run rows are never removed, their Run ids are write-once, their links are
      never cleared, and a stopped generation never resumes, notified or not. */
  lemma {:induction false} RunsAreMonotone(cfg: Config, s: System, events: seq<Event>)
    requires SystemOk(cfg, s)
    ensures Later(s, Trace(cfg, s, events))
    decreases |events|
  {
    hide SystemOk, Next, Later;
    if events == [] {
      StutterLater(cfg, s);
    } else {
      NextOk(cfg, s, events[0]);
      NextLater(cfg, s, events[0]);
      RunsAreMonotone(cfg, Next(cfg, s, events[0]), events[1..]);
      LaterTransitive(s, Next(cfg, s, events[0]), Trace(cfg, s, events));
    }
  }

  lemma StutterLater(cfg: Config, s: System)
    requires SystemOk(cfg, s)
    ensures Later(s, s)
  {
    hide Inv, ValidDocument, OwnedStore;
    forall k: Key, g: nat | HasRow(s.doc, k, g) ensures Extends(RowAt(s.doc, k, g), RowAt(s.doc, k, g)) {
      RowExtendsItself(cfg, s, k, g);
    }
  }

  /** The orchestrator announces each completion at most once, and only of a generation that has
      stopped, not cancelled or disabled, and, by RunsAreMonotone, stays stopped. Every other
      completion it marked was announced. */
  lemma AnnouncedAtMostOnce(cfg: Config, s0: System, events: seq<Event>, k: Key, g: nat)
    requires Initial(s0)
    ensures var s := Trace(cfg, s0, events);
            HasRow(s.doc, k, g) ==>
              && GenAt(s, k, g).log.announced <= 1
              && (GenAt(s, k, g).log.announced == 1 ==>
                    RowAt(s.doc, k, g).Stopped() && RowAt(s.doc, k, g).classification !in {Some(Cancelled), Some(Disabled)})
              && (RowAt(s.doc, k, g).notified && RowAt(s.doc, k, g).classification !in {Some(Cancelled), Some(Disabled)} ==>
                    GenAt(s, k, g).log.announced == 1)
  {
    hide Next, PcOk, AttemptsOk, RecordsOk;
    ReachedOk(cfg, s0, events, k, g);
  }

  /** A claim arrives strictly after everything the ledger already holds. */
  ghost predicate ClaimsLater(s: System, e: Event) {
    e.Coordinate? ==> forall k: Key, g: nat :: HasRow(s.doc, k, g) ==> RowAt(s.doc, k, g).createdAt < e.op.now
  }

  lemma TurnKeptOnce(cfg: Config, s: System, e: Event, k: Key, g: nat)
    requires SystemOk(cfg, s) && HasRow(s.doc, k, g) && !RowAt(s.doc, k, g).Stopped() && HasTurn(s.doc, k, g)
    requires ClaimsLater(s, e)
    ensures var t := Next(cfg, s, e);
            HasRow(t.doc, k, g) && (!RowAt(t.doc, k, g).Stopped() ==> HasTurn(t.doc, k, g))
  {
    hide Inv, Work, Apply, ValidDocument, OwnedStore;
    var t := Next(cfg, s, e);
    NextLater(cfg, s, e);
    if !RowAt(t.doc, k, g).Stopped() {
      var r := s.doc[k].recipeId;
      forall j, h | IsActive(t.doc, r, j, h)
        ensures (IsActive(s.doc, r, j, h) && s.doc[j].generations[h].createdAt == t.doc[j].generations[h].createdAt)
                || s.doc[k].generations[g].createdAt < t.doc[j].generations[h].createdAt
      {
        if !HasRow(s.doc, j, h) {
          if e.Coordinate? && !IsRowOp(e.op) {
            CoordinateAdds(cfg, s.doc, e.op);
            assert NewRow(RowAt(t.doc, j, h), h, e.op.now);
          }
        } else {
          assert Extends(RowAt(s.doc, j, h), RowAt(t.doc, j, h));
        }
      }
      TurnSurvives(s.doc, t.doc, k, g);
    }
  }

  /** Claims keep arriving later along a whole run. */
  ghost predicate ClaimsStayLater(cfg: Config, s: System, events: seq<Event>)
    decreases |events|
  {
    events == [] || (ClaimsLater(s, events[0]) && ClaimsStayLater(cfg, Next(cfg, s, events[0]), events[1..]))
  }

  /** The generation that holds its Recipe's turn keeps it over every run until it stops. */
  lemma {:induction false} TurnKept(cfg: Config, s: System, events: seq<Event>, k: Key, g: nat)
    requires SystemOk(cfg, s) && HasRow(s.doc, k, g) && !RowAt(s.doc, k, g).Stopped() && HasTurn(s.doc, k, g)
    requires ClaimsStayLater(cfg, s, events)
    ensures var t := Trace(cfg, s, events);
            HasRow(t.doc, k, g) && (!RowAt(t.doc, k, g).Stopped() ==> HasTurn(t.doc, k, g))
    decreases |events|
  {
    hide SystemOk, Next, HasTurn;
    if events != [] {
      var next := Next(cfg, s, events[0]);
      NextOk(cfg, s, events[0]);
      TurnKeptOnce(cfg, s, events[0], k, g);
      if !RowAt(next.doc, k, g).Stopped() {
        TurnKept(cfg, next, events[1..], k, g);
      } else {
        RunsAreMonotone(cfg, next, events[1..]);
        assert HasRow(Trace(cfg, s, events).doc, k, g);
      }
    }
  }

  /** The generation is being worked on: its lock is held and it has not stopped. */
  ghost predicate AtWork(s: System, k: Key, g: nat) {
    HasRow(s.doc, k, g) && GenAt(s, k, g).pc != Idle && !RowAt(s.doc, k, g).Stopped()
  }

  /** Whatever is being worked on has its Recipe's turn. */
  ghost predicate WorkHasTurn(s: System) {
    forall k: Key, g: nat :: AtWork(s, k, g) ==> HasTurn(s.doc, k, g)
  }

  /** Work is begun by taking the lock with the turn, and nothing else begins it. */
  lemma WorkBegins(cfg: Config, s: System, e: Event, k: Key, g: nat)
    requires SystemOk(cfg, s) && AtWork(Next(cfg, s, e), k, g)
    ensures HasRow(s.doc, k, g)
    ensures AtWork(s, k, g) || (e.Begin? && e.key == k && e.generation == g && HasTurn(s.doc, k, g) && Next(cfg, s, e).doc == s.doc)
  {
    hide Inv, HasTurn, ValidDocument, OwnedStore, Apply, RecoverStore;
    NextLater(cfg, s, e);
    var t := Next(cfg, s, e);
    if e.Step? && HasRow(s.doc, e.key, e.generation) && (e.key, e.generation) == (k, g) {
      IdleStaysIdle(s.doc[k].ToClaim(), GenAt(s, k, g), s.store, e.obs);
    }
    assert (k, g) in t.pcs;
  }

  lemma IdleStaysIdle(c: Claim, gen: Gen, store: Store, o: Obs)
    ensures gen.pc == Idle ==> Work(c, gen, store, o).gen.pc == Idle
  {}

  lemma WorkKeepsTurn(cfg: Config, s: System, e: Event)
    requires SystemOk(cfg, s) && WorkHasTurn(s) && ClaimsLater(s, e)
    ensures WorkHasTurn(Next(cfg, s, e))
  {
    hide SystemOk, Next, HasTurn;
    var t := Next(cfg, s, e);
    forall k: Key, g: nat | AtWork(t, k, g) ensures HasTurn(t.doc, k, g) {
      WorkBegins(cfg, s, e, k, g);
      if AtWork(s, k, g) { TurnKeptOnce(cfg, s, e, k, g); }
    }
  }

  lemma {:induction false} WorkKeepsTurnAlong(cfg: Config, s: System, events: seq<Event>)
    requires SystemOk(cfg, s) && WorkHasTurn(s) && ClaimsStayLater(cfg, s, events)
    ensures WorkHasTurn(Trace(cfg, s, events))
    decreases |events|
  {
    hide SystemOk, Next, WorkHasTurn, ClaimsLater;
    if events != [] {
      NextOk(cfg, s, events[0]);
      WorkKeepsTurn(cfg, s, events[0]);
      WorkKeepsTurnAlong(cfg, Next(cfg, s, events[0]), events[1..]);
    }
  }

  /** Mutual exclusion: with claims arriving strictly later, no two generations of one Recipe
      are ever worked on at the same time. */
  lemma OneWorksAtATime(cfg: Config, s0: System, events: seq<Event>, k: Key, g: nat, j: Key, h: nat)
    requires Initial(s0) && ClaimsStayLater(cfg, s0, events)
    ensures var s := Trace(cfg, s0, events);
            AtWork(s, k, g) && AtWork(s, j, h) && s.doc[k].recipeId == s.doc[j].recipeId ==> k == j && g == h
  {
    hide Next, ClaimsStayLater;
    InitialOk(cfg, s0);
    assert WorkHasTurn(s0);
    WorkKeepsTurnAlong(cfg, s0, events);
    var s := Trace(cfg, s0, events);
    if AtWork(s, k, g) && AtWork(s, j, h) && s.doc[k].recipeId == s.doc[j].recipeId {
      assert IsActive(s.doc, s.doc[k].recipeId, k, g);
      var k1, g1 := TurnIsExclusive(s.doc, k, g);
    }
  }
}
