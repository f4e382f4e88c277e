/** The one save the validator refuses, on a run: a Recipe whose Run admission keeps meeting
    a full queue is delayed a thousand times, and the next delay cannot be written. */
module RetryExhaustion {
  import opened Wrappers
  import opened AutomationRow
  import opened AutomationLedger
  import opened Orchestrator
  import opened RecipeTurn
  import opened AutomationSystem
  import AutomationTheorems
  import LedgerHistory

  const RECIPE := Recipe("recipe", "sha", true, true, Policy.Build)
  const INPUTS := Inputs("recipe", "identity", "sha")
  const DETECTED := Coordinate(ClaimOp(Some(RECIPE), INPUTS, Policy.Build, false, 0, false, 0))
  const FINE := Obs(true, Some(RECIPE), RECIPE, true, true, Nothing, AdmitNew, InFlight, 1, 0, 0)
  const QUEUE_FULL := FINE.(raised := RaisedTransient)
  const EMPTY := System(map[], map[], map[], map[])

  /** One visit of the generation: due, admitted as far as the queue, refused there, delayed. */
  function Visit(k: Key): seq<Event> {
    [Begin(k, 0, true), Step(k, 0, FINE), Step(k, 0, QUEUE_FULL), Step(k, 0, FINE)]
  }

  function Visits(k: Key, n: nat): seq<Event> {
    if n == 0 then [DETECTED] else Visits(k, n - 1) + Visit(k)
  }

  /** The system holds this generation and nothing else. */
  ghost predicate Alone(s: System, k: Key, g: Gen) {
    && s.doc == map[k := Entry(k, INPUTS.recipeId, INPUTS.sha, INPUTS.identity, [g.row])]
    && s.store == map[] && GenAt(s, k, 0) == g
  }

  /** Not admitted yet and delayed `n` times. */
  predicate Delayed(g: Gen, n: nat) {
    && g.pc == Idle && g.log == NO_LOG && ValidRow(g.row, 0) && g.row.policy == Policy.Build
    && g.row.runId.None? && g.row.runRetries == n
    && (if n == 0 then g.row.state == Claimed && g.row.stage == AutomationRow.Detection && g.row.preallocated.None?
        else g.row.state == RetryDelayed && g.row.stage == RunAdmission && g.row.preallocated == Some(1))
  }

  lemma {:induction false} TraceAppend(cfg: Config, s: System, a: seq<Event>, b: seq<Event>)
    ensures Trace(cfg, s, a + b) == Trace(cfg, Trace(cfg, s, a), b)
    decreases |a|
  {
    hide Next;
    if a == [] {
      assert a + b == b;
    } else {
      assert (a + b)[1..] == a[1..] + b;
      TraceAppend(cfg, Next(cfg, s, a[0]), a[1..], b);
    }
  }

  lemma BeginAlone(cfg: Config, s: System, k: Key, g: Gen)
    requires Alone(s, k, g) && g.pc == Idle && !g.row.Stopped()
    ensures Alone(Next(cfg, s, Begin(k, 0, true)), k, g.(pc := Dispatch(g.row)))
  {
    hide Dispatch;
    assert HasTurn(s.doc, k, 0) by { assert IsActive(s.doc, INPUTS.recipeId, k, 0); }
  }

  lemma StepAlone(cfg: Config, s: System, k: Key, g: Gen, o: Obs, out: Out)
    requires Alone(s, k, g) && out.store == map[]
    requires out == Work(Claim(k, INPUTS.recipeId, INPUTS.sha, INPUTS.identity), g, map[], o)
    ensures Alone(Next(cfg, s, Step(k, 0, o)), k, out.gen)
  {
    hide Work;
    assert s.doc[k].ToClaim() == Claim(k, INPUTS.recipeId, INPUTS.sha, INPUTS.identity);
    assert [g.row][0 := out.gen.row] == [out.gen.row];
    var t := Next(cfg, s, Step(k, 0, o));
    assert t == PutGen(s, k, 0, out) && t.doc == map[k := Entry(k, INPUTS.recipeId, INPUTS.sha, INPUTS.identity, [out.gen.row])];
  }

  /** The three steps of a visit, as one generation sees them. */
  function AfterVisit(k: Key, g: Gen): Gen {
    var c := Claim(k, INPUTS.recipeId, INPUTS.sha, INPUTS.identity);
    var admitted := Work(c, g.(pc := Dispatch(g.row)), map[], FINE).gen;
    Work(c, Work(c, admitted, map[], QUEUE_FULL).gen, map[], FINE).gen
  }

  lemma VisitAlone(cfg: Config, s: System, k: Key, g: Gen, n: nat)
    requires Alone(s, k, g) && Delayed(g, n)
    ensures Alone(Trace(cfg, s, Visit(k)), k, AfterVisit(k, g))
  {
    hide Alone, Next, Work, Delayed;
    var c := Claim(k, INPUTS.recipeId, INPUTS.sha, INPUTS.identity);
    var s1, g1 := Next(cfg, s, Begin(k, 0, true)), g.(pc := Dispatch(g.row));
    NotStopped(g, n);
    BeginAlone(cfg, s, k, g);
    var o2 := Work(c, g1, map[], FINE);
    var o3 := Work(c, o2.gen, map[], QUEUE_FULL);
    var o4 := Work(c, o3.gen, map[], FINE);
    StoreUntouched(k, g, n);
    var s2, s3 := Next(cfg, s1, Step(k, 0, FINE)), Next(cfg, Next(cfg, s1, Step(k, 0, FINE)), Step(k, 0, QUEUE_FULL));
    StepAlone(cfg, s1, k, g1, FINE, o2);
    StepAlone(cfg, s2, k, o2.gen, QUEUE_FULL, o3);
    StepAlone(cfg, s3, k, o3.gen, FINE, o4);
    FourEvents(cfg, s, Begin(k, 0, true), Step(k, 0, FINE), Step(k, 0, QUEUE_FULL), Step(k, 0, FINE));
  }

  lemma FourEvents(cfg: Config, s: System, a: Event, b: Event, c: Event, d: Event)
    ensures Trace(cfg, s, [a, b, c, d]) == Next(cfg, Next(cfg, Next(cfg, Next(cfg, s, a), b), c), d)
  {
    hide Next;
    assert [a, b, c, d][1..] == [b, c, d] && [b, c, d][1..] == [c, d] && [c, d][1..] == [d] && [d][1..] == [];
    assert Trace(cfg, Next(cfg, Next(cfg, s, a), b), [c, d]) == Trace(cfg, Next(cfg, Next(cfg, Next(cfg, s, a), b), c), [d]);
  }

  lemma NotStopped(g: Gen, n: nat)
    requires Delayed(g, n)
    ensures g.pc == Idle && !g.row.Stopped()
  {}

  lemma StoreUntouched(k: Key, g: Gen, n: nat)
    requires Delayed(g, n)
    ensures var c := Claim(k, INPUTS.recipeId, INPUTS.sha, INPUTS.identity);
            var o2 := Work(c, g.(pc := Dispatch(g.row)), map[], FINE);
            var o3 := Work(c, o2.gen, map[], QUEUE_FULL);
            o2.store == map[] && o2.gen.pc.Enqueue? && o2.gen.pc.row == o2.gen.row && o3 == Out(o2.gen.(pc := Retry(o2.gen.row)), map[])
            && Work(c, o3.gen, map[], FINE).store == map[]
  {}

  /** A visit delays once more, until the counter stands at 1000. */
  lemma VisitDelays(k: Key, g: Gen, n: nat)
    requires Delayed(g, n) && n <= MAX_RETRY_COUNT
    ensures n < MAX_RETRY_COUNT ==> Delayed(AfterVisit(k, g), n + 1)
    ensures n == MAX_RETRY_COUNT ==> AfterVisit(k, g) == g.(log := NO_LOG.(refused := [MAX_RETRY_COUNT + 1]))
  {
  }

  lemma ClaimedFirst(cfg: Config, k: Key)
    requires cfg.maxAttempts >= 1 && cfg.maxPerRecipe >= 1 && k == cfg.digest(INPUTS)
    ensures ValidDocument(cfg, map[])
    ensures Apply(cfg, map[], DETECTED.op).doc == map[k := NewEntry(k, INPUTS, FreshRow(Policy.Build, 0, 0, 0))]
  {
    hide ValidDocument, StateRules, StageRules;
    var row := FreshRow(Policy.Build, 0, 0, 0);
    var none: Document, e := map[], NewEntry(k, INPUTS, row);
    FreshValid();
    assert ValidEntry(cfg, k, e);
    LedgerHistory.OneEntryValid(cfg, k, e);
    LedgerHistory.NoneValid(cfg);
    assert AttemptsOf(none, INPUTS.recipeId) == {};
    assert none[k := e] == map[k := e];
  }

  lemma FreshValid()
    ensures ValidRow(FreshRow(Policy.Build, 0, 0, 0), 0)
  {}

  lemma DetectedAlone(cfg: Config, k: Key) returns (g: Gen)
    requires cfg.maxAttempts >= 1 && cfg.maxPerRecipe >= 1 && k == cfg.digest(INPUTS)
    ensures Alone(Trace(cfg, EMPTY, [DETECTED]), k, g) && Delayed(g, 0)
  {
    hide ValidDocument, Apply, StateRules, StageRules;
    g := Gen(FreshRow(Policy.Build, 0, 0, 0), Idle, NO_LOG);
    FreshValid();
    ClaimedFirst(cfg, k);
    assert [DETECTED][1..] == [];
    assert Trace(cfg, EMPTY, [DETECTED]) == Trace(cfg, Next(cfg, EMPTY, DETECTED), []);
  }

  lemma {:induction false} DelayedTimes(cfg: Config, k: Key, n: nat) returns (g: Gen)
    requires cfg.maxAttempts >= 1 && cfg.maxPerRecipe >= 1 && k == cfg.digest(INPUTS) && n <= MAX_RETRY_COUNT
    ensures Alone(Trace(cfg, EMPTY, Visits(k, n)), k, g) && Delayed(g, n)
  {
    hide Alone, Delayed, AfterVisit, Visit, Trace;
    if n == 0 {
      g := DetectedAlone(cfg, k);
    } else {
      var before := DelayedTimes(cfg, k, n - 1);
      var s := Trace(cfg, EMPTY, Visits(k, n - 1));
      TraceAppend(cfg, EMPTY, Visits(k, n - 1), Visit(k));
      VisitAlone(cfg, s, k, before, n - 1);
      VisitDelays(k, before, n - 1);
      g := AfterVisit(k, before);
    }
  }

  /** From an empty ledger: after a thousand delays the next one is refused, with 1001, and the
      row stays as it was. */
  lemma RetryRefusedOnARun(cfg: Config)
    requires cfg.maxAttempts >= 1 && cfg.maxPerRecipe >= 1
    ensures AutomationTheorems.Initial(EMPTY)
    ensures var k := cfg.digest(INPUTS);
            var s, t := Trace(cfg, EMPTY, Visits(k, MAX_RETRY_COUNT)), Trace(cfg, EMPTY, Visits(k, MAX_RETRY_COUNT + 1));
            && HasRow(s.doc, k, 0) && HasRow(t.doc, k, 0) && RowAt(t.doc, k, 0) == RowAt(s.doc, k, 0)
            && RowAt(s.doc, k, 0).runRetries == MAX_RETRY_COUNT
            && GenAt(s, k, 0).log.refused == [] && GenAt(t, k, 0).log.refused == [MAX_RETRY_COUNT + 1]
  {
    hide Next, Trace, AfterVisit, Visit, ValidRow;
    var k := cfg.digest(INPUTS);
    var g := DelayedTimes(cfg, k, MAX_RETRY_COUNT);
    TraceAppend(cfg, EMPTY, Visits(k, MAX_RETRY_COUNT), Visit(k));
    VisitAlone(cfg, Trace(cfg, EMPTY, Visits(k, MAX_RETRY_COUNT)), k, g, MAX_RETRY_COUNT);
    VisitDelays(k, g, MAX_RETRY_COUNT);
  }
}
