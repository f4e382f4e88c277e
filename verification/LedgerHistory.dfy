/** What every interleaving of ledger operations keeps: history is never taken
    back, and repeated detections and operator retries converge. */
module LedgerHistory {
  import opened Wrappers
  import opened AutomationRow
  import opened AutomationLedger

  /** The document after a sequence of operations, refused ones included. */
  function RunOps(cfg: Config, d: Document, ops: seq<Op>): (final: Document)
    requires ValidDocument(cfg, d)
    ensures ValidDocument(cfg, final)
    decreases |ops|
  {
    if ops == [] then d else RunOps(cfg, Apply(cfg, d, ops[0]).doc, ops[1..])
  }

  ghost predicate HistoryKept(a: Document, b: Document) {
    forall k :: k in a ==>
      && k in b && b[k].ToClaim() == a[k].ToClaim()
      && |a[k].generations| <= |b[k].generations|
      && forall g :: 0 <= g < |a[k].generations| ==> Extends(a[k].generations[g], b[k].generations[g])
  }

  lemma RowEffectKeeps(c: Claim, r: Row, op: Op)
    requires ValidRow(r, r.generation) && IsRowOp(op)
    ensures var e := RowEffect(c, r, op);
            e.Write? && ValidRow(e.row, r.generation) ==> Extends(r, e.row)
  {
  }

  /** link_run on a stopped row whose completion was not yet announced, which never had a Run
      linked, and whose preallocated Run exists and is bound. */
  predicate Revives(c: Claim, r: Row, op: Op) {
    && op.LinkOp? && !r.notified && r.runId.None? && r.validationId.None?
    && r.preallocated == Some(op.runId) && op.found.Some? && Bound(c, r, op.found.value)
  }

  /** Exactly which row operation puts a stopped row back to work. */
  lemma RevivedExactly(c: Claim, r: Row, op: Op)
    requires ValidRow(r, r.generation) && r.Stopped() && IsRowOp(op)
    ensures var e := RowEffect(c, r, op);
            (e.Write? && ValidRow(e.row, r.generation) && !e.row.Stopped()) <==> Revives(c, r, op)
  {
  }

  lemma RowIsValid(cfg: Config, d: Document, k: Key, g: int)
    requires ValidDocument(cfg, d) && k in d
    ensures |d[k].generations| > 0 && (HasRow(d, k, g) ==> ValidRow(d[k].generations[g], g))
  {
    assert ValidEntry(cfg, k, d[k]);
  }

  lemma KeptReflexive(cfg: Config, d: Document)
    requires ValidDocument(cfg, d)
    ensures HistoryKept(d, d)
  {
    forall k, g | k in d && 0 <= g < |d[k].generations| ensures Extends(d[k].generations[g], d[k].generations[g]) {
      assert ValidEntry(cfg, k, d[k]);
      assert ValidRow(d[k].generations[g], g);
    }
  }

  /** Over the whole ledger: an operation, whatever it is, puts a stopped row back to work if
      and only if it is that link of that row. */
  lemma StoppedRowRevivedExactly(cfg: Config, d: Document, op: Op, k: Key, g: nat)
    requires ValidDocument(cfg, d) && HasRow(d, k, g) && RowAt(d, k, g).Stopped()
    ensures HasRow(Apply(cfg, d, op).doc, k, g)
    ensures !RowAt(Apply(cfg, d, op).doc, k, g).Stopped()
       <==> IsRowOp(op) && op.key == k && op.generation == g && Revives(d[k].ToClaim(), RowAt(d, k, g), op)
  {
    hide ValidDocument, RowEffect, Revives, StateRules, StageRules, Eligible, AttemptsOf, FirstRow;
    RowIsValid(cfg, d, k, g);
    if IsRowOp(op) && op.key == k && op.generation == g {
      RevivedExactly(d[k].ToClaim(), RowAt(d, k, g), op);
      var e := RowEffect(d[k].ToClaim(), RowAt(d, k, g), op);
      if e.Write? { PutRowValid(cfg, d, k, g, e.row); }
    }
  }

  const UNLINKED := Row(0, Terminal, Full, 0, 0, 0, Some(7), None, Some(TerminalFailure), NoRetry, 0, None, None, None,
                        TerminalStage, None, None, false, 0, 0, 0)
  const STOPPED_CLAIM := Entry(3, "recipe", "sha", "identity", [UNLINKED])
  const LATE_LINK := LinkOp(3, 0, 7, Some(RunHeader(7, "recipe", "sha", Some(Provenance(3, 0, Full, "identity")))), 1)

  /** Such a row: stopped after its Run id was preallocated and before the Run was linked. */
  lemma StoppedRowRevived(cfg: Config)
    requires cfg.digest(STOPPED_CLAIM.ToInputs()) == 3 && cfg.maxAttempts >= 1 && cfg.maxPerRecipe >= 1
    ensures var d: Document := map[3 := STOPPED_CLAIM];
            ValidDocument(cfg, d) && RowAt(d, 3, 0).Stopped() && HasRow(Apply(cfg, d, LATE_LINK).doc, 3, 0)
            && !RowAt(Apply(cfg, d, LATE_LINK).doc, 3, 0).Stopped()
  {
    var d: Document := map[3 := STOPPED_CLAIM];
    OneEntryValid(cfg, 3, STOPPED_CLAIM);
    StoppedRowRevivedExactly(cfg, d, LATE_LINK, 3, 0);
  }

  lemma NoneValid(cfg: Config)
    ensures ValidDocument(cfg, map[])
  {
    var none: Document := map[];
    assert Recipes(none) == {};
  }

  lemma OneEntryValid(cfg: Config, k: Key, e: Entry)
    requires ValidEntry(cfg, k, e) && cfg.maxAttempts >= 1 && cfg.maxPerRecipe >= 1
    ensures ValidDocument(cfg, map[k := e])
  {
    var d: Document := map[k := e];
    assert d[k].recipeId in Recipes(d);
    assert Recipes(d) == {e.recipeId};
    assert AttemptsOf(d, e.recipeId) == {k};
  }

  lemma ClaimKeeps(cfg: Config, d: Document, op: Op)
    requires ValidDocument(cfg, d) && op.ClaimOp?
    ensures var reply := ClaimCurrent(cfg, d, op);
            && HistoryKept(d, reply.doc)
            && (reply.response.ClaimReply? ==>
                  reply.response.key == cfg.digest(op.inputs) && reply.response.key in reply.doc
                  && (reply.response.created ==> cfg.digest(op.inputs) !in d))
  {
    hide ValidDocument, FirstRow, AttemptsOf, Eligible;
    KeptReflexive(cfg, d);
  }

  lemma RetryKeeps(cfg: Config, d: Document, op: Op)
    requires ValidDocument(cfg, d) && op.RetryOp?
    ensures var reply := ExplicitRetry(cfg, d, op);
            && HistoryKept(d, reply.doc)
            && (reply.response.ClaimReply? && reply.response.created ==>
                  && op.key in d && |d[op.key].generations| == op.expected + 1
                  && op.key in reply.doc && |reply.doc[op.key].generations| == op.expected + 2)
  {
    hide ValidDocument, StateRules, StageRules;
    KeptReflexive(cfg, d);
    if op.key in d { RowIsValid(cfg, d, op.key, |d[op.key].generations| - 1); }
  }

  lemma UpdateKeeps(cfg: Config, d: Document, op: Op)
    requires ValidDocument(cfg, d) && IsRowOp(op)
    ensures HistoryKept(d, UpdateRow(cfg, d, op).doc)
  {
    hide ValidDocument, Preallocate, LinkRun, Finish, Advance, Notify, StateRules, StageRules;
    KeptReflexive(cfg, d);
    if HasRow(d, op.key, op.generation) {
      RowIsValid(cfg, d, op.key, op.generation);
      var r := RowAt(d, op.key, op.generation);
      var e := RowEffect(d[op.key].ToClaim(), r, op);
      if e.Write? {
        PutRowValid(cfg, d, op.key, op.generation, e.row);
        RowEffectKeeps(d[op.key].ToClaim(), r, op);
      }
    }
  }

  lemma ApplyKeeps(cfg: Config, d: Document, op: Op)
    requires ValidDocument(cfg, d)
    ensures HistoryKept(d, Apply(cfg, d, op).doc)
  {
    if op.ClaimOp? { ClaimKeeps(cfg, d, op); }
    else if op.RetryOp? { RetryKeeps(cfg, d, op); }
    else { UpdateKeeps(cfg, d, op); }
  }

  lemma KeptTransitive(a: Document, b: Document, c: Document)
    requires HistoryKept(a, b) && HistoryKept(b, c)
    ensures HistoryKept(a, c)
  {
    forall k | k in a
      ensures k in c && c[k].ToClaim() == a[k].ToClaim() && |a[k].generations| <= |c[k].generations|
      ensures forall g :: 0 <= g < |a[k].generations| ==> Extends(a[k].generations[g], c[k].generations[g])
    {
      assert k in b;
      forall g | 0 <= g < |a[k].generations| ensures Extends(a[k].generations[g], c[k].generations[g]) {
        assert Extends(a[k].generations[g], b[k].generations[g]) && Extends(b[k].generations[g], c[k].generations[g]);
      }
    }
  }

  /** Entries are never removed, generation lists only grow, Run ids are write-once,
      lifecycle links are never cleared and a notified generation stays stopped,
      over every sequence of operations with any arguments. */
  lemma {:induction false} HistoryMonotone(cfg: Config, d: Document, ops: seq<Op>)
    requires ValidDocument(cfg, d)
    ensures HistoryKept(d, RunOps(cfg, d, ops))
    decreases |ops|
  {
    if ops == [] {
      forall k, g | k in d && 0 <= g < |d[k].generations| ensures Extends(d[k].generations[g], d[k].generations[g]) {
        assert ValidEntry(cfg, k, d[k]);
        assert ValidRow(d[k].generations[g], g);
      }
    } else {
      var next := Apply(cfg, d, ops[0]).doc;
      ApplyKeeps(cfg, d, ops[0]);
      HistoryMonotone(cfg, next, ops[1..]);
      KeptTransitive(d, next, RunOps(cfg, d, ops));
    }
  }

  ghost predicate InjectiveDigest(cfg: Config) {
    forall a, b :: cfg.digest(a) == cfg.digest(b) ==> a == b
  }

  /** How often a trace creates the attempt for one set of inputs. */
  function Claims(cfg: Config, d: Document, ops: seq<Op>, inputs: Inputs): nat
    requires ValidDocument(cfg, d)
    decreases |ops|
  {
    if ops == [] then 0
    else
      var reply := Apply(cfg, d, ops[0]);
      (if ops[0].ClaimOp? && ops[0].inputs == inputs && reply.response.ClaimReply? && reply.response.created then 1 else 0)
      + Claims(cfg, reply.doc, ops[1..], inputs)
  }

  /** How often a trace creates a generation in answer to a retry of generation `observed`. */
  function Retries(cfg: Config, d: Document, ops: seq<Op>, key: Key, observed: int): nat
    requires ValidDocument(cfg, d)
    decreases |ops|
  {
    if ops == [] then 0
    else
      var reply := Apply(cfg, d, ops[0]);
      (if ops[0].RetryOp? && ops[0].key == key && ops[0].expected == observed
          && reply.response.ClaimReply? && reply.response.created then 1 else 0)
      + Retries(cfg, reply.doc, ops[1..], key, observed)
  }

  lemma {:induction false} ClaimedOnce(cfg: Config, d: Document, ops: seq<Op>, inputs: Inputs)
    requires ValidDocument(cfg, d)
    ensures Claims(cfg, d, ops, inputs) <= (if cfg.digest(inputs) in d then 0 else 1)
    decreases |ops|
  {
    hide ValidDocument, ClaimCurrent, ExplicitRetry, UpdateRow;
    if ops != [] {
      ApplyKeeps(cfg, d, ops[0]);
      if ops[0].ClaimOp? { ClaimKeeps(cfg, d, ops[0]); }
      ClaimedOnce(cfg, Apply(cfg, d, ops[0]).doc, ops[1..], inputs);
    }
  }

  lemma {:induction false} RetriedOnce(cfg: Config, d: Document, ops: seq<Op>, key: Key, observed: int)
    requires ValidDocument(cfg, d)
    ensures Retries(cfg, d, ops, key, observed) <=
            (if key in d && |d[key].generations| >= observed + 2 then 0 else 1)
    decreases |ops|
  {
    hide ValidDocument, ClaimCurrent, ExplicitRetry, UpdateRow;
    if ops != [] {
      ApplyKeeps(cfg, d, ops[0]);
      if ops[0].RetryOp? { RetryKeeps(cfg, d, ops[0]); }
      RetriedOnce(cfg, Apply(cfg, d, ops[0]).doc, ops[1..], key, observed);
    }
  }

  /** Any interleaving of detections, operator retries and lifecycle writes from an empty
      ledger keeps one attempt per (Recipe, revision, identity), creates it at most once,
      creates at most one generation per observed generation, and keeps every bound. */
  lemma DuplicatesConverge(cfg: Config, ops: seq<Op>, inputs: Inputs, key: Key, observed: int)
    ensures ValidDocument(cfg, map[])
    ensures Claims(cfg, map[], ops, inputs) <= 1
    ensures Retries(cfg, map[], ops, key, observed) <= 1
    ensures var d := RunOps(cfg, map[], ops);
            && |d| <= cfg.maxAttempts && |Recipes(d)| <= MAX_RECIPES
            && (forall k :: k in d ==> |AttemptsOf(d, d[k].recipeId)| <= cfg.maxPerRecipe)
            && (forall k :: k in d ==> 1 <= |d[k].generations| <= MAX_GENERATIONS)
            && (forall a, b :: a in d && b in d && d[a].ToInputs() == d[b].ToInputs() ==> a == b)
  {
    NoneValid(cfg);
    ClaimedOnce(cfg, map[], ops, inputs);
    RetriedOnce(cfg, map[], ops, key, observed);
    var d := RunOps(cfg, map[], ops);
    forall k | k in d ensures cfg.digest(d[k].ToInputs()) == k { assert ValidEntry(cfg, k, d[k]); }
  }

  // --------------------------------------------------------- exactly what is accepted

  /** The stored Recipe is the one that was meant, unchanged, active and automated that way. */
  predicate StillMeant(live: Option<Recipe>, recipeId: RecipeId, sha: Sha, policy: Policy) {
    match live
    case None => false
    case Some(r) => r.name == recipeId && r.sha == sha && r.policy == policy && r.active && r.enabled
  }

  /** This exact Recipe revision has an attempt already. */
  ghost predicate SeenBefore(d: Document, recipeId: RecipeId, sha: Sha) {
    exists k :: k in d && d[k].recipeId == recipeId && d[k].sha == sha
  }

  /** Exactly when a detection creates an attempt. */
  lemma ClaimCreatedExactly(cfg: Config, d: Document, op: Op)
    requires ValidDocument(cfg, d) && op.ClaimOp?
    ensures var response := Apply(cfg, d, op).response;
            (response.ClaimReply? && response.created) <==>
              && op.policy != Manual && (op.detectOnly <==> op.policy == Detect)
              && StillMeant(op.live, op.inputs.recipeId, op.inputs.sha, op.policy)
              && cfg.digest(op.inputs) !in d && |d| < cfg.maxAttempts
              && |AttemptsOf(d, op.inputs.recipeId)| < cfg.maxPerRecipe
              && (op.inputs.recipeId in Recipes(d) || |Recipes(d)| < MAX_RECIPES)
    ensures var reply, k := Apply(cfg, d, op), cfg.digest(op.inputs);
            && ((reply.response.ClaimReply? && !reply.response.created) <==>
                  && op.policy != Manual && (op.detectOnly <==> op.policy == Detect)
                  && StillMeant(op.live, op.inputs.recipeId, op.inputs.sha, op.policy)
                  && k in d && |d[k].generations| > 0 && d[k].generations[|d[k].generations| - 1].policy == op.policy)
            && (!(reply.response.ClaimReply? && reply.response.created) ==> reply.doc == d)
  {
    hide ValidDocument, StateRules, StageRules, AttemptsOf, Recipes, FirstRow;
    if cfg.digest(op.inputs) in d { RowIsValid(cfg, d, cfg.digest(op.inputs), 0); }
    if op.policy != Manual && (op.detectOnly <==> op.policy == Detect) && cfg.digest(op.inputs) !in d {
      FirstRowValid(d, op);
      NewEntryValid(cfg, d, cfg.digest(op.inputs), NewEntry(cfg.digest(op.inputs), op.inputs, FirstRow(d, op)));
    }
  }

  lemma FirstRowValid(d: Document, op: Op)
    requires op.ClaimOp? && op.policy != Manual && (op.detectOnly <==> op.policy == Detect)
    ensures ValidRow(FirstRow(d, op), 0)
  {
  }

  lemma NewEntryValid(cfg: Config, d: Document, k: Key, e: Entry)
    requires ValidDocument(cfg, d) && k !in d && ValidEntry(cfg, k, e)
    ensures ValidDocument(cfg, d[k := e]) <==>
      |d| < cfg.maxAttempts && |AttemptsOf(d, e.recipeId)| < cfg.maxPerRecipe && (e.recipeId in Recipes(d) || |Recipes(d)| < MAX_RECIPES)
  {
    hide ValidEntry, AttemptsOf, Recipes;
    var w := d[k := e];
    assert |w| == |d| + 1 by { assert w.Keys == d.Keys + {k} && |w| == |w.Keys| && |d| == |d.Keys|; }
    NewRecipes(d, k, e);
    NewAttempts(d, k, e);
    assert w[k] == e && forall j :: j in d ==> w[j] == d[j];
    assert forall j :: j in w <==> j in d || j == k;
  }

  lemma NewAttempts(d: Document, k: Key, e: Entry)
    requires k !in d
    ensures |AttemptsOf(d[k := e], e.recipeId)| == |AttemptsOf(d, e.recipeId)| + 1
    ensures forall r :: r != e.recipeId ==> AttemptsOf(d[k := e], r) == AttemptsOf(d, r)
  {
    var w := d[k := e];
    assert AttemptsOf(w, e.recipeId) == AttemptsOf(d, e.recipeId) + {k};
    forall r | r != e.recipeId ensures AttemptsOf(w, r) == AttemptsOf(d, r) {}
  }

  predicate Known(d: Document, r: RecipeId) { exists k :: k in d && d[k].recipeId == r }

  lemma RecipesKnown(d: Document, r: RecipeId)
    ensures r in Recipes(d) <==> Known(d, r)
  {
  }

  lemma KnownMore(d: Document, k: Key, e: Entry, r: RecipeId)
    requires k !in d
    ensures Known(d[k := e], r) <==> Known(d, r) || r == e.recipeId
  {
    var w := d[k := e];
    if Known(d, r) {
      var j :| j in d && d[j].recipeId == r;
      assert j in w && w[j].recipeId == r;
    }
    if r == e.recipeId { assert k in w && w[k].recipeId == r; }
  }

  lemma NewRecipes(d: Document, k: Key, e: Entry)
    requires k !in d
    ensures |Recipes(d[k := e])| == |Recipes(d)| + (if e.recipeId in Recipes(d) then 0 else 1)
  {
    hide Recipes, Known;
    var w := d[k := e];
    forall r ensures r in Recipes(w) <==> r in Recipes(d) + {e.recipeId} {
      RecipesKnown(d, r);
      RecipesKnown(w, r);
      KnownMore(d, k, e, r);
    }
    assert Recipes(w) == Recipes(d) + {e.recipeId};
    AddedSize(Recipes(d), e.recipeId);
  }

  lemma AddedSize<T>(s: set<T>, x: T)
    ensures |s + {x}| == |s| + (if x in s then 0 else 1)
  {
    if x in s { assert s + {x} == s; }
  }

  /** Exactly which created attempts are closed at birth: those that only detect, and, where a
      baseline is asked for, the first one of a Recipe revision. All others wait to be built. */
  lemma ClaimClosedExactly(cfg: Config, d: Document, op: Op)
    requires ValidDocument(cfg, d) && op.ClaimOp?
    requires Apply(cfg, d, op).response.ClaimReply? && Apply(cfg, d, op).response.created
    ensures var after, k := Apply(cfg, d, op).doc, cfg.digest(op.inputs);
            && k !in d && after.Keys == d.Keys + {k} && (forall j :: j in d ==> after[j] == d[j])
            && after[k].ToInputs() == op.inputs && |after[k].generations| == 1
            && var row := after[k].generations[0];
               && row.policy == op.policy && row.detectedAt == op.detectedAt && row.createdAt == op.now
               && row.preallocated.None? && row.runId.None? && !row.notified
               && (row.Stopped() <==>
                     op.policy == Detect || (op.baselineOnFirst && !SeenBefore(d, op.inputs.recipeId, op.inputs.sha)))
               && row.classification == (if row.Stopped() then Some(Success) else None)
               && (!row.Stopped() ==> row.state == Claimed)
               && (row.diagnostic == Some("initial_baseline") <==>
                     op.baselineOnFirst && !SeenBefore(d, op.inputs.recipeId, op.inputs.sha))
  {
    hide ValidDocument, StateRules, StageRules, AttemptsOf, Recipes, SeenBefore, FirstRow;
    FirstRowClosed(d, op);
  }

  lemma FirstRowClosed(d: Document, op: Op)
    requires op.ClaimOp? && (op.detectOnly <==> op.policy == Detect)
    ensures var row, baseline := FirstRow(d, op), op.baselineOnFirst && !SeenBefore(d, op.inputs.recipeId, op.inputs.sha);
            && row.policy == op.policy && row.detectedAt == op.detectedAt && row.createdAt == op.now
            && row.preallocated.None? && row.runId.None? && !row.notified
            && (row.Stopped() <==> op.policy == Detect || baseline)
            && row.classification == (if row.Stopped() then Some(Success) else None)
            && (!row.Stopped() ==> row.state == Claimed)
            && (row.diagnostic == Some("initial_baseline") <==> baseline)
  {
  }

  /** How often a trace closes a claim that was to be built, as the baseline of one revision. */
  ghost function Baselines(cfg: Config, d: Document, ops: seq<Op>, recipeId: RecipeId, sha: Sha): nat
    requires ValidDocument(cfg, d)
    decreases |ops|
  {
    if ops == [] then 0
    else
      var op, reply := ops[0], Apply(cfg, d, ops[0]);
      (if && op.ClaimOp? && op.inputs.recipeId == recipeId && op.inputs.sha == sha && op.policy != Detect
          && reply.response.ClaimReply? && reply.response.created
          && HasRow(reply.doc, reply.response.key, 0) && RowAt(reply.doc, reply.response.key, 0).Stopped()
       then 1 else 0)
      + Baselines(cfg, reply.doc, ops[1..], recipeId, sha)
  }

  /** Over every sequence of operations a Recipe revision has at most one baseline, and none
      once it has any attempt: every later release is built. */
  lemma {:induction false} OneBaseline(cfg: Config, d: Document, ops: seq<Op>, recipeId: RecipeId, sha: Sha)
    requires ValidDocument(cfg, d)
    ensures Baselines(cfg, d, ops, recipeId, sha) <= (if SeenBefore(d, recipeId, sha) then 0 else 1)
    decreases |ops|
  {
    hide ValidDocument, ClaimCurrent, ExplicitRetry, UpdateRow;
    if ops != [] {
      var op, reply := ops[0], Apply(cfg, d, ops[0]);
      ApplyKeeps(cfg, d, op);
      if SeenBefore(d, recipeId, sha) {
        var k :| k in d && d[k].recipeId == recipeId && d[k].sha == sha;
        assert k in reply.doc && reply.doc[k].ToClaim() == d[k].ToClaim();
      }
      if op.ClaimOp? && reply.response.ClaimReply? && reply.response.created {
        ClaimClosedExactly(cfg, d, op);
        assert reply.doc[cfg.digest(op.inputs)].ToInputs() == op.inputs;
        ClaimKeeps(cfg, d, op);
      }
      OneBaseline(cfg, reply.doc, ops[1..], recipeId, sha);
    }
  }

  /** `a` was detected before `b`: by detection, creation, then key. */
  predicate DetectedBefore(a: Entry, b: Entry)
    requires |a.generations| > 0 && |b.generations| > 0
  {
    var x, y := a.generations[0], b.generations[0];
    if x.detectedAt != y.detectedAt then x.detectedAt < y.detectedAt
    else if x.createdAt != y.createdAt then x.createdAt < y.createdAt
    else a.key < b.key
  }

  /** Every other attempt of the Recipe was detected before this one. */
  ghost predicate LatestAttempt(cfg: Config, d: Document, key: Key)
    requires ValidDocument(cfg, d) && key in d
  {
    forall k :: k in d && k != key && d[k].recipeId == d[key].recipeId ==>
      ValidEntry(cfg, k, d[k]) && ValidEntry(cfg, key, d[key]) && DetectedBefore(d[k], d[key])
  }

  lemma NewestIsLatest(cfg: Config, d: Document, key: Key)
    requires ValidDocument(cfg, d) && key in d
    ensures IsNewest(cfg, d, key) <==> LatestAttempt(cfg, d, key)
  {
    hide StateRules, StageRules;
    assert ValidEntry(cfg, key, d[key]);
    assert forall k :: k in d ==> ValidEntry(cfg, k, d[k]);
  }

  /** What an operator retry must have observed: the newest attempt of the Recipe, unchanged,
      with the Recipe still meant as it was. */
  ghost predicate RetryObserved(cfg: Config, d: Document, op: Op, observed: int)
    requires ValidDocument(cfg, d) && op.RetryOp?
  {
    && op.key in d && d[op.key].recipeId == op.recipeId && LatestAttempt(cfg, d, op.key)
    && op.expected == observed && 0 <= observed < |d[op.key].generations|
    && (op.expectedUpdatedAt.Some? ==> op.expectedUpdatedAt.value == d[op.key].generations[observed].updatedAt)
    && StillMeant(op.live, op.recipeId, d[op.key].sha, d[op.key].generations[|d[op.key].generations| - 1].policy)
  }

  /** Exactly when an operator retry creates a generation, and when it reuses the one it raced
      with; what it creates is a fresh row behind the others. */
  lemma RetryCreatedExactly(cfg: Config, d: Document, op: Op)
    requires ValidDocument(cfg, d) && op.RetryOp?
    ensures var reply := Apply(cfg, d, op);
            && ((reply.response.ClaimReply? && reply.response.created) <==>
                  && op.key in d && RetryObserved(cfg, d, op, |d[op.key].generations| - 1)
                  && |d[op.key].generations| < MAX_GENERATIONS
                  && d[op.key].generations[|d[op.key].generations| - 1].state in {Terminal, RetryDelayed, Blocked})
            && ((reply.response.ClaimReply? && !reply.response.created) <==>
                  op.key in d && RetryObserved(cfg, d, op, |d[op.key].generations| - 2))
            && (reply.response.ClaimReply? && reply.response.created ==>
                  var rows := d[op.key].generations;
                  reply.doc == d[op.key := d[op.key].(generations :=
                    rows + [FreshRow(rows[|rows| - 1].policy, rows[|rows| - 1].detectedAt, |rows|, op.now)])])
            && (!(reply.response.ClaimReply? && reply.response.created) ==> reply.doc == d)
  {
    hide ValidDocument, StateRules, StageRules, LatestAttempt, IsNewest;
    if op.key in d {
      NewestIsLatest(cfg, d, op.key);
      RowIsValid(cfg, d, op.key, |d[op.key].generations| - 1);
      var rows := d[op.key].generations;
      var last := rows[|rows| - 1];
      FreshRowValid(last, |rows|, op.now);
      if |rows| < MAX_GENERATIONS { AppendRowValid(cfg, d, op.key, FreshRow(last.policy, last.detectedAt, |rows|, op.now)); }
    }
  }

  lemma FreshRowValid(last: Row, g: nat, now: Time)
    requires ValidRow(last, last.generation)
    ensures ValidRow(FreshRow(last.policy, last.detectedAt, g, now), g)
  {
  }

  lemma AppendRowValid(cfg: Config, d: Document, k: Key, row: Row)
    requires ValidDocument(cfg, d) && k in d && |d[k].generations| < MAX_GENERATIONS && ValidRow(row, |d[k].generations|)
    ensures ValidDocument(cfg, d[k := d[k].(generations := d[k].generations + [row])])
  {
    hide StateRules, StageRules;
    var e := d[k].(generations := d[k].generations + [row]);
    var w := d[k := e];
    assert w.Keys == d.Keys;
    assert |w| == |w.Keys| && |d| == |d.Keys|;
    assert forall j :: j in d ==> w[j].recipeId == d[j].recipeId;
    assert Recipes(w) == Recipes(d);
    forall j | j in w ensures AttemptsOf(w, w[j].recipeId) == AttemptsOf(d, d[j].recipeId) {}
    assert ValidEntry(cfg, k, d[k]);
    forall j | j in w ensures ValidEntry(cfg, j, w[j]) { assert ValidEntry(cfg, j, d[j]); }
  }

  /** Exactly how a lifecycle advance is answered, and what it writes: the stage, the links it is
      given, and a clean slate of outcome and delay. */
  lemma AdvanceAnswered(c: Claim, r: Row, op: Op)
    requires op.AdvanceOp?
    ensures var e := RowEffect(c, r, op);
            var clash := op.validationId.Some? && r.validationId.Some? && op.validationId != r.validationId && op.stage !in {ValidationAdmission, Validation};
            && (e == Raise(StageInvalid) <==> op.stage in {Detection, TerminalStage})
            && (e == Keep(r) <==> op.stage !in {Detection, TerminalStage} && r.Stopped())
            && (e == Raise(RunNotLinked) <==> op.stage !in {Detection, TerminalStage} && !r.Stopped() && r.runId == None)
            && (e.Write? <==> op.stage !in {Detection, TerminalStage} && !r.Stopped() && r.runId.Some? && !clash)
            && (e.Write? ==>
                  && e.row.stage == op.stage && e.row.state == Admitted && e.row.classification == None && e.row.notBefore == None
                  && e.row.validationId == (if op.validationId.Some? then op.validationId else r.validationId)
                  && e.row.publicationId == (if op.publicationId.Some? then op.publicationId else r.publicationId)
                  && e.row.runId == r.runId && e.row.retryCount == r.retryCount)
  {
  }

  /** Every row write is stamped with its time and leaves creation and detection alone. */
  lemma WritesAreStamped(c: Claim, r: Row, op: Op)
    requires IsRowOp(op) && RowEffect(c, r, op).Write?
    ensures var w := RowEffect(c, r, op).row;
            w.updatedAt == op.now && w.createdAt == r.createdAt && w.detectedAt == r.detectedAt && w.policy == r.policy
  {
  }

  /** With a digest that never collides, an accepted claim is filed under exactly its own
      inputs: no other Recipe, revision or identity ever answers for it. */
  lemma ClaimAnswersItself(cfg: Config, d: Document, op: Op)
    requires InjectiveDigest(cfg) && ValidDocument(cfg, d) && op.ClaimOp?
    ensures var reply := Apply(cfg, d, op);
            reply.response.ClaimReply? ==>
              reply.response.key in reply.doc && reply.doc[reply.response.key].ToInputs() == op.inputs
  {
    hide FirstRow, AttemptsOf, Eligible, StateRules, StageRules;
    var reply := Apply(cfg, d, op);
    if reply.response.ClaimReply? {
      ClaimKeeps(cfg, d, op);
      assert ValidEntry(cfg, reply.response.key, reply.doc[reply.response.key]);
    }
  }

  /** A detection repeated after any further history answers with the same attempt and
      changes nothing, unless the Recipe or its policy changed meanwhile. */
  lemma RepeatedDetection(cfg: Config, d: Document, first: Op, later: seq<Op>, again: Op)
    requires ValidDocument(cfg, d) && first.ClaimOp? && again.ClaimOp? && again.inputs == first.inputs
    requires Apply(cfg, d, first).response.ClaimReply?
    ensures var mid := RunOps(cfg, Apply(cfg, d, first).doc, later);
            var reply := Apply(cfg, mid, again);
            && reply.doc == mid
            && (reply.response.ClaimReply? ==>
                  !reply.response.created && reply.response.key == Apply(cfg, d, first).response.key)
            && (reply.response.Error? ==>
                  reply.response.error in {PolicyIneligible, RecipeChanged, PolicyMismatch})
  {
    hide ValidDocument;
    var next := Apply(cfg, d, first).doc;
    ClaimKeeps(cfg, d, first);
    HistoryMonotone(cfg, next, later);
    var mid := RunOps(cfg, next, later);
    assert cfg.digest(again.inputs) in mid;
  }
}
