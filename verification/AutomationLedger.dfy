/** The ledger document, its save-time validator and its operations, first as
    functions from document to document and then as the class that updates one
    document in place. Every save validates the whole document and replaces it
    atomically; a refused save leaves the document as it was. */
module AutomationLedger {
  import opened Wrappers
  import opened AutomationRow

  const MAX_RECIPES := 256
  const MAX_ATTEMPTS := 2048
  const MAX_ATTEMPTS_PER_RECIPE := 128
  const MAX_GENERATIONS := 8

  /** What an attempt key digests. */
  datatype Inputs = Inputs(recipeId: RecipeId, identity: Identity, sha: Sha)

  datatype Config = Config(digest: Inputs -> Key, maxAttempts: nat, maxPerRecipe: nat)

  datatype Entry = Entry(key: Key, recipeId: RecipeId, sha: Sha, identity: Identity, generations: seq<Row>)
  {
    function ToClaim(): Claim { Claim(key, recipeId, sha, identity) }
    function ToInputs(): Inputs { Inputs(recipeId, identity, sha) }
  }

  type Document = map<Key, Entry>

  /** The stored Recipe at the moment its lease is held; `None` when it cannot be read. */
  datatype Recipe = Recipe(name: RecipeId, sha: Sha, active: bool, enabled: bool, policy: Policy)

  // ---------------------------------------------------------------- validator

  function AttemptsOf(d: Document, recipeId: RecipeId): set<Key> {
    set k | k in d && d[k].recipeId == recipeId
  }

  function Recipes(d: Document): set<RecipeId> {
    set k | k in d :: d[k].recipeId
  }

  predicate ValidEntry(cfg: Config, k: Key, e: Entry) {
    && e.key == k
    && cfg.digest(e.ToInputs()) == k
    && 1 <= |e.generations| <= MAX_GENERATIONS
    && forall i :: 0 <= i < |e.generations| ==> ValidRow(e.generations[i], i)
  }

  predicate ValidDocument(cfg: Config, d: Document) {
    && |d| <= cfg.maxAttempts
    && (forall k :: k in d ==> ValidEntry(cfg, k, d[k]))
    && (forall k :: k in d ==> |AttemptsOf(d, d[k].recipeId)| <= cfg.maxPerRecipe)
    && |Recipes(d)| <= MAX_RECIPES
  }

  predicate HasRow(d: Document, k: Key, g: int) {
    k in d && 0 <= g < |d[k].generations|
  }

  function RowAt(d: Document, k: Key, g: nat): Row
    requires HasRow(d, k, g)
  {
    d[k].generations[g]
  }

  function PutRow(d: Document, k: Key, g: nat, row: Row): Document
    requires HasRow(d, k, g)
  {
    d[k := d[k].(generations := d[k].generations[g := row])]
  }

  /** The one way a row changes: validate the document with the new row, or refuse. */
  lemma PutRowValid(cfg: Config, d: Document, k: Key, g: nat, row: Row)
    requires ValidDocument(cfg, d) && HasRow(d, k, g)
    ensures ValidDocument(cfg, PutRow(d, k, g, row)) <==> ValidRow(row, g)
  {
    hide StateRules, StageRules;
    var w := PutRow(d, k, g, row);
    assert w.Keys == d.Keys;
    assert |w| == |w.Keys| && |d| == |d.Keys|;
    assert forall j :: j in d ==> w[j].recipeId == d[j].recipeId;
    assert Recipes(w) == Recipes(d);
    forall j | j in w ensures AttemptsOf(w, w[j].recipeId) == AttemptsOf(d, d[j].recipeId) {}
    if ValidRow(row, g) {
      forall j | j in w ensures ValidEntry(cfg, j, w[j]) { assert ValidEntry(cfg, j, d[j]); }
    }
    if ValidDocument(cfg, w) {
      assert ValidEntry(cfg, k, w[k]);
      assert ValidRow(w[k].generations[g], g);
    }
  }

  // --------------------------------------------------------------- operations

  datatype Response =
    | RowReply(row: Row)
    | ClaimReply(created: bool, key: Key, generation: nat)
    | Error(error: LedgerError)

  datatype Reply = Reply(doc: Document, response: Response)

  datatype Op =
    | ClaimOp(live: Option<Recipe>, inputs: Inputs, policy: Policy, detectOnly: bool, detectedAt: Time,
              baselineOnFirst: bool, now: Time)
    | RetryOp(live: Option<Recipe>, recipeId: RecipeId, key: Key, expected: int, expectedUpdatedAt: Option<Time>,
              now: Time)
    | PreallocateOp(key: Key, generation: int, candidate: RunId, now: Time)
    | LinkOp(key: Key, generation: int, runId: RunId, found: Option<RunHeader>, now: Time)
    | FinishOp(key: Key, generation: int, classification: Classification, retryClass: RetryClass, retryCount: int,
               notBefore: Option<Time>, lastError: Option<Code>, diagnostic: Option<Code>, now: Time)
    | AdvanceOp(key: Key, generation: int, stage: Stage, validationId: Option<AttemptId>,
                publicationId: Option<AttemptId>, now: Time)
    | NotifyOp(key: Key, generation: int, now: Time)

  function Eligible(live: Option<Recipe>, recipeId: RecipeId, sha: Sha, policy: Policy): bool {
    live.Some? && live.value.name == recipeId && live.value.sha == sha && live.value.active
    && live.value.enabled && live.value.policy == policy
  }

  function NewEntry(key: Key, inputs: Inputs, row: Row): Entry {
    Entry(key, inputs.recipeId, inputs.sha, inputs.identity, [row])
  }

  function FirstRow(d: Document, op: Op): Row
    requires op.ClaimOp?
  {
    var first := FreshRow(op.policy, op.detectedAt, 0, op.now);
    var baseline := op.baselineOnFirst
      && !exists k :: k in d && d[k].recipeId == op.inputs.recipeId && d[k].sha == op.inputs.sha;
    if op.detectOnly || baseline then
      first.(state := Terminal, classification := Some(Success), stage := TerminalStage,
             diagnostic := Some(if baseline then "initial_baseline" else "detect_only_handled"))
    else first
  }

  function ClaimCurrent(cfg: Config, d: Document, op: Op): Reply
    requires op.ClaimOp? && ValidDocument(cfg, d)
  {
    var key := cfg.digest(op.inputs);
    if op.policy == Manual || op.detectOnly != (op.policy == Detect) then Reply(d, Error(PolicyIneligible))
    else if !Eligible(op.live, op.inputs.recipeId, op.inputs.sha, op.policy) then Reply(d, Error(RecipeChanged))
    else if key in d then
      assert ValidEntry(cfg, key, d[key]);
      var latest := d[key].generations[|d[key].generations| - 1];
      if latest.policy != op.policy then Reply(d, Error(PolicyMismatch))
      else Reply(d, ClaimReply(false, key, latest.generation))
    else if |d| >= cfg.maxAttempts then Reply(d, Error(BoundsExceeded))
    else if |AttemptsOf(d, op.inputs.recipeId)| >= cfg.maxPerRecipe then Reply(d, Error(BoundsExceeded))
    else
      var saved := d[key := NewEntry(key, op.inputs, FirstRow(d, op))];
      if ValidDocument(cfg, saved) then Reply(saved, ClaimReply(true, key, 0)) else Reply(d, Error(BoundsExceeded))
  }

  /** Detection order of two attempts of one Recipe. */
  predicate NotNewer(a: Entry, b: Entry)
    requires |a.generations| > 0 && |b.generations| > 0
  {
    var x, y := a.generations[0], b.generations[0];
    x.detectedAt < y.detectedAt
    || (x.detectedAt == y.detectedAt && (x.createdAt < y.createdAt || (x.createdAt == y.createdAt && a.key <= b.key)))
  }

  predicate IsNewest(cfg: Config, d: Document, key: Key)
    requires ValidDocument(cfg, d) && key in d
  {
    assert forall k :: k in d ==> ValidEntry(cfg, k, d[k]);
    forall k :: k in d && d[k].recipeId == d[key].recipeId ==> NotNewer(d[k], d[key])
  }

  function ExplicitRetry(cfg: Config, d: Document, op: Op): Reply
    requires op.RetryOp? && ValidDocument(cfg, d)
  {
    if op.key !in d || d[op.key].recipeId != op.recipeId then Reply(d, Error(AttemptNotFound))
    else if !IsNewest(cfg, d, op.key) then Reply(d, Error(RetryStale))
    else
      assert ValidEntry(cfg, op.key, d[op.key]);
      var entry := d[op.key];
      var latest := entry.generations[|entry.generations| - 1];
      var duplicate := latest.generation == op.expected + 1;
      if op.expected < 0 || (!duplicate && latest.generation != op.expected) then Reply(d, Error(RetryStale))
      else
        var observed := if duplicate then entry.generations[op.expected] else latest;
        if op.expectedUpdatedAt.Some? && op.expectedUpdatedAt.value != observed.updatedAt then Reply(d, Error(RetryStale))
        else if !duplicate && latest.state !in {Terminal, RetryDelayed, Blocked} then Reply(d, Error(RetryNotTerminal))
        else if !duplicate && |entry.generations| >= MAX_GENERATIONS then Reply(d, Error(BoundsExceeded))
        else if !Eligible(op.live, op.recipeId, entry.sha, latest.policy) then Reply(d, Error(RecipeStale))
        else if duplicate then Reply(d, ClaimReply(false, op.key, latest.generation))
        else
          var g := |entry.generations|;
          var row := FreshRow(latest.policy, latest.detectedAt, g, op.now);
          var saved := d[op.key := entry.(generations := entry.generations + [row])];
          if ValidDocument(cfg, saved) then Reply(saved, ClaimReply(true, op.key, g)) else Reply(d, Error(LedgerInvalid))
  }

  predicate IsRowOp(op: Op) { !op.ClaimOp? && !op.RetryOp? }

  function RowEffect(c: Claim, r: Row, op: Op): RowResult
    requires IsRowOp(op)
  {
    match op
    case PreallocateOp(_, _, candidate, now) => Preallocate(r, candidate, now)
    case LinkOp(_, _, runId, found, now) => LinkRun(c, r, runId, found, now)
    case FinishOp(_, _, classification, retryClass, count, notBefore, code, diagnostic, now) =>
      Write(Finish(r, classification, retryClass, count, notBefore, code, diagnostic, now))
    case AdvanceOp(_, _, stage, v, p, now) => Advance(r, stage, v, p, now)
    case NotifyOp(_, _, now) => Notify(r, now)
  }

  /** Load, change one row, validate the whole document, replace it. */
  function UpdateRow(cfg: Config, d: Document, op: Op): Reply
    requires IsRowOp(op)
  {
    if !HasRow(d, op.key, op.generation) then Reply(d, Error(AttemptNotFound))
    else match RowEffect(d[op.key].ToClaim(), RowAt(d, op.key, op.generation), op)
      case Raise(e) => Reply(d, Error(e))
      case Keep(row) => Reply(d, RowReply(row))
      case Write(row) =>
        var saved := PutRow(d, op.key, op.generation, row);
        if ValidDocument(cfg, saved) then Reply(saved, RowReply(row)) else Reply(d, Error(LedgerInvalid))
  }

  function Apply(cfg: Config, d: Document, op: Op): (reply: Reply)
    requires ValidDocument(cfg, d)
    ensures ValidDocument(cfg, reply.doc)
  {
    match op
    case ClaimOp(_, _, _, _, _, _, _) => ClaimCurrent(cfg, d, op)
    case RetryOp(_, _, _, _, _, _) => ExplicitRetry(cfg, d, op)
    case _ => UpdateRow(cfg, d, op)
  }

  // -------------------------------------------------------------- the service

  function Among(d: Document, keys: set<Key>, recipeId: RecipeId): set<Key>
    requires keys <= d.Keys
  {
    set k | k in keys && d[k].recipeId == recipeId
  }

  /** The running tally of the walk: attempts per Recipe among the keys seen so far. */
  predicate Tally(cfg: Config, d: Document, seen: set<Key>, counts: map<RecipeId, nat>)
    requires seen <= d.Keys
  {
    && (forall k :: k in seen ==> ValidEntry(cfg, k, d[k]) && d[k].recipeId in counts)
    && (forall r :: r in counts ==>
          Among(d, seen, r) != {} && counts[r] == |Among(d, seen, r)| && counts[r] <= cfg.maxPerRecipe)
  }

  lemma TallyOne(cfg: Config, d: Document, seen: set<Key>, counts: map<RecipeId, nat>, key: Key)
    requires seen <= d.Keys && Tally(cfg, d, seen, counts) && key in d && key !in seen
    ensures var r := d[key].recipeId;
            var n := (if r in counts then counts[r] else 0) + 1;
            && n == |Among(d, seen + {key}, r)|
            && (ValidEntry(cfg, key, d[key]) && n <= cfg.maxPerRecipe ==> Tally(cfg, d, seen + {key}, counts[r := n]))
  {
    hide ValidEntry;
    var r := d[key].recipeId;
    assert Among(d, seen + {key}, r) == Among(d, seen, r) + {key};
    if r !in counts { assert Among(d, seen, r) == {}; }
    var n := (if r in counts then counts[r] else 0) + 1;
    var next := counts[r := n];
    if ValidEntry(cfg, key, d[key]) && n <= cfg.maxPerRecipe {
      forall q | q in next
        ensures Among(d, seen + {key}, q) != {} && next[q] == |Among(d, seen + {key}, q)| && next[q] <= cfg.maxPerRecipe
      {
        if q != r { assert Among(d, seen + {key}, q) == Among(d, seen, q); }
      }
    }
  }

  lemma TallyAll(cfg: Config, d: Document, counts: map<RecipeId, nat>)
    requires Tally(cfg, d, d.Keys, counts)
    ensures counts.Keys == Recipes(d) && |counts| == |Recipes(d)|
    ensures forall k :: k in d ==> |AttemptsOf(d, d[k].recipeId)| <= cfg.maxPerRecipe
  {
    forall r | r in counts ensures r in Recipes(d) {
      var k :| k in Among(d, d.Keys, r);
    }
    forall k | k in d ensures |AttemptsOf(d, d[k].recipeId)| <= cfg.maxPerRecipe {
      assert AttemptsOf(d, d[k].recipeId) == Among(d, d.Keys, d[k].recipeId);
    }
    assert counts.Keys == Recipes(d);
  }

  /** One iteration of `_validate`: check one entry and count it. */
  method CountEntry(cfg: Config, d: Document, ghost seen: set<Key>, counts: map<RecipeId, nat>, key: Key)
    returns (ok: bool, next: map<RecipeId, nat>)
    requires seen <= d.Keys && Tally(cfg, d, seen, counts) && key in d && key !in seen
    ensures ok ==> Tally(cfg, d, seen + {key}, next)
    ensures !ok ==> !ValidDocument(cfg, d)
  {
    var recipeId := d[key].recipeId;
    var n := (if recipeId in counts then counts[recipeId] else 0) + 1;
    TallyOne(cfg, d, seen, counts, key);
    SubsetSize(Among(d, seen + {key}, recipeId), AttemptsOf(d, recipeId));
    next := counts[recipeId := n];
    ok := ValidEntry(cfg, key, d[key]) && n <= cfg.maxPerRecipe;
  }

  /** `_validate` counts attempts per Recipe while it walks the document. */
  method Validate(cfg: Config, d: Document) returns (ok: bool)
    ensures ok <==> ValidDocument(cfg, d)
  {
    if |d| > cfg.maxAttempts { return false; }
    var counts: map<RecipeId, nat> := map[];
    var todo := d.Keys;
    ghost var seen: set<Key> := {};
    while todo != {}
      invariant todo <= d.Keys && seen == d.Keys - todo
      invariant Tally(cfg, d, seen, counts)
      decreases |todo|
    {
      var key :| key in todo;
      ok, counts := CountEntry(cfg, d, seen, counts, key);
      if !ok { return; }
      assert seen + {key} == d.Keys - (todo - {key});
      seen, todo := seen + {key}, todo - {key};
    }
    assert seen == d.Keys;
    TallyAll(cfg, d, counts);
    return |counts| <= MAX_RECIPES;
  }

  lemma SubsetSize<T>(a: set<T>, b: set<T>)
    requires a <= b
    ensures |a| <= |b|
  {
    assert b == a + (b - a);
  }

  class Ledger {
    const cfg: Config
    var attempts: Document

    ghost predicate Valid()
      reads this
    {
      ValidDocument(cfg, attempts)
    }

    constructor (digest: Inputs -> Key, maxAttempts: int, maxPerRecipe: int)
      ensures Valid() && attempts == map[]
      ensures 1 <= cfg.maxAttempts <= MAX_ATTEMPTS && 1 <= cfg.maxPerRecipe <= MAX_ATTEMPTS_PER_RECIPE && cfg.digest == digest
      ensures (maxAttempts < 1 ==> cfg.maxAttempts == 1) && (maxAttempts > MAX_ATTEMPTS ==> cfg.maxAttempts == MAX_ATTEMPTS)
      ensures 1 <= maxAttempts <= MAX_ATTEMPTS ==> cfg.maxAttempts == maxAttempts
      ensures (maxPerRecipe < 1 ==> cfg.maxPerRecipe == 1)
              && (maxPerRecipe > MAX_ATTEMPTS_PER_RECIPE ==> cfg.maxPerRecipe == MAX_ATTEMPTS_PER_RECIPE)
      ensures 1 <= maxPerRecipe <= MAX_ATTEMPTS_PER_RECIPE ==> cfg.maxPerRecipe == maxPerRecipe
    {
      var a := if maxAttempts < 1 then 1 else if maxAttempts > MAX_ATTEMPTS then MAX_ATTEMPTS else maxAttempts;
      var p := if maxPerRecipe < 1 then 1
               else if maxPerRecipe > MAX_ATTEMPTS_PER_RECIPE then MAX_ATTEMPTS_PER_RECIPE else maxPerRecipe;
      cfg := Config(digest, a, p);
      attempts := map[];
      new;
      assert Recipes(attempts) == {};
    }

    /** Validate, then atomically replace the document; refuse otherwise. */
    method Save(document: Document) returns (saved: bool)
      requires Valid()
      modifies this`attempts
      ensures Valid()
      ensures saved <==> ValidDocument(cfg, document)
      ensures attempts == if saved then document else old(attempts)
    {
      saved := Validate(cfg, document);
      if saved { attempts := document; }
    }

    /** Detection claim, compared and stored while the ledger and Recipe leases are held. */
    method ClaimCurrentRecipe(op: Op) returns (response: Response)
      requires Valid() && op.ClaimOp?
      modifies this`attempts
      ensures Valid()
      ensures Reply(attempts, response) == Apply(cfg, old(attempts), op)
    {
      hide StateRules, StageRules, Recipes, FirstRow;
      if op.policy == Manual || op.detectOnly != (op.policy == Detect) { return Error(PolicyIneligible); }
      if !Eligible(op.live, op.inputs.recipeId, op.inputs.sha, op.policy) { return Error(RecipeChanged); }
      var key := cfg.digest(op.inputs);
      if key in attempts {
        assert ValidEntry(cfg, key, attempts[key]);
        var generations := attempts[key].generations;
        var latest := generations[|generations| - 1];
        if latest.policy != op.policy { return Error(PolicyMismatch); }
        return ClaimReply(false, key, latest.generation);
      }
      if |attempts| >= cfg.maxAttempts { return Error(BoundsExceeded); }
      if |AttemptsOf(attempts, op.inputs.recipeId)| >= cfg.maxPerRecipe { return Error(BoundsExceeded); }
      var saved := Save(attempts[key := NewEntry(key, op.inputs, FirstRow(attempts, op))]);
      response := if saved then ClaimReply(true, key, 0) else Error(BoundsExceeded);
    }

    /** Operator retry: create or reuse one generation for the observed one. */
    method ExplicitRetryCurrentRecipe(op: Op) returns (response: Response)
      requires Valid() && op.RetryOp?
      modifies this`attempts
      ensures Valid()
      ensures Reply(attempts, response) == Apply(cfg, old(attempts), op)
    {
      hide StateRules, StageRules, Recipes, AttemptsOf, NotNewer;
      if op.key !in attempts || attempts[op.key].recipeId != op.recipeId { return Error(AttemptNotFound); }
      if !IsNewest(cfg, attempts, op.key) { return Error(RetryStale); }
      assert ValidEntry(cfg, op.key, attempts[op.key]);
      var entry := attempts[op.key];
      var latest := entry.generations[|entry.generations| - 1];
      if op.expected < 0 { return Error(RetryStale); }
      var duplicate := latest.generation == op.expected + 1;
      if !duplicate && latest.generation != op.expected { return Error(RetryStale); }
      var observed := if duplicate then entry.generations[op.expected] else latest;
      if op.expectedUpdatedAt.Some? && op.expectedUpdatedAt.value != observed.updatedAt { return Error(RetryStale); }
      if !duplicate && latest.state !in {Terminal, RetryDelayed, Blocked} { return Error(RetryNotTerminal); }
      if !duplicate && |entry.generations| >= MAX_GENERATIONS { return Error(BoundsExceeded); }
      if !Eligible(op.live, op.recipeId, entry.sha, latest.policy) { return Error(RecipeStale); }
      if duplicate { return ClaimReply(false, op.key, latest.generation); }
      var row := FreshRow(latest.policy, latest.detectedAt, |entry.generations|, op.now);
      var saved := Save(attempts[op.key := entry.(generations := entry.generations + [row])]);
      response := if saved then ClaimReply(true, op.key, |entry.generations|) else Error(LedgerInvalid);
    }

    /** preallocate_run, link_run, finish, advance_lifecycle and mark_completion_notified. */
    method ChangeRow(op: Op) returns (response: Response)
      requires Valid() && IsRowOp(op)
      modifies this`attempts
      ensures Valid()
      ensures Reply(attempts, response) == Apply(cfg, old(attempts), op)
    {
      if !HasRow(attempts, op.key, op.generation) { return Error(AttemptNotFound); }
      match RowEffect(attempts[op.key].ToClaim(), RowAt(attempts, op.key, op.generation), op)
      case Raise(e) => return Error(e);
      case Keep(row) => return RowReply(row);
      case Write(row) =>
        var saved := Save(PutRow(attempts, op.key, op.generation, row));
        response := if saved then RowReply(row) else Error(LedgerInvalid);
    }
  }
}
