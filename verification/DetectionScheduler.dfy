/** The detection scheduler: a coalescing queue of Recipe checks, passes over the Recipe
    inventory with one worker per Recipe, and a loop that starts passes. Other threads act
    between any two of the loop's guarded sections.

    The ghost counters follow one Recipe, `watched`. It is an arbitrary parameter of the
    constructor that no statement of the scheduler reads, so what is proved about it holds
    for every Recipe. */
module DetectionScheduler {
  import opened Wrappers

  /** A Recipe id. */
  type Id = nat

  const MAX_RECIPES := 256
  const MIN_BACKOFF := 60
  const MAX_BACKOFF := 21600

  // ----------------------------------------------------------------- retry delays

  function Min(a: int, b: int): int { if a <= b then a else b }
  function Max(a: int, b: int): int { if a >= b then a else b }

  function Power(n: nat): (p: nat)
    ensures p >= 1
  {
    if n == 0 then 1 else 2 * Power(n - 1)
  }

  /** The delay without server hints; `jitter` is the digest-derived percentage. */
  function Computed(count: nat, jitter: nat): int
    requires count >= 1
  {
    var base := Min(MAX_BACKOFF, MIN_BACKOFF * Power(count - 1));
    Min(MAX_BACKOFF, base + base * jitter / 100)
  }

  /** _retry_delay; `retryAfter` and `reset` are the server's hints, the latter relative. */
  function RetryDelay(count: nat, jitter: nat, retryAfter: Option<int>, reset: Option<int>): (r: int)
    requires count >= 1
    ensures MIN_BACKOFF <= r <= MAX_BACKOFF
    ensures retryAfter.Some? ==> r >= Min(retryAfter.value, MAX_BACKOFF)
    ensures reset.Some? ==> r >= Min(reset.value, MAX_BACKOFF)
  {
    var a := if retryAfter.Some? && retryAfter.value >= 0 then Max(Computed(count, jitter), retryAfter.value) else Computed(count, jitter);
    var b := if reset.Some? then Max(a, Max(0, reset.value)) else a;
    Max(MIN_BACKOFF, Min(MAX_BACKOFF, b))
  }

  /** Under the same server hints, the jitter never lets a later retry wait less than an
      earlier one. */
  lemma BackoffGrows(count: nat, j: nat, k: nat, retryAfter: Option<int>, reset: Option<int>)
    requires count >= 1 && j < 16 && k < 16
    ensures RetryDelay(count, j, retryAfter, reset) <= RetryDelay(count + 1, k, retryAfter, reset)
  {
    hide Computed;
    ComputedGrows(count, j, k);
  }

  lemma ComputedGrows(count: nat, j: nat, k: nat)
    requires count >= 1 && j < 16 && k < 16
    ensures Computed(count, j) <= Computed(count + 1, k)
  {
    var p := Power(count - 1);
    assert Power(count) == 2 * p;
    var base, next := Min(MAX_BACKOFF, MIN_BACKOFF * p), Min(MAX_BACKOFF, MIN_BACKOFF * (2 * p));
    Scaled(base, j);
    Scaled(next, k);
  }

  /** Without hints the first retry waits 60 s, each further one twice as long up to six hours,
      and the jitter adds at most 15 percent. */
  lemma BackoffDoubles(count: nat, j: nat)
    requires count >= 1 && j < 16
    ensures Computed(1, 0) == 60
    ensures Computed(count + 1, 0) == Min(21600, 2 * Computed(count, 0))
    ensures Computed(count, 0) <= Computed(count, j) && 100 * Computed(count, j) <= 115 * Computed(count, 0)
    ensures RetryDelay(count, j, None, None) == Computed(count, j)
  {
    var p := Power(count - 1);
    assert Power(count) == 2 * p;
    var base := Min(MAX_BACKOFF, MIN_BACKOFF * p);
    assert base >= 60 && base * j <= base * 15;
  }

  lemma Scaled(base: nat, j: nat)
    requires j < 16
    ensures 0 <= base * j / 100 <= base
  {
    assert 0 <= base * j <= base * 16;
  }

  // ----------------------------------------------------------------------- passes

  /** MIN_BACKOFF_SECONDS on the clock. */
  const PAUSE := 60.0

  datatype Cause = AtStart | ByRequest | ByTimer | ByFollowUp

  /** A pass that was started; `end` is None while it runs. */
  datatype Pass = Pass(cause: Cause, start: real, end: Option<real>)

  /** `p` may follow `before`: an unrequested pass keeps the distance, and the pass that
      follows another at once is not itself followed at once. */
  predicate After(before: Pass, p: Pass) {
    && before.end.Some? && before.start <= before.end.value <= p.start
    && (p.cause == ByTimer ==> p.start >= before.end.value + PAUSE)
    && (p.cause == ByFollowUp ==> before.cause != ByFollowUp)
    && p.cause != AtStart
  }

  predicate Spaced(passes: seq<Pass>) {
    forall i :: 0 <= i < |passes| - 1 ==> After(passes[i], passes[i + 1])
  }

  /** Of two passes in a row that nobody asked for, the second comes after the pause. */
  lemma NoSpinning(passes: seq<Pass>, i: nat)
    requires Spaced(passes) && i + 2 < |passes|
    requires passes[i + 1].cause != ByRequest && passes[i + 2].cause != ByRequest
    ensures passes[i + 2].start >= passes[i].start + PAUSE
  {
    assert After(passes[i], passes[i + 1]);
    assert After(passes[i + 1], passes[i + 1 + 1]);
  }

  /** The last pass is the active one, or ended by now. */
  ghost predicate Timed(passes: seq<Pass>, active: bool, accept: bool, launched: bool, wake: bool, cause: Cause, now: real) {
    && Spaced(passes) && (wake ==> cause == ByRequest || (cause == AtStart && !launched)) && (passes != [] ==> launched)
    && (active ==> passes != [])
    && (passes != [] ==>
          var last := passes[|passes| - 1];
          && last.start <= now && last.end.None? == active && (!active ==> last.start <= last.end.value <= now)
          && (active ==> (accept <==> last.cause != ByFollowUp)))
  }

  lemma TimedBegin(passes: seq<Pass>, was: bool, accept: bool, launched: bool, wake: bool, cause: Cause, now: real, p: Pass)
    requires Timed(passes, false, was, launched, wake, cause, now) && p.start == now && p.end.None?
    requires passes != [] ==> After(passes[|passes| - 1], p)
    requires launched && (accept <==> p.cause != ByFollowUp)
    ensures Timed(passes + [p], true, accept, launched, wake, cause, now)
  {
    var all := passes + [p];
    forall i | 0 <= i < |all| - 1 ensures After(all[i], all[i + 1]) {
      if i < |passes| - 1 { assert After(passes[i], passes[i + 1]); }
    }
  }

  lemma TimedEnd(passes: seq<Pass>, accept: bool, launched: bool, wake: bool, cause: Cause, now: real)
    requires Timed(passes, true, accept, launched, wake, cause, now)
    ensures passes != [] && Timed(passes[|passes| - 1 := passes[|passes| - 1].(end := Some(now))], false, accept, launched, wake, cause, now)
  {
    var last := |passes| - 1;
    var all := passes[last := passes[last].(end := Some(now))];
    forall i | 0 <= i < |all| - 1 ensures After(all[i], all[i + 1]) {
      assert After(passes[i], passes[i + 1]);
    }
  }

  lemma NotStarted(wake: bool, now: real)
    ensures Timed([], false, false, false, wake, AtStart, now)
  {}

  lemma TimedLater(passes: seq<Pass>, active: bool, accept: bool, launched: bool, wake: bool, cause: Cause, now: real, later: real)
    requires Timed(passes, active, accept, launched, wake, cause, now) && now <= later
    ensures Timed(passes, active, accept, launched, wake, cause, later) && Timed(passes, active, accept, launched, false, cause, later)
  {}

  // ------------------------------------------------------------------- accounting

  /** A pass that dropped a check of the watched Recipe, and the inventory it had. */
  datatype Drop = Drop(pass: int, inventory: set<Id>)

  /** What became of the checks created for one Recipe. `owed` is the one taken from the
      queue by the active pass whose worker is not started yet. */
  datatype Books = Books(queued: nat, served: nat, drops: seq<Drop>, lost: nat, owed: bool)

  function One(b: bool): nat { if b then 1 else 0 }

  lemma OneCounts(b: bool)
    ensures One(b) == if b then 1 else 0
  {}

  /** Every created check was served, dropped or lost, is still queued, or is owed. */
  predicate Balanced(b: Books, requested: set<Id>, r: Id) {
    b.queued == b.served + |b.drops| + b.lost + One(r in requested) + One(b.owed)
  }

  /** Checks are dropped only by follow-up passes whose inventory lacks the Recipe. */
  ghost predicate RightlyDropped(drops: seq<Drop>, passes: seq<Pass>, r: Id) {
    forall i :: 0 <= i < |drops| ==>
      0 <= drops[i].pass < |passes| && passes[drops[i].pass].cause == ByFollowUp && r !in drops[i].inventory
  }

  lemma DropsBegin(drops: seq<Drop>, passes: seq<Pass>, r: Id, p: Pass)
    requires RightlyDropped(drops, passes, r)
    ensures RightlyDropped(drops, passes + [p], r)
  {}

  lemma DropsEnd(drops: seq<Drop>, passes: seq<Pass>, r: Id, now: real)
    requires RightlyDropped(drops, passes, r) && passes != []
    ensures RightlyDropped(drops, passes[|passes| - 1 := passes[|passes| - 1].(end := Some(now))], r)
  {}

  lemma DropsMore(drops: seq<Drop>, passes: seq<Pass>, r: Id, d: Drop)
    requires RightlyDropped(drops, passes, r) && 0 <= d.pass < |passes| && passes[d.pass].cause == ByFollowUp && r !in d.inventory
    ensures RightlyDropped(drops + [d], passes, r)
  {}

  lemma LoseOwed(b: Books, requested: set<Id>, r: Id)
    requires Balanced(b, requested, r)
    ensures Balanced(b.(lost := b.lost + One(b.owed), owed := false), requested, r)
    ensures !b.owed ==> One(b.owed) == 0
  {}

  /** The checks that leave the queue when an inventory is taken. */
  function Leaving(requested: set<Id>, found: set<Id>, accept: bool): set<Id> {
    if accept then requested * found else requested
  }

  /** A found check becomes owed; one that leaves without being found is dropped. */
  function TakenBooks(b: Books, pass: int, requested: set<Id>, found: set<Id>, accept: bool, r: Id): Books {
    b.(owed := r in requested && r in found,
       drops := if !accept && r in requested && r !in found then b.drops + [Drop(pass, found)] else b.drops)
  }

  lemma InventoryFacts(b: Books, passes: seq<Pass>, requested: set<Id>, observations: set<Id>, found: set<Id>, accept: bool, r: Id)
    requires Balanced(b, requested, r) && !b.owed && InBounds(requested, observations)
    requires RightlyDropped(b.drops, passes, r) && passes != [] && (accept <==> passes[|passes| - 1].cause != ByFollowUp)
    ensures var taken, gone := TakenBooks(b, |passes| - 1, requested, found, accept, r), Leaving(requested, found, accept);
            && Balanced(taken, requested - gone, r) && InBounds(requested - gone, observations - gone)
            && RightlyDropped(taken.drops, passes, r)
            && requested - gone == (if accept then requested - found else {})
            && (requested == {} ==> requested - gone == {})
            && taken.lost == b.lost && taken.served == b.served && taken.queued == b.queued
            && (taken.owed <==> r in requested && r in found)
            && (accept ==> taken.drops == b.drops)
            && |taken.drops| == |b.drops| + One(!accept && r in requested && r !in found)
  {
    hide InBounds;
    Smaller(requested, observations, Leaving(requested, found, accept));
  }

  lemma TimedFacts(passes: seq<Pass>, accept: bool, launched: bool, wake: bool, cause: Cause, now: real)
    requires Timed(passes, true, accept, launched, wake, cause, now)
    ensures passes != [] && (accept <==> passes[|passes| - 1].cause != ByFollowUp)
  {}

  /** The queue is bounded, and observations are queued checks. */
  predicate InBounds(requested: set<Id>, observations: set<Id>) {
    |requested| <= MAX_RECIPES && observations <= requested
  }

  lemma Smaller(requested: set<Id>, observations: set<Id>, gone: set<Id>)
    requires InBounds(requested, observations)
    ensures InBounds(requested - gone, observations - gone)
  {
    assert requested == (requested - gone) + (requested * gone);
  }

  datatype Reply = Unavailable | Disabled | Blocked | Capacity | Busy | Accepted(created: bool)

  function Clamp(x: real): (r: real)
    ensures 0.0 <= r <= MAX_BACKOFF as real
    ensures 0.0 <= x <= MAX_BACKOFF as real ==> r == x
    ensures (x < 0.0 ==> r == 0.0) && (x > MAX_BACKOFF as real ==> r == MAX_BACKOFF as real)
  {
    if x <= 0.0 then 0.0 else if x >= MAX_BACKOFF as real then MAX_BACKOFF as real else x
  }

  class Scheduler {
    const enabled: bool
    const interval: int
    var running: bool
    var stopRequested: bool
    var wake: bool
    var passActive: bool
    var inventoryReady: bool
    var acceptFollowUp: bool
    var passRecipes: set<Id>
    var inflight: set<Id>
    var observationOnly: set<Id>
    var requested: set<Id>
    var requestedObservations: set<Id>
    var nextPeriodic: real
    var recheckDeadline: Option<real>
    var followUp: bool
    /** The monotonic clock. */
    var now: real
    /** The Recipe between its mark and the executor. */
    var submitting: Option<Id>

    ghost const watched: Id
    ghost var books: Books
    /** Workers of the watched Recipe handed to the executor and not ended. */
    ghost var workers: nat
    /** Some pass ended by an exception. */
    ghost var broken: bool
    /** The wake set at construction was consumed. */
    ghost var launched: bool
    ghost var cause: Cause
    ghost var passes: seq<Pass>

    ghost predicate Inv()
      reads this
    {
      && interval >= 60 && InBounds(requested, requestedObservations)
      && Balanced(books, requested, watched)
      && workers + One(submitting == Some(watched)) == One(watched in inflight)
      && (!stopRequested && !broken ==> books.lost == 0)
      && (stopRequested ==> requested == {})
      && (!passActive ==> !books.owed && submitting == None)
      && (!passActive && !stopRequested && !broken ==> watched !in inflight)
      && Timed(passes, passActive, acceptFollowUp, launched, wake, cause, now)
      && RightlyDropped(books.drops, passes, watched)
    }

    /** The loop is between passes and its deadlines belong to the last one. */
    ghost predicate Waiting()
      reads this
    {
      && !passActive
      && (passes == [] ==> !followUp)
      && (passes != [] && !stopRequested ==>
            var last := passes[|passes| - 1];
            last.end.Some? && recheckDeadline.Some? && recheckDeadline.value >= last.end.value + PAUSE
            && nextPeriodic >= last.end.value + PAUSE && (followUp ==> last.cause != ByFollowUp))
    }

    constructor (checks: bool, seconds: int, clock: real, ghost any: Id)
      requires 60 <= seconds <= 86400
      ensures Inv() && Waiting()
      ensures passes == [] && watched == any && books == Books(0, 0, [], 0, false)
      ensures !broken && !stopRequested && requested == {} && wake && enabled == checks && running && inflight == {}
      ensures cause == AtStart && submitting == None && !followUp
    {
      enabled, interval, now := checks, seconds, clock;
      running, stopRequested, wake, cause := true, false, true, AtStart;
      passActive, inventoryReady, acceptFollowUp, followUp := false, false, false, false;
      passRecipes, inflight, observationOnly, requested, requestedObservations := {}, {}, {}, {}, {};
      nextPeriodic, recheckDeadline, submitting := clock + seconds as real, None, None;
      watched, books, workers, broken, passes, launched := any, Books(0, 0, [], 0, false), 0, false, [], false;
      new;
      hide Timed, RightlyDropped;
      NotStarted(wake, now);
    }

    // -------------------------------------------------------------- other threads

    /** What the other threads can do: time passes, workers end, and until a stop the queue
        only grows. They settle no check. */
    twostate predicate Later()
      reads this
    {
      && old(now) <= now && (old(stopRequested) ==> stopRequested)
      && inflight <= old(inflight) && old(books).queued <= books.queued
      && books.served == old(books).served && books.drops == old(books).drops && books.owed == old(books).owed
      && (!stopRequested ==> old(requested) <= requested && (old(wake) ==> wake))
    }

    /** Add to the queue; outside a pass this wakes the loop. */
    method Enqueue(r: Id)
      requires Inv() && |requested| < MAX_RECIPES && !stopRequested
      modifies this`requested, this`wake, this`cause, this`books
      ensures Inv() && requested == old(requested) + {r}
      ensures books == old(books).(queued := old(books).queued + One(r == watched && r !in old(requested)))
      ensures wake == (old(wake) || !passActive)
    {
      hide Spaced, RightlyDropped;
      books := books.(queued := books.queued + One(r == watched && r !in requested));
      requested := requested + {r};
      if !passActive { Wake(); }
    }

    method Wake()
      requires Inv()
      modifies this`wake, this`cause
      ensures Inv() && wake
    {
      hide Spaced, RightlyDropped;
      if !wake { cause := ByRequest; }
      wake := true;
    }

    /** request and request_orchestration */
    method Request(available: bool) returns (ok: bool)
      requires Inv()
      modifies this`wake, this`cause
      ensures Later()
      ensures Inv() && wake == (old(wake) || ok)
      ensures ok <==> available && !stopRequested && (passActive ==> acceptFollowUp)
    {
      if stopRequested || !available || (passActive && !acceptFollowUp) { return false; }
      Wake();
      return true;
    }

    /** A check of this Recipe is queued or still to come; one that only observes does not count. */
    ghost predicate Covered(r: Id)
      reads this
    {
      if r in inflight then r !in observationOnly
      else r in requested || (passActive && inventoryReady && r in passRecipes)
    }

    /** request_recipe */
    method RequestRecipe(r: Id, accepting: bool, open: bool) returns (reply: Reply)
      requires Inv()
      modifies this`requested, this`requestedObservations, this`observationOnly, this`wake, this`cause, this`books
      ensures Later()
      ensures Inv()
      ensures requested == if reply == Accepted(true) then old(requested) + {r} else old(requested)
      ensures books == old(books).(queued := old(books).queued + One(reply == Accepted(true) && r == watched && r !in old(requested)))
      ensures reply == Accepted(false) ==> r in requested || r in inflight || (passActive && r in passRecipes)
      ensures reply == Accepted(true) <==>
        && accepting && running && !stopRequested && enabled && open && !old(Covered(r))
        && |old(requested)| < MAX_RECIPES && (passActive ==> acceptFollowUp)
      ensures reply == Accepted(false) <==> accepting && running && !stopRequested && enabled && open && old(Covered(r))
      ensures reply == Busy ==> passActive && !acceptFollowUp
      ensures reply.Accepted? ==> r !in requestedObservations && r !in observationOnly
      ensures wake == (old(wake) || (reply == Accepted(true) && !passActive))
    {
      hide Timed, RightlyDropped;
      if stopRequested || !running || !accepting { return Unavailable; }
      if !enabled { return Disabled; }
      if !open { return Blocked; }
      var observing := r in inflight && r in observationOnly;
      var existing := (r in inflight && !observing) || r in requested || (passActive && inventoryReady && r in passRecipes);
      if observing { existing := false; }
      if !existing {
        if |requested| >= MAX_RECIPES { return Capacity; }
        if passActive && !acceptFollowUp { return Busy; }
        Enqueue(r);
      }
      reply := Accepted(!existing);
      requestedObservations := requestedObservations - {r};
      observationOnly := observationOnly - {r};
    }

    /** request_observation */
    method RequestObservation(r: Id, accepting: bool) returns (reply: Reply)
      requires Inv()
      modifies this`requested, this`requestedObservations, this`wake, this`cause, this`books
      ensures Later()
      ensures Inv()
      ensures requested == if reply == Accepted(true) then old(requested) + {r} else old(requested)
      ensures books == old(books).(queued := old(books).queued + One(reply == Accepted(true) && r == watched))
      ensures reply == Accepted(false) ==> r in requested || r in inflight || (passActive && r in passRecipes)
      ensures reply == Accepted(true) <==>
        && accepting && running && !stopRequested && |old(requested)| < MAX_RECIPES
        && r !in old(requested) && r !in inflight && !(passActive && inventoryReady && r in passRecipes)
      ensures reply == Accepted(true) ==> r in requestedObservations
      ensures reply != Busy && wake == (old(wake) || (reply == Accepted(true) && !passActive))
    {
      hide Timed, RightlyDropped;
      if stopRequested || !running || !accepting { return Unavailable; }
      var existing := r in inflight || r in requested || (passActive && inventoryReady && r in passRecipes);
      if !existing {
        if |requested| >= MAX_RECIPES { return Capacity; }
        Enqueue(r);
        requestedObservations := requestedObservations + {r};
      }
      reply := Accepted(!existing);
    }

    /** A worker ends, or its future is cancelled before it ran. */
    method EndWorker(r: Id)
      requires Inv() && r in inflight && submitting != Some(r)
      modifies this`inflight, this`workers
      ensures Later()
      ensures Inv() && inflight == old(inflight) - {r}
    {
      hide Timed, RightlyDropped;
      inflight := inflight - {r};
      workers := workers - One(r == watched);
    }

    /** stop */
    method Stop()
      requires Inv()
      modifies this`stopRequested, this`wake, this`requested, this`requestedObservations, this`books
      ensures Later()
      ensures Inv() && stopRequested && requested == {} && !wake
      ensures books.queued == old(books).queued && books.served == old(books).served && books.drops == old(books).drops
      ensures books.owed == old(books).owed
    {
      hide Spaced, RightlyDropped;
      books := books.(lost := books.lost + One(watched in requested));
      stopRequested, wake := true, false;
      requested, requestedObservations := {}, {};
    }

    method Tick(passed: real)
      requires Inv() && passed >= 0.0
      modifies this`now
      ensures Inv() && Later()
    {
      hide Timed, Balanced, One, RightlyDropped;
      TimedLater(passes, passActive, acceptFollowUp, launched, wake, cause, now, now + passed);
      now := now + passed;
    }

    /** One action of another thread. */
    method Other()
      requires Inv()
      modifies this`requested, this`requestedObservations, this`observationOnly, this`wake, this`cause, this`books,
        this`inflight, this`workers, this`stopRequested, this`now
      ensures Inv() && Later()
    {
      hide Inv, Later;
      var action: int, r: Id, open, accepting := *, *, *, *;
      if action == 0 {
        var reply := RequestRecipe(r, accepting, open);
      } else if action == 1 {
        var reply := RequestObservation(r, accepting);
      } else if action == 2 {
        var ok := Request(accepting);
      } else if action == 3 && r in inflight && submitting != Some(r) {
        EndWorker(r);
      } else if action == 4 {
        Stop();
      } else {
        var passed: real := *;
        if passed < 0.0 { passed := 0.0; }
        Tick(passed);
      }
    }

    /** What the other threads do while the loop holds no lock. */
    method Others()
      requires Inv()
      modifies this`requested, this`requestedObservations, this`observationOnly, this`wake, this`cause, this`books,
        this`inflight, this`workers, this`stopRequested, this`now
      ensures Inv() && Later()
    {
      hide Inv;
      var rounds: int := *;
      for k := 0 to if rounds < 0 then 0 else rounds
        invariant Inv() && Later()
      {
        Other();
      }
    }

    // ----------------------------------------------------------------------- a pass

    /** The first guarded section of run_pass. */
    method BeginPass(accept: bool, ghost why: Cause)
      requires Inv() && !passActive && !stopRequested
      requires passes != [] ==> After(passes[|passes| - 1], Pass(why, now, None))
      requires launched && (accept <==> why != ByFollowUp)
      modifies this`passActive, this`inventoryReady, this`passRecipes, this`observationOnly, this`acceptFollowUp, this`passes
      ensures Inv() && passActive && acceptFollowUp == accept && passes == old(passes) + [Pass(why, now, None)]
      ensures !inventoryReady && passRecipes == {}
    {
      hide Timed, After, RightlyDropped;
      TimedBegin(passes, acceptFollowUp, accept, launched, wake, cause, now, Pass(why, now, None));
      DropsBegin(books.drops, passes, watched, Pass(why, now, None));
      passActive, inventoryReady, acceptFollowUp := true, false, accept;
      passRecipes, observationOnly := {}, {};
      passes := passes + [Pass(why, now, None)];
    }

    /** The inventory section: checks the inventory holds are taken; only a follow-up pass
        drops the others. */
    method TakeInventory(found: set<Id>, delayed: set<Id>)
      requires Inv() && passActive && !books.owed
      modifies this`passRecipes, this`inventoryReady, this`observationOnly, this`requested, this`requestedObservations, this`books
      ensures Inv() && passRecipes == found && inventoryReady
      ensures requested == if acceptFollowUp then old(requested) - found else {}
      ensures observationOnly == old(observationOnly) + delayed + old(requestedObservations) * (old(requested) * found)
      ensures books.owed <==> watched in old(requested) && watched in found
      ensures books.served == old(books).served && books.queued == old(books).queued
      ensures acceptFollowUp ==> books.drops == old(books).drops
      ensures |books.drops| == |old(books).drops| + One(!acceptFollowUp && watched in old(requested) && watched !in found)
    {
      hide Timed, Balanced, InBounds, One, RightlyDropped, TakenBooks, Leaving;
      TimedFacts(passes, acceptFollowUp, launched, wake, cause, now);
      InventoryFacts(books, passes, requested, requestedObservations, found, acceptFollowUp, watched);
      ghost var taken := TakenBooks(books, |passes| - 1, requested, found, acceptFollowUp, watched);
      var gone := Leaving(requested, found, acceptFollowUp);
      var rest, observations := requested - gone, requestedObservations - gone;
      var observed := observationOnly + delayed + requestedObservations * (requested * found);
      passRecipes, inventoryReady := found, true;
      books, observationOnly, requested, requestedObservations := taken, observed, rest, observations;
    }

    /** One turn of the loop that starts workers; `failed` when the executor refuses. */
    method StartWorker(r: Id) returns (started: bool, failed: bool)
      requires Inv() && passActive && submitting == None
      modifies this`requested, this`requestedObservations, this`observationOnly, this`wake, this`cause, this`books,
        this`inflight, this`workers, this`stopRequested, this`now, this`submitting
      ensures Inv() && submitting == None && old(now) <= now && (old(stopRequested) ==> stopRequested)
      ensures inflight <= old(inflight) + {r} && old(books).queued <= books.queued
      ensures books.drops == old(books).drops
      ensures started ==> r !in old(inflight) && books.served == old(books).served + One(r == watched && old(books).owed)
      ensures !started ==> books.served == old(books).served && inflight <= old(inflight)
      ensures books.owed ==> old(books).owed && (started ==> r != watched)
      ensures !started && !failed && !stopRequested ==> r in old(inflight)
      ensures (failed ==> !started && r !in inflight) && (old(stopRequested) ==> !started && !failed)
      ensures stopRequested || broken || (books.owed == (old(books).owed && !(started && r == watched)))
    {
      hide Timed, RightlyDropped;
      started, failed := false, false;
      if stopRequested { return; }
      if r in inflight {
        // the check joins a worker that an abandoned pass left behind
        if broken && r == watched && books.owed { books := books.(lost := books.lost + 1, owed := false); }
        return;
      }
      inflight, submitting := inflight + {r}, Some(r);
      Others();
      failed := *;
      submitting := None;
      if failed {
        inflight := inflight - {r};
        return;
      }
      started := true;
      workers := workers + One(r == watched);
      if r == watched && books.owed { books := books.(served := books.served + 1, owed := false); }
    }

    /** The last section of run_pass. What an abandoned pass still owed is lost. */
    method FinishPass(aborted: bool)
      requires Inv() && passActive && submitting == None
      requires !stopRequested && !broken && !aborted ==> !books.owed && watched !in inflight
      modifies this`passActive, this`inventoryReady, this`passRecipes, this`observationOnly, this`passes, this`books, this`broken
      ensures Inv() && !passActive && !books.owed && broken == (old(broken) || aborted)
      ensures books.queued == old(books).queued && books.served == old(books).served && books.drops == old(books).drops
      ensures passRecipes == {} && observationOnly == {} && !inventoryReady
      ensures |passes| == |old(passes)| && passes != []
      ensures passes == old(passes)[|passes| - 1 := old(passes)[|passes| - 1].(end := Some(now))]
    {
      hide Timed, Balanced, InBounds, One, RightlyDropped;
      LoseOwed(books, requested, watched);
      TimedEnd(passes, acceptFollowUp, launched, wake, cause, now);
      DropsEnd(books.drops, passes, watched, now);
      ghost var settled := books.(lost := books.lost + One(books.owed), owed := false);
      ghost var ended := passes[|passes| - 1 := passes[|passes| - 1].(end := Some(now))];
      passRecipes, observationOnly := {}, {};
      passActive, inventoryReady := false, false;
      books, passes, broken := settled, ended, broken || aborted;
    }

    /** What a pass may do to clock, stop flag and counters; nothing is dropped. */
    twostate predicate Moves()
      reads this
    {
      && old(now) <= now && (old(stopRequested) ==> stopRequested)
      && books.drops == old(books).drops && old(books).served <= books.served && old(books).queued <= books.queued
    }

    /** Start a worker for every Recipe of the inventory that has none. */
    method StartWorkers(found: set<Id>) returns (aborted: bool, pending: set<Id>)
      requires Inv() && passActive && submitting == None
      requires !stopRequested && !broken ==> watched !in inflight && (books.owed ==> watched in found)
      modifies this`requested, this`requestedObservations, this`observationOnly, this`wake, this`cause, this`books,
        this`inflight, this`workers, this`stopRequested, this`now, this`submitting
      ensures Inv() && submitting == None && Moves()
      ensures !stopRequested && !broken && !aborted ==> !books.owed && (watched in inflight ==> watched in pending)
      ensures pending <= found && inflight <= old(inflight) + pending
      ensures !stopRequested && !aborted ==> found <= pending + old(inflight)
    {
      hide Inv;
      aborted, pending := false, {};
      var todo := found;
      while |todo| > 0
        invariant Inv() && submitting == None && Moves()
        invariant !stopRequested && !broken ==> (watched in inflight ==> watched in pending) && (books.owed ==> watched in todo)
        invariant todo !! pending && todo <= found && pending <= found && inflight <= old(inflight) + pending
        invariant !stopRequested ==> found <= todo + pending + old(inflight)
        decreases |todo|
      {
        var r :| r in todo;
        todo := todo - {r};
        var started, failed := StartWorker(r);
        if failed {
          aborted := !stopRequested;
          return;
        }
        if started { pending := pending + {r}; }
        Others();
      }
    }

    /** Hand the results on as workers end, in any order; the hand-over may raise. */
    method Collect(all: set<Id>) returns (aborted: bool)
      requires Inv() && passActive && submitting == None
      requires !stopRequested && !broken ==> !books.owed && (watched in inflight ==> watched in all)
      modifies this`requested, this`requestedObservations, this`observationOnly, this`wake, this`cause, this`books,
        this`inflight, this`workers, this`stopRequested, this`now, this`passRecipes
      ensures Inv() && Moves()
      ensures !stopRequested && !broken && !aborted ==> !books.owed && watched !in inflight
      ensures !stopRequested && !aborted ==> passRecipes == old(passRecipes) - all
    {
      hide Inv;
      aborted := false;
      var pending := all;
      while |pending| > 0 && !stopRequested
        invariant Inv() && Moves()
        invariant !stopRequested && !broken ==> !books.owed && (watched in inflight ==> watched in pending)
        invariant !aborted && pending <= all && passRecipes == old(passRecipes) - (all - pending)
        decreases |pending|
      {
        // wait() hands over a future that is done
        var r :| r in pending;
        pending := pending - {r};
        if r in inflight { EndWorker(r); }
        Others();
        aborted := *;
        Handled(r);
        if aborted { return; }
      }
    }

    /** A Recipe whose result was handed on no longer absorbs requests. */
    method Handled(r: Id)
      requires Inv()
      modifies this`passRecipes
      ensures Inv() && passRecipes == old(passRecipes) - {r}
    {
      hide Timed, Balanced, RightlyDropped;
      passRecipes := passRecipes - {r};
    }

    /** run_pass */
    method RunPass(accept: bool, ghost why: Cause)
      requires Inv() && !passActive
      requires passes != [] && !stopRequested ==> After(passes[|passes| - 1], Pass(why, now, None))
      requires launched && (accept <==> why != ByFollowUp)
      modifies this`requested, this`requestedObservations, this`observationOnly, this`wake, this`cause, this`books,
        this`inflight, this`workers, this`stopRequested, this`now, this`submitting, this`passActive, this`inventoryReady,
        this`passRecipes, this`acceptFollowUp, this`passes, this`broken
      ensures Inv() && !passActive && old(now) <= now && (old(stopRequested) ==> stopRequested) && (old(broken) ==> broken)
      ensures old(books).queued <= books.queued && old(books).served <= books.served && |old(books).drops| <= |books.drops|
      ensures accept ==> books.drops == old(books).drops
      ensures old(stopRequested) ==> passes == old(passes)
      ensures !old(stopRequested) ==> |passes| == |old(passes)| + 1 && passes[..|old(passes)|] == old(passes) && passes[|old(passes)|].cause == why
    {
      hide Timed, Balanced, After, RightlyDropped;
      if passActive || stopRequested { return; }
      BeginPass(accept, why);
      var aborted := PassBody();
      FinishPass(aborted);
    }

    /** run_pass between its first and last section. */
    method PassBody() returns (aborted: bool)
      requires Inv() && passActive && submitting == None && !books.owed && !inventoryReady
      requires !stopRequested && !broken ==> watched !in inflight
      modifies this`requested, this`requestedObservations, this`observationOnly, this`wake, this`cause, this`books,
        this`inflight, this`workers, this`stopRequested, this`now, this`submitting, this`inventoryReady, this`passRecipes
      ensures Inv() && submitting == None && old(now) <= now && (old(stopRequested) ==> stopRequested)
      ensures old(books).queued <= books.queued && old(books).served <= books.served && |old(books).drops| <= |books.drops|
      ensures acceptFollowUp ==> books.drops == old(books).drops
      ensures !stopRequested && !broken && !aborted ==> !books.owed && watched !in inflight
      ensures inventoryReady || (inflight <= old(inflight) && books.served == old(books).served && books.drops == old(books).drops)
    {
      hide Inv;
      Others();
      var unavailable, found: set<Id>, delayed: set<Id> := *, *, *;
      if unavailable { return false; }
      TakeInventory(found, delayed);
      Others();
      var pending: set<Id>;
      aborted, pending := StartWorkers(found);
      if !aborted { aborted := Collect(pending); }
    }

    // ----------------------------------------------------------------------- the loop

    /** _next_retry_delay over the seconds to each recorded retry (negative when overdue). */
    method NextRetryDelay(remaining: seq<real>) returns (delay: Option<real>)
      ensures delay.None? <==> remaining == []
      ensures delay.Some? ==> delay.value >= 0.0
      ensures delay.Some? && (exists i :: 0 <= i < |remaining| && remaining[i] <= 0.0) && recheckDeadline.Some?
          ==> (delay.value > 0.0 <==> now < recheckDeadline.value) && delay.value >= recheckDeadline.value - now
      ensures delay.Some? && ((forall i :: 0 <= i < |remaining| ==> remaining[i] > 0.0) || recheckDeadline.None?)
          ==> (forall i :: 0 <= i < |remaining| ==> delay.value <= Clamp(remaining[i])) && exists i :: 0 <= i < |remaining| && delay.value == Clamp(remaining[i])
    {
      if remaining == [] { return None; }
      var least := Clamp(remaining[0]);
      for i := 1 to |remaining|
        invariant forall j :: 0 <= j < i ==> least <= Clamp(remaining[j])
        invariant exists j :: 0 <= j < i && least == Clamp(remaining[j])
      {
        if Clamp(remaining[i]) < least { least := Clamp(remaining[i]); }
      }
      if least == 0.0 && recheckDeadline.Some? {
        var left := recheckDeadline.value - now;
        return Some(if left > 0.0 then left else 0.0);
      }
      return Some(least);
    }

    /** A recorded retry is overdue, and the pause behind the last pass is over. */
    ghost predicate RetryDue(remaining: seq<real>)
      reads this
    {
      && (exists i :: 0 <= i < |remaining| && remaining[i] <= 0.0)
      && (recheckDeadline.Some? ==> recheckDeadline.value <= now)
    }

    /** One look at the deadlines: the loop wakes itself exactly when one has passed. */
    method Poll(remaining: seq<real>)
      requires Inv() && Waiting() && !wake && !stopRequested
      modifies this`wake, this`cause
      ensures wake <==> nextPeriodic <= now || RetryDue(remaining)
      ensures cause == if wake then ByTimer else old(cause)
    {
      var retry := NextRetryDelay(remaining);
      var delay := if nextPeriodic <= now then 0.0 else nextPeriodic - now;
      if retry.Some? && retry.value < delay { delay := retry.value; }
      if delay <= 0.0 { wake, cause := true, ByTimer; }
    }

    /** The waiting part of _run: wake on a request, or when a deadline has passed. */
    method AwaitWork() returns (awake: bool, ghost why: Cause)
      requires Inv() && Waiting()
      modifies this`requested, this`requestedObservations, this`observationOnly, this`wake, this`cause, this`books,
        this`inflight, this`workers, this`stopRequested, this`now, this`launched
      ensures Inv() && Waiting() && Moves()
      ensures awake ==> !stopRequested && !wake && launched && (why == ByFollowUp <==> followUp)
      ensures awake && passes != [] ==> After(passes[|passes| - 1], Pass(why, now, None))
    {
      hide Balanced, Spaced, RightlyDropped;
      why := cause;
      var polls: int := *;
      for k := 0 to if polls < 0 then 0 else polls
        invariant Inv() && Waiting() && Moves()
      {
        if wake || stopRequested { break; }
        var remaining: seq<real> := *;
        Poll(remaining);
        if wake { break; }
        Others();
      }
      awake := wake && !stopRequested;
      if awake { why := Consume(); }
    }

    method Consume() returns (ghost why: Cause)
      requires wake
      modifies this`wake, this`launched
      ensures !wake && launched && why == if followUp then ByFollowUp else cause
      ensures old(Inv()) ==> Inv()
    {
      hide Balanced, Spaced, RightlyDropped;
      why := if followUp then ByFollowUp else cause;
      wake, launched := false, true;
    }

    /** What _run does after a pass. Only a pass that was not itself a follow-up, and left
        requests behind, is followed at once. */
    method Settle()
      requires Inv() && !passActive && !stopRequested && passes != []
      requires passes[|passes| - 1].cause == ByFollowUp ==> followUp
      modifies this`nextPeriodic, this`recheckDeadline, this`followUp, this`wake, this`cause, this`acceptFollowUp
      ensures Inv() && Waiting() && !acceptFollowUp
      ensures followUp == wake == (!old(followUp) && (old(wake) || requested != {}))
    {
      hide Balanced, Spaced, RightlyDropped;
      nextPeriodic, recheckDeadline := now + interval as real, Some(now + PAUSE);
      if !followUp && (wake || requested != {}) {
        followUp, wake, cause := true, true, ByRequest;
      } else {
        followUp, wake := false, false;
      }
      acceptFollowUp := false;
    }

    /** _run, for any number of rounds. */
    method Run(rounds: nat)
      requires Inv() && Waiting()
      modifies this
      ensures Inv() && Spaced(passes) && workers <= 1
      ensures !stopRequested ==> Waiting()
      ensures books.queued == books.served + |books.drops| + books.lost + One(watched in requested)
      ensures !stopRequested && !broken ==> books.lost == 0
      ensures forall i :: 0 <= i < |books.drops| ==>
        && 0 <= books.drops[i].pass < |passes| && passes[books.drops[i].pass].cause == ByFollowUp
        && watched !in books.drops[i].inventory
    {
      for k := 0 to rounds
        invariant Inv() && !passActive && (!stopRequested ==> Waiting())
      {
        if stopRequested { break; }
        ghost var woken := Round();
      }
    }

    /** One round of _run: a loop that wakes runs one pass and settles it. */
    method Round() returns (ghost woken: Option<Cause>)
      requires Inv() && Waiting()
      modifies this
      ensures Inv() && !passActive && (!stopRequested ==> Waiting())
      ensures woken.None? ==> passes == old(passes)
      ensures woken.Some? && !stopRequested ==>
        |passes| == |old(passes)| + 1 && passes[..|old(passes)|] == old(passes) && passes[|old(passes)|].cause == woken.value
      ensures !stopRequested && woken.Some? && woken.value == ByFollowUp ==> old(followUp) && !followUp
    {
      hide Timed, Balanced, One, RightlyDropped;
      var awake; ghost var why;
      awake, why := AwaitWork();
      woken := if awake then Some(why) else None;
      if stopRequested || !awake { return; }
      Others();
      RunPass(!followUp, why);
      if stopRequested { return; }
      Others();
      if stopRequested { return; }
      Settle();
    }

    lemma EndedBefore()
      requires Inv() && !passActive && passes != []
      ensures var last := passes[|passes| - 1]; last.end.Some? && last.start <= last.end.value <= now
    {}
  }

  /** In a first pass: a check is requested, and the inventory is empty. */
  method RequestThenInventory(s: Scheduler, r: Id)
    requires s.Inv() && s.passActive && s.running && !s.stopRequested && !s.books.owed && s.inflight == {}
    requires s.enabled && s.acceptFollowUp && !s.inventoryReady && s.requested == {}
    modifies s`inventoryReady, s`passRecipes, s`observationOnly, s`requested, s`requestedObservations, s`wake, s`cause, s`books
    ensures s.Inv() && !s.books.owed && s.wake == old(s.wake) && s.requested == {r}
  {
    hide Scheduler.Inv;
    var reply := s.RequestRecipe(r, true, true);
    s.TakeInventory({}, {});
  }

  /** In a follow-up pass: the inventory is empty, and an observation is requested behind it. */
  method InventoryThenRequest(s: Scheduler, r: Id)
    requires s.Inv() && s.passActive && s.running && !s.stopRequested && !s.books.owed && s.inflight == {}
    requires !s.acceptFollowUp
    modifies s`inventoryReady, s`passRecipes, s`observationOnly, s`requested, s`requestedObservations, s`wake, s`cause, s`books
    ensures s.Inv() && !s.books.owed && s.wake == old(s.wake) && s.requested == {r}
  {
    hide Scheduler.Inv;
    s.TakeInventory({}, {});
    var reply := s.RequestObservation(r, true);
  }

  /** An otherwise undisturbed pass with one of these requests. */
  method PassWithRequest(s: Scheduler, accept: bool, r: Id, ghost why: Cause)
    requires s.Inv() && !s.passActive && s.launched && s.running && !s.stopRequested && !s.broken
    requires s.submitting == None && !s.books.owed && s.inflight == {} && !s.wake
    requires s.passes != [] ==> After(s.passes[|s.passes| - 1], Pass(why, s.now, None))
    requires s.enabled && (accept ==> s.requested == {}) && (accept <==> why != ByFollowUp)
    modifies s`passActive, s`inventoryReady, s`passRecipes, s`observationOnly, s`acceptFollowUp, s`passes, s`requested,
      s`requestedObservations, s`wake, s`cause, s`books, s`broken
    ensures s.Inv() && !s.passActive && !s.broken && !s.books.owed && !s.wake && s.requested == {r}
    ensures |s.passes| == |old(s.passes)| + 1 && s.passes[|s.passes| - 1].cause == why
  {
    hide Scheduler.Inv, After;
    s.BeginPass(accept, why);
    if accept { RequestThenInventory(s, r); } else { InventoryThenRequest(s, r); }
    s.FinishPass(false);
  }

  /** Reached from the start: a first pass whose inventory lacks a requested Recipe is followed
      at once. */
  method FollowUpDue(r: Id, q: Id) returns (s: Scheduler)
    ensures fresh(s) && s.Inv() && s.Waiting() && s.followUp && s.wake && s.launched && s.enabled && s.running
    ensures !s.stopRequested && !s.broken && s.submitting == None && !s.books.owed && s.inflight == {} && s.passes != []
  {
    s := new Scheduler(true, 3600, 0.0, q);
    hide Scheduler.Inv, After;
    ghost var why := s.Consume();
    PassWithRequest(s, true, r, why);
    s.Settle();
  }

  /** And a check queued while that follow-up pass runs stays queued, with the loop waiting and
      not woken. */
  method StrandedCheck(r: Id, q: Id) returns (s: Scheduler)
    ensures fresh(s) && s.Inv() && s.Waiting() && !s.stopRequested && !s.broken
    ensures s.requested == {q} && !s.wake && !s.passActive
  {
    s := FollowUpDue(r, q);
    hide Scheduler.Inv;
    s.EndedBefore();
    ghost var why := s.Consume();
    PassWithRequest(s, false, q, why);
    s.Settle();
  }
}
