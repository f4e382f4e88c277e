/** Containment cleanup blockers: publishers add them, concurrent reconcilers snapshot the
    registry, prove absence without the gate, and remove what is still exactly what they
    saw. Run admission is open only while the registry is empty and never overflowed. */
module CleanupRegistry {
  import opened Wrappers
  import opened CommandUnits

  const MAX_CLEANUP_BLOCKERS := 256

  datatype Kind = Runtime | Probe

  /** What a publisher knows of the workload it could not clean up. */
  datatype Workload = Workload(runId: string, commandId: string, unitName: Unit, bootId: string,
                               invocationId: string, controlGroup: Option<Unit>)

  datatype Blocker = Blocker(kind: Kind, reason: string, bootId: string, unitName: Unit, invocationId: string)

  datatype Key = Key(kind: Kind, bootId: string, unitName: Unit, invocationId: string)

  datatype Registry = Registry(blockers: map<Key, Blocker>, generations: map<Key, nat>, revision: nat, saturated: bool)

  datatype Status = ProvenGone | StillPresent | Ambiguous | Unavailable

  datatype Item = Item(blocker: Blocker, generation: nat)

  datatype Outcome = Outcome(key: Key, item: Item, status: Status)

  predicate WorkloadOk(id: Workload) {
    && id.unitName == Unit(id.runId, id.commandId)
    && (id.controlGroup.Some? ==> id.controlGroup.value == id.unitName)
  }

  function BlockerOf(kind: Kind, reason: string, id: Workload): Blocker {
    Blocker(kind, reason, id.bootId, id.unitName, id.invocationId)
  }

  function KeyOf(b: Blocker): Key { Key(b.kind, b.bootId, b.unitName, b.invocationId) }

  /** A full registry drops a new blocker and stays closed for good. */
  function Publish(r: Registry, b: Blocker): Registry {
    var k := KeyOf(b);
    if k !in r.blockers && |r.blockers| >= MAX_CLEANUP_BLOCKERS then r.(saturated := true)
    else r.(revision := r.revision + 1,
            blockers := if k in r.blockers then r.blockers else r.blockers[k := b],
            generations := r.generations[k := r.revision + 1])
  }

  function Snapshot(r: Registry): map<Key, Item> {
    map k | k in r.blockers :: Item(r.blockers[k], if k in r.generations then r.generations[k] else 0)
  }

  predicate StillExact(r: Registry, k: Key, item: Item) {
    k in r.blockers && r.blockers[k] == item.blocker
    && (if k in r.generations then r.generations[k] else 0) == item.generation
  }

  function Commit(r: Registry, outcomes: seq<Outcome>): Registry
    decreases |outcomes|
  {
    if outcomes == [] then r
    else
      var o := outcomes[0];
      Commit(if o.status == ProvenGone && StillExact(r, o.key, o.item)
             then r.(blockers := r.blockers - {o.key}, generations := r.generations - {o.key}) else r, outcomes[1..])
  }

  predicate AdmissionOpen(r: Registry) { !r.saturated && r.blockers == map[] }

  predicate Sound(r: Registry) {
    && r.generations.Keys == r.blockers.Keys
    && (forall k :: k in r.generations ==> 1 <= r.generations[k] <= r.revision)
    && |r.blockers| <= MAX_CLEANUP_BLOCKERS
  }

  /** How many outcomes proved their blocker gone. */
  function Proofs(os: seq<Outcome>): nat {
    if os == [] then 0 else Proofs(os[..|os| - 1]) + (if os[|os| - 1].status == ProvenGone then 1 else 0)
  }

  lemma RemoveOne(r: Registry, k: Key)
    requires Sound(r) && k in r.blockers
    ensures Sound(r.(blockers := r.blockers - {k}, generations := r.generations - {k}))
    ensures |r.blockers| == |r.blockers - {k}| + 1
  {
    var rest := r.blockers - {k};
    assert r.blockers.Keys == rest.Keys + {k};
    assert |r.blockers| == |r.blockers.Keys| && |rest| == |rest.Keys|;
  }

  // -------------------------------------------------------------- the registry

  class SharedRegistry {
    var blockers: map<Key, Blocker>
    var generations: map<Key, nat>
    var revision: nat
    var saturated: bool

    ghost function View(): Registry
      reads this
    {
      Registry(blockers, generations, revision, saturated)
    }

    constructor ()
      ensures View() == Registry(map[], map[], 0, false)
    {
      blockers, generations, revision, saturated := map[], map[], 0, false;
    }

    /** `_publish_cleanup_blocker`: refuses an inconsistent identity without any effect. */
    method PublishBlocker(kind: Kind, reason: string, identity: Workload) returns (accepted: bool)
      modifies this
      ensures accepted <==> WorkloadOk(identity)
      ensures View() == if accepted then Publish(old(View()), BlockerOf(kind, reason, identity)) else old(View())
    {
      if identity.unitName != Unit(identity.runId, identity.commandId) { return false; }
      var group := if identity.controlGroup.Some? then identity.controlGroup.value else identity.unitName;
      if group != identity.unitName { return false; }
      var blocker := BlockerOf(kind, reason, identity);
      var key := KeyOf(blocker);
      if key !in blockers && |blockers| >= MAX_CLEANUP_BLOCKERS {
        saturated := true;
      } else {
        revision := revision + 1;
        if key !in blockers { blockers := blockers[key := blocker]; }
        generations := generations[key := revision];
      }
      return true;
    }

    /** `_cleanup_blocker_summary`, which the final gate-held admission check requires to be
        silent: of every kind, or of one. */
    method Blocked(kind: Option<Kind>) returns (blocked: bool)
      ensures kind.None? ==> (blocked <==> !AdmissionOpen(View()))
      ensures kind.Some? ==> (blocked <==> saturated || exists k :: k in blockers && blockers[k].kind == kind.value)
    {
      if saturated { return true; }
      var todo := blockers.Keys;
      blocked := false;
      while todo != {}
        invariant todo <= blockers.Keys
        invariant blocked <==> exists k :: k in blockers.Keys - todo && (kind.None? || blockers[k].kind == kind.value)
        decreases |todo|
      {
        var k :| k in todo;
        blocked := blocked || kind.None? || blockers[k].kind == kind.value;
        assert blockers.Keys - (todo - {k}) == (blockers.Keys - todo) + {k};
        todo := todo - {k};
      }
      if kind.None? && !blocked { assert forall k :: k in blockers ==> k in blockers.Keys - todo; }
    }

    /** The second gate-held half of `reconcile_cleanup_blockers`. */
    method CommitOutcomes(outcomes: seq<Outcome>) returns (removed: nat, stale: nat, remaining: nat)
      requires Sound(View())
      modifies this
      ensures View() == Commit(old(View()), outcomes) && Sound(View())
      ensures remaining == |blockers| && |old(blockers)| == |blockers| + removed
      ensures removed + stale == Proofs(outcomes)
    {
      hide Sound;
      removed, stale := 0, 0;
      for i := 0 to |outcomes|
        invariant Commit(View(), outcomes[i..]) == Commit(old(View()), outcomes)
        invariant Sound(View())
        invariant |old(blockers)| == |blockers| + removed && removed + stale == Proofs(outcomes[..i])
      {
        var o := outcomes[i];
        assert outcomes[i..][1..] == outcomes[i + 1..];
        assert outcomes[..i + 1][..i] == outcomes[..i];
        if o.status == ProvenGone {
          if StillExact(Registry(blockers, generations, revision, saturated), o.key, o.item) {
            RemoveOne(View(), o.key);
            blockers, generations := blockers - {o.key}, generations - {o.key};
            removed := removed + 1;
          } else {
            stale := stale + 1;
          }
        }
      }
      assert outcomes[..|outcomes|] == outcomes;
      remaining := |blockers|;
    }
  }

  // ------------------------------------------------------- interleaved reconcilers

  /** A reconciliation in progress: what it saw, when, and which absences it proved when. */
  datatype Flight = Flight(startedAt: nat, items: map<Key, Item>, provenAt: map<Key, nat>)

  datatype Clearance = Clearance(snapshotAt: nat, provenAt: nat)

  /** `published` is the time of each key's latest publication, dropped ones included;
      `cleared` says which proof last removed a key. Neither is read by any step. */
  datatype World = World(registry: Registry, flights: map<nat, Flight>, clock: nat,
                         published: map<Key, nat>, cleared: map<Key, Clearance>)

  datatype Event =
    | Latch(blocker: Blocker)
    | Begin(flight: nat)
    | Prove(flight: nat, key: Key, status: Status)
    | Finish(flight: nat, order: seq<Key>)

  const EMPTY_WORLD := World(Registry(map[], map[], 0, false), map[], 0, map[], map[])

  /** The outcomes a finishing flight applies, in the order it walked its snapshot. */
  function OutcomesOf(f: Flight, order: seq<Key>): (os: seq<Outcome>)
    ensures forall o :: o in os ==> o.key in f.items && o.item == f.items[o.key] && (o.status == ProvenGone ==> o.key in f.provenAt)
  {
    if order == [] then []
    else
      var rest := OutcomesOf(f, order[1..]);
      var k := order[0];
      if k !in f.items then rest
      else [Outcome(k, f.items[k], if k in f.provenAt then ProvenGone else Unavailable)] + rest
  }

  function Next(w: World, e: Event): World {
    var t := w.clock + 1;
    match e
    case Latch(b) =>
      w.(registry := Publish(w.registry, b), published := w.published[KeyOf(b) := t], clock := t)
    case Begin(i) =>
      if i in w.flights then w
      else w.(flights := w.flights[i := Flight(t, Snapshot(w.registry), map[])], clock := t)
    case Prove(i, k, status) =>
      if i !in w.flights || k !in w.flights[i].items || status != ProvenGone then w.(clock := t)
      else w.(flights := w.flights[i := w.flights[i].(provenAt := w.flights[i].provenAt[k := t])], clock := t)
    case Finish(i, order) =>
      if i !in w.flights then w
      else
        var f := w.flights[i];
        var after := Commit(w.registry, OutcomesOf(f, order));
        w.(registry := after, flights := w.flights - {i}, clock := t,
           cleared := w.cleared + map k | k in w.registry.blockers && k !in after.blockers && k in f.provenAt ::
                                    Clearance(f.startedAt, f.provenAt[k]))
  }

  function Trace(w: World, events: seq<Event>): World
    decreases |events|
  {
    if events == [] then w else Trace(Next(w, events[0]), events[1..])
  }

  /** A snapshot item whose generation is still current was taken after the latest publish. */
  ghost predicate FlightOk(w: World, f: Flight) {
    && f.startedAt <= w.clock
    && (forall k :: k in f.items ==> f.items[k].generation <= w.registry.revision)
    && (forall k :: k in f.items && k in w.registry.generations && w.registry.generations[k] == f.items[k].generation ==>
          k in w.published && w.published[k] < f.startedAt)
    && (forall k :: k in f.provenAt ==> f.startedAt < f.provenAt[k] <= w.clock)
  }

  ghost predicate WorldOk(w: World) {
    && Sound(w.registry)
    && (forall k :: k in w.published ==> w.published[k] <= w.clock)
    && (forall k :: k in w.registry.blockers ==> k in w.published)
    && (forall i :: i in w.flights ==> FlightOk(w, w.flights[i]))
    && (!w.registry.saturated ==> forall k :: k in w.published && k !in w.registry.blockers ==>
          k in w.cleared && w.published[k] < w.cleared[k].snapshotAt < w.cleared[k].provenAt <= w.clock)
  }

  lemma LatchOk(w: World, b: Blocker)
    requires WorldOk(w)
    ensures WorldOk(Next(w, Latch(b)))
  {
    hide FlightOk, Sound;
    var w' := Next(w, Latch(b));
    PublishSound(w.registry, b);
    forall j | j in w'.flights ensures FlightOk(w', w'.flights[j]) { LatchFlight(w, b, w.flights[j]); }
  }

  lemma LatchFlight(w: World, b: Blocker, f: Flight)
    requires FlightOk(w, f) && Sound(w.registry)
    ensures FlightOk(Next(w, Latch(b)), f)
  {}

  lemma PublishSound(r: Registry, b: Blocker)
    requires Sound(r)
    ensures Sound(Publish(r, b)) && (r.saturated ==> Publish(r, b).saturated)
  {
    var a := Publish(r, b);
    if KeyOf(b) !in r.blockers && a.blockers != r.blockers {
      assert a.blockers.Keys == r.blockers.Keys + {KeyOf(b)};
      assert |a.blockers| == |a.blockers.Keys| && |r.blockers| == |r.blockers.Keys|;
    }
  }

  lemma BeginOk(w: World, i: nat)
    requires WorldOk(w)
    ensures WorldOk(Next(w, Begin(i)))
  {
    var w' := Next(w, Begin(i));
    if i !in w.flights {
      assert FlightOk(w', w'.flights[i]);
      forall j | j in w.flights ensures FlightOk(w', w'.flights[j]) { assert FlightOk(w, w.flights[j]); }
    }
  }

  lemma ProveFlight(w: World, i: nat, k: Key, status: Status, j: nat)
    requires j in w.flights && FlightOk(w, w.flights[j])
    ensures j in Next(w, Prove(i, k, status)).flights && FlightOk(Next(w, Prove(i, k, status)), Next(w, Prove(i, k, status)).flights[j])
  {}

  lemma ProveOk(w: World, i: nat, k: Key, status: Status)
    requires WorldOk(w)
    ensures WorldOk(Next(w, Prove(i, k, status)))
  {
    hide FlightOk, Sound;
    var w' := Next(w, Prove(i, k, status));
    forall j | j in w'.flights ensures FlightOk(w', w'.flights[j]) { ProveFlight(w, i, k, status, j); }
  }

  /** Commit removes only what an outcome proved and what is still exactly as seen. */
  lemma {:induction false} CommitRemoves(r: Registry, os: seq<Outcome>)
    requires Sound(r)
    ensures var a := Commit(r, os);
            && Sound(a) && a.saturated == r.saturated && a.revision == r.revision
            && (forall k :: k in a.blockers ==> k in r.blockers && a.blockers[k] == r.blockers[k] && a.generations[k] == r.generations[k])
            && (forall k :: k in r.blockers && k !in a.blockers ==>
                  exists o :: o in os && o.key == k && o.status == ProvenGone && StillExact(r, k, o.item))
    decreases |os|
  {
    if os != [] {
      var o := os[0];
      var remove := o.status == ProvenGone && StillExact(r, o.key, o.item);
      var mid := if remove then r.(blockers := r.blockers - {o.key}, generations := r.generations - {o.key}) else r;
      if remove {
        assert r.blockers.Keys == mid.blockers.Keys + {o.key};
        assert |r.blockers| == |r.blockers.Keys| && |mid.blockers| == |mid.blockers.Keys|;
      }
      CommitRemoves(mid, os[1..]);
      var a := Commit(mid, os[1..]);
      forall k | k in r.blockers && k !in a.blockers
        ensures exists p :: p in os && p.key == k && p.status == ProvenGone && StillExact(r, k, p.item)
      {
        if remove && k == o.key { assert o in os; }
        else {
          var p :| p in os[1..] && p.key == k && p.status == ProvenGone && StillExact(mid, k, p.item);
          assert p in os && StillExact(r, k, p.item);
        }
      }
    }
  }

  /** Exactly what a commit leaves: a blocker goes if and only if some outcome proved it gone
      and it is still exactly the one that outcome was taken from. */
  lemma {:induction false} CommitExactly(r: Registry, os: seq<Outcome>, k: Key)
    requires Sound(r)
    ensures k in Commit(r, os).blockers <==>
      k in r.blockers && forall i :: 0 <= i < |os| && os[i].key == k && os[i].status == ProvenGone ==>
        os[i].item != Item(r.blockers[k], r.generations[k])
    decreases |os|
  {
    if os != [] {
      var o := os[0];
      var remove := o.status == ProvenGone && StillExact(r, o.key, o.item);
      var mid := if remove then r.(blockers := r.blockers - {o.key}, generations := r.generations - {o.key}) else r;
      if remove { RemoveOne(r, o.key); }
      CommitExactly(mid, os[1..], k);
      assert forall i :: 0 < i < |os| ==> os[i] == os[1..][i - 1];
      assert forall i :: 0 <= i < |os| - 1 ==> os[1..][i] == os[i + 1];
    }
  }

  /** No ABA: what a finishing flight removes was last published before its snapshot, and was
      proven gone after it. */
  lemma RemovedOnlyByLaterProof(w: World, i: nat, order: seq<Key>, k: Key)
    requires WorldOk(w) && i in w.flights
    requires k in w.registry.blockers && k !in Next(w, Finish(i, order)).registry.blockers
    ensures var f := w.flights[i];
            k in f.provenAt && k in w.published && w.published[k] < f.startedAt < f.provenAt[k]
  {
    var f := w.flights[i];
    CommitRemoves(w.registry, OutcomesOf(f, order));
    assert FlightOk(w, f);
    var o :| o in OutcomesOf(f, order) && o.key == k && o.status == ProvenGone && StillExact(w.registry, k, o.item);
  }

  lemma FinishOk(w: World, i: nat, order: seq<Key>)
    requires WorldOk(w) && i in w.flights
    ensures WorldOk(Next(w, Finish(i, order)))
  {
    var w' := Next(w, Finish(i, order));
    CommitRemoves(w.registry, OutcomesOf(w.flights[i], order));
    forall j | j in w'.flights ensures FlightOk(w', w'.flights[j]) { assert FlightOk(w, w.flights[j]); }
    if !w'.registry.saturated {
      forall k | k in w'.published && k !in w'.registry.blockers
        ensures k in w'.cleared && w'.published[k] < w'.cleared[k].snapshotAt < w'.cleared[k].provenAt <= w'.clock
      {
        assert FlightOk(w, w.flights[i]);
        if k in w.registry.blockers { RemovedOnlyByLaterProof(w, i, order, k); }
      }
    }
  }

  lemma NextOk(w: World, e: Event)
    requires WorldOk(w)
    ensures WorldOk(Next(w, e))
  {
    match e
    case Latch(b) => LatchOk(w, b);
    case Begin(i) => BeginOk(w, i);
    case Prove(i, k, status) => ProveOk(w, i, k, status);
    case Finish(i, order) => if i in w.flights { FinishOk(w, i, order); }
  }

  lemma {:induction false} TraceOk(w: World, events: seq<Event>)
    requires WorldOk(w)
    ensures WorldOk(Trace(w, events)) && (w.registry.saturated ==> Trace(w, events).registry.saturated)
    decreases |events|
  {
    hide WorldOk;
    if events != [] {
      NextOk(w, events[0]);
      SaturationSticks(w, events[0]);
      TraceOk(Next(w, events[0]), events[1..]);
    }
  }

  lemma SaturationSticks(w: World, e: Event)
    requires WorldOk(w)
    ensures w.registry.saturated ==> Next(w, e).registry.saturated
  {
    if e.Finish? && e.flight in w.flights { CommitRemoves(w.registry, OutcomesOf(w.flights[e.flight], e.order)); }
  }

  /** Fail-closed: over every interleaving of publishers and reconcilers the registry holds
      at most 256 entries, an overflow closes admission for good, and whenever the gate-held
      check lets a Run be created, every blocker ever published was proven gone by a
      reconciler whose snapshot came after that key's latest publication. */
  lemma AdmissionMeansProvenGone(events: seq<Event>, later: seq<Event>)
    ensures var w := Trace(EMPTY_WORLD, events);
            && |w.registry.blockers| <= MAX_CLEANUP_BLOCKERS
            && (w.registry.saturated ==> !AdmissionOpen(Trace(w, later).registry))
            && (AdmissionOpen(w.registry) ==> forall k :: k in w.published ==>
                  k in w.cleared && w.published[k] < w.cleared[k].snapshotAt < w.cleared[k].provenAt)
  {
    TraceOk(EMPTY_WORLD, events);
    TraceOk(Trace(EMPTY_WORLD, events), later);
  }

  // ------------------------------------------------------------------- progress

  function Proving(i: nat, keys: seq<Key>): seq<Event> {
    if keys == [] then [] else [Prove(i, keys[0], ProvenGone)] + Proving(i, keys[1..])
  }

  lemma {:induction false} TraceJoins(w: World, a: seq<Event>, b: seq<Event>)
    ensures Trace(w, a + b) == Trace(Trace(w, a), b)
    decreases |a|
  {
    if a == [] {
      assert a + b == b;
    } else {
      assert (a + b)[1..] == a[1..] + b;
      TraceJoins(Next(w, a[0]), a[1..], b);
    }
  }

  lemma {:induction false} ProvingAdds(w: World, i: nat, keys: seq<Key>)
    requires i in w.flights
    ensures var after := Trace(w, Proving(i, keys));
            && after.registry == w.registry && i in after.flights && after.flights[i].items == w.flights[i].items
            && w.flights[i].provenAt.Keys <= after.flights[i].provenAt.Keys
            && (forall k :: k in keys && k in w.flights[i].items ==> k in after.flights[i].provenAt)
    decreases |keys|
  {
    if keys != [] {
      var events := Proving(i, keys);
      assert events[1..] == Proving(i, keys[1..]);
      ProvingAdds(Next(w, events[0]), i, keys[1..]);
      assert forall k :: k in keys ==> k == keys[0] || k in keys[1..];
    }
  }

  lemma {:induction false} ProvenIsOutcome(f: Flight, order: seq<Key>, k: Key)
    requires k in order && k in f.items && k in f.provenAt
    ensures Outcome(k, f.items[k], ProvenGone) in OutcomesOf(f, order)
  {
    if order[0] != k { ProvenIsOutcome(f, order[1..], k); }
  }

  /** What a reconciliation proved gone leaves the registry if and only if it is still exactly
      what its snapshot saw; everything else stays. */
  lemma FinishRemovesExactly(w: World, i: nat, order: seq<Key>, k: Key)
    requires WorldOk(w) && i in w.flights && k in w.registry.blockers && k in order
    ensures k !in Next(w, Finish(i, order)).registry.blockers <==>
      && k in w.flights[i].provenAt && k in w.flights[i].items
      && w.flights[i].items[k] == Item(w.registry.blockers[k], w.registry.generations[k])
  {
    var f := w.flights[i];
    var os := OutcomesOf(f, order);
    CommitExactly(w.registry, os, k);
    if k in f.items && k in f.provenAt {
      ProvenIsOutcome(f, order, k);
      var j :| 0 <= j < |os| && os[j] == Outcome(k, f.items[k], ProvenGone);
    }
    assert forall j :: 0 <= j < |os| ==> os[j] in os;
  }

  lemma FullFinish(w: World, i: nat, order: seq<Key>)
    requires WorldOk(w) && i in w.flights && w.flights[i].items == Snapshot(w.registry)
    requires forall k :: k in w.registry.blockers ==> k in order && k in w.flights[i].provenAt
    ensures Next(w, Finish(i, order)).registry.blockers == map[]
    ensures Next(w, Finish(i, order)).registry.saturated == w.registry.saturated
  {
    var after := Next(w, Finish(i, order)).registry;
    CommitRemoves(w.registry, OutcomesOf(w.flights[i], order));
    forall k ensures k !in after.blockers {
      if k in w.registry.blockers { FinishRemovesExactly(w, i, order, k); }
    }
  }

  lemma OneEvent(w: World, e: Event)
    ensures Trace(w, [e]) == Next(w, e)
  {
    assert [e][1..] == [];
  }

  /** One undisturbed reconciliation that proves everything it saw gone empties the registry:
      Run admission is open again, unless the registry ever overflowed. */
  lemma UndisturbedReconciliation(w: World, i: nat, order: seq<Key>)
    requires WorldOk(w) && i !in w.flights && forall k :: k in w.registry.blockers ==> k in order
    ensures var after := Trace(w, [Begin(i)] + Proving(i, order) + [Finish(i, order)]).registry;
            after.blockers == map[] && (AdmissionOpen(after) <==> !w.registry.saturated)
  {
    hide WorldOk, Commit, OutcomesOf, Trace, Proving;
    var begun := Next(w, Begin(i));
    OneEvent(w, Begin(i));
    TraceJoins(w, [Begin(i)], Proving(i, order));
    var proven := Trace(begun, Proving(i, order));
    TraceJoins(w, [Begin(i)] + Proving(i, order), [Finish(i, order)]);
    NextOk(w, Begin(i));
    TraceOk(begun, Proving(i, order));
    ProvingAdds(begun, i, order);
    OneEvent(proven, Finish(i, order));
    FullFinish(proven, i, order);
  }
}
