/** The contained commands of one workspace: the durable identity record and the transient
    systemd unit it names. Every reading of systemd and of the cgroup tree is arbitrary. A
    ghost log keeps the order of readings, actions and record changes, each with its unit. */
module CommandContainment {
  import opened Wrappers
  import opened CommandUnits

  datatype Phase = Starting | Active | Stopping

  datatype Identity =
    | ProcessGroup(bootId: string, runId: string, commandId: string, pid: int, pgid: int, startTicks: int)
    | Systemd(bootId: string, runId: string, commandId: string, unit: Unit, phase: Phase,
              invocation: Option<string>, group: Option<Unit>)

  /** `_validated_identity`: a starting record has neither invocation nor group, a later one both. */
  predicate Validated(i: Identity) {
    match i
    case ProcessGroup(_, _, _, pid, pgid, ticks) => pid > 0 && pgid > 0 && ticks >= 0
    case Systemd(_, _, _, _, phase, invocation, group) =>
      if phase == Starting then invocation.None? && group.None? else invocation.Some? && group.Some?
  }

  predicate SameCommand(a: Identity, b: Identity) {
    a.Systemd? && b.Systemd? && a.bootId == b.bootId && a.runId == b.runId && a.commandId == b.commandId && a.unit == b.unit
  }

  predicate MovesOn(a: Identity, b: Identity) {
    && SameCommand(a, b)
    && ((a.phase == Starting && b.phase == Active) || (a.phase == Active && b.phase == Stopping))
  }

  /** Unit and control group are the ones derived from Run and command. */
  predicate Derived(i: Identity) {
    i.Systemd? && i.unit == Unit(i.runId, i.commandId) && (i.group.Some? ==> i.group.value == i.unit)
  }

  // ---------------------------------------------------------- the durable record

  predicate MayPersist(record: Option<Identity>, identity: Identity) { Validated(identity) && record.None? }

  predicate MayClear(record: Option<Identity>, identity: Identity) { Validated(identity) && record == Some(identity) }

  predicate MayUpdate(record: Option<Identity>, expected: Identity, updated: Identity) {
    && Validated(expected) && Validated(updated) && record == Some(expected) && MovesOn(expected, updated)
  }

  // -------------------------------------------------------------- the ghost log

  /** The part of a unit snapshot that decisions read. `provenance` says that description,
      launch markers and service type are those of this Run and command. */
  datatype Snapshot = Snapshot(unit: Unit, provenance: bool, invocation: string, group: Option<Unit>, inactive: bool,
                               blankService: bool, failed: bool, complete: bool, resourcesMatch: bool)

  /** `_snapshot_matches_ownership_metadata` */
  predicate Owned(s: Snapshot, record: Identity) {
    && record.Systemd? && record.unit == Unit(record.runId, record.commandId)
    && s.provenance && s.unit == record.unit && (s.group.Some? ==> s.group.value == record.unit)
    && (record.phase != Starting ==> record.invocation == Some(s.invocation) && record.group == Some(record.unit))
  }

  datatype Event =
    | Recorded(identity: Identity)
    | Updated(before: Identity, after: Identity)
    | Cleared(identity: Identity)
    | StartAttempted(unit: Unit)
    | Saw(snapshot: Snapshot, record: Identity)
    | Unread(unit: Unit)
    | SawNoUnit(unit: Unit)
    | SawGroup(unit: Unit, present: bool)
    | StopIssued(unit: Unit)
    | ResetIssued(unit: Unit)

  /** The record that the logged changes leave behind. */
  function Durable(log: seq<Event>): Option<Identity> {
    if log == [] then None
    else match log[|log| - 1]
      case Recorded(i) => Some(i)
      case Updated(_, i) => Some(i)
      case Cleared(_) => None
      case _ => Durable(log[..|log| - 1])
  }

  /** The durable record names this unit. */
  predicate Names(record: Option<Identity>, u: Unit) {
    record.Some? && record.value.Systemd? && record.value.unit == u
  }

  /** The unit was absent, then its cgroup, and it was not started since. */
  ghost predicate AbsentAt(log: seq<Event>, u: Unit, i: int) {
    0 <= i < |log| - 1 && log[i] == SawNoUnit(u) && log[i + 1] == SawGroup(u, false) && StartAttempted(u) !in log[i..]
  }

  /** The latest two readings are that absence. */
  ghost predicate EndsAbsent(log: seq<Event>, u: Unit) {
    |log| >= 2 && log[|log| - 2] == SawNoUnit(u) && log[|log| - 1] == SawGroup(u, false)
  }

  /** No stop was issued since. */
  ghost predicate NoStop(log: seq<Event>, since: nat) { forall i :: since <= i < |log| ==> !log[i].StopIssued? }

  /** The reading asks for a reset: the recorded unit, as pinned, failed, empty and still loaded. */
  predicate ResetDue(e: Event, record: Identity, pinned: Option<string>) {
    && e.Saw? && Owned(e.snapshot, record) && (pinned.Some? && pinned.value != "" ==> e.snapshot.invocation == pinned.value)
    && e.snapshot.failed && e.snapshot.group.None? && !e.snapshot.inactive && !e.snapshot.blankService
  }

  /** Nothing was reset since, and nothing asked for it. */
  ghost predicate Quiet(log: seq<Event>, since: nat, record: Identity, pinned: Option<string>) {
    forall i :: since <= i < |log| ==> !log[i].ResetIssued? && !ResetDue(log[i], record, pinned)
  }

  /** There was exactly one reset since, right behind a snapshot of the pinned invocation. */
  ghost predicate ResetOnce(log: seq<Event>, since: nat, pinned: Option<string>) {
    exists at :: since < at < |log| && ResetAt(log, since, pinned, at)
  }

  ghost predicate ResetAt(log: seq<Event>, since: nat, pinned: Option<string>, at: nat)
    requires 0 < at < |log|
  {
    && log[at].ResetIssued? && log[at - 1].Saw?
    && (pinned.Some? && pinned.value != "" ==> log[at - 1].snapshot.invocation == pinned.value)
    && forall i :: since <= i < |log| && log[i].ResetIssued? ==> i == at
  }

  lemma QuietStays(log: seq<Event>, since: nat, record: Identity, pinned: Option<string>, e: Event)
    requires Quiet(log, since, record, pinned) && !e.ResetIssued? && !ResetDue(e, record, pinned)
    ensures Quiet(log + [e], since, record, pinned)
  {}

  lemma ResetOnceStays(log: seq<Event>, since: nat, pinned: Option<string>, e: Event)
    requires ResetOnce(log, since, pinned) && !e.ResetIssued?
    ensures ResetOnce(log + [e], since, pinned)
  {
    var at :| since < at < |log| && ResetAt(log, since, pinned, at);
    assert ResetAt(log + [e], since, pinned, at);
  }

  lemma ResetNow(log: seq<Event>, since: nat, record: Identity, pinned: Option<string>, s: Snapshot, u: Unit)
    requires Quiet(log, since, record, pinned) && since <= |log|
    requires pinned.Some? && pinned.value != "" ==> s.invocation == pinned.value
    ensures ResetOnce(log + [Saw(s, record)] + [ResetIssued(u)], since, pinned)
  {
    var l := log + [Saw(s, record)] + [ResetIssued(u)];
    assert l[|log|] == Saw(s, record) && l[|log| + 1] == ResetIssued(u);
    assert ResetAt(l, since, pinned, |log| + 1);
  }

  /** The unit was stopped right behind a snapshot, and nothing but that invocation was reset
      behind it, once, when it asked for it. */
  ghost predicate StoppedAt(log: seq<Event>, u: Unit, record: Identity, j: nat)
    requires 0 < j < |log|
  {
    && log[j] == StopIssued(u) && log[j - 1].Saw?
    && var pinned := Some(log[j - 1].snapshot.invocation);
       Quiet(log, j + 1, record, pinned) || ResetOnce(log, j + 1, pinned)
  }

  /** One more event that resets nothing and asks for nothing. */
  lemma ResetsStay(log: seq<Event>, since: nat, record: Identity, pinned: Option<string>, e: Event, reset: bool)
    requires if reset then ResetOnce(log, since, pinned) else Quiet(log, since, record, pinned)
    requires !e.ResetIssued? && (!reset ==> !ResetDue(e, record, pinned))
    ensures if reset then ResetOnce(log + [e], since, pinned) else Quiet(log + [e], since, record, pinned)
  {
    if reset { ResetOnceStays(log, since, pinned, e); } else { QuietStays(log, since, record, pinned, e); }
  }

  ghost predicate AbsenceSeen(log: seq<Event>, u: Unit) { exists i :: AbsentAt(log, u, i) }

  /** Nothing of this unit can be running unseen. */
  ghost predicate Gone(log: seq<Event>, u: Unit) { StartAttempted(u) !in log || AbsenceSeen(log, u) }

  /** The last thing seen is a snapshot of `u` that matches the ownership of the record. */
  ghost predicate Authorized(log: seq<Event>, u: Unit) {
    && log != [] && log[|log| - 1].Saw? && Durable(log).Some?
    && var r := log[|log| - 1].record;
       Owned(log[|log| - 1].snapshot, r) && r.unit == u && SameCommand(r, Durable(log).value)
  }

  ghost predicate EventOk(log: seq<Event>, e: Event) {
    match e
    case Recorded(_) => Durable(log).None?
    case Updated(a, b) => Durable(log) == Some(a) && MovesOn(a, b)
    case Cleared(i) => Durable(log) == Some(i) && (i.Systemd? ==> Gone(log, i.unit))
    case StartAttempted(u) => Names(Durable(log), u) && Durable(log).value.phase == Starting
    case StopIssued(u) => Authorized(log, u)
    case ResetIssued(u) => Authorized(log, u) && log[|log| - 1].snapshot.failed && log[|log| - 1].snapshot.group.None?
    case _ => true
  }

  ghost predicate Safe(log: seq<Event>) {
    forall i :: 0 <= i < |log| ==> EventOk(log[..i], log[i])
  }

  lemma SafeAppend(log: seq<Event>, e: Event)
    requires Safe(log) && EventOk(log, e)
    ensures Safe(log + [e])
  {
    hide EventOk;
    forall i | 0 <= i < |log + [e]| ensures EventOk((log + [e])[..i], (log + [e])[i]) {
      assert (log + [e])[..i] == log[..i];
      if i == |log| { assert log[..i] == log; }
    }
  }

  lemma SafeInit(log: seq<Event>)
    requires Safe(log) && log != []
    ensures Safe(log[..|log| - 1]) && EventOk(log[..|log| - 1], log[|log| - 1])
  {
    hide EventOk;
    var init := log[..|log| - 1];
    forall i | 0 <= i < |init| ensures EventOk(init[..i], init[i]) { assert init[..i] == log[..i]; }
  }

  lemma {:induction false} SafePrefix(log: seq<Event>, n: nat)
    requires Safe(log) && n <= |log|
    ensures Safe(log[..n])
  {
    hide EventOk;
    forall i | 0 <= i < n ensures EventOk(log[..n][..i], log[..n][i]) { assert log[..n][..i] == log[..i]; }
  }

  /** A unit that is gone stays gone until another start of it is attempted. */
  lemma GoneStays(log: seq<Event>, u: Unit, e: Event)
    requires Gone(log, u) && e != StartAttempted(u)
    ensures Gone(log + [e], u)
    ensures AbsenceSeen(log, u) ==> AbsenceSeen(log + [e], u)
  {
    if AbsenceSeen(log, u) {
      var i :| AbsentAt(log, u, i);
      assert (log + [e])[i..] == log[i..] + [e];
      assert AbsentAt(log + [e], u, i);
    }
  }

  lemma AbsenceNow(log: seq<Event>, u: Unit)
    ensures AbsenceSeen(log + [SawNoUnit(u), SawGroup(u, false)], u)
  {
    var l := log + [SawNoUnit(u), SawGroup(u, false)];
    assert l[|log|..] == [SawNoUnit(u), SawGroup(u, false)];
    assert AbsentAt(l, u, |log|);
  }

  /** The identity outlives the workload: at every moment of a safe history, whatever unit was
      started is named by the durable record, or was seen absent, and then its cgroup, since
      it was last started. */
  lemma {:induction false} WorkloadIsRecorded(log: seq<Event>, u: Unit)
    requires Safe(log)
    ensures Gone(log, u) || Names(Durable(log), u)
    decreases |log|
  {
    if log != [] {
      var init, e := log[..|log| - 1], log[|log| - 1];
      SafeInit(log);
      WorkloadIsRecorded(init, u);
      assert log == init + [e];
      if Gone(init, u) && e != StartAttempted(u) { GoneStays(init, u, e); }
    }
  }

  /** When the record of a unit has made place, it was cleared, and at that moment no start of
      that unit had been attempted or the unit and then its cgroup had been seen absent since. */
  lemma {:induction false} IdentityOutlivesWorkload(log: seq<Event>, i: nat, j: nat, u: Unit) returns (at: nat)
    requires Safe(log) && i <= j <= |log|
    requires Names(Durable(log[..i]), u) && !Names(Durable(log[..j]), u)
    ensures i <= at < j && log[at].Cleared? && log[at].identity.Systemd? && log[at].identity.unit == u
    ensures Gone(log[..at], u)
    decreases j
  {
    assert i < j;
    assert log[..j][..j - 1] == log[..j - 1];
    assert EventOk(log[..j - 1], log[j - 1]);
    if Names(Durable(log[..j - 1]), u) {
      at := j - 1;
    } else {
      at := IdentityOutlivesWorkload(log, i, j - 1, u);
    }
  }

  /** A start is attempted only behind its own durable intent. */
  lemma {:induction false} IntentPrecedesStart(log: seq<Event>, j: nat) returns (at: nat)
    requires Safe(log) && j < |log| && log[j].StartAttempted?
    ensures at < j && log[at].Recorded? && log[at].identity.Systemd?
    ensures log[at].identity.unit == log[j].unit && log[at].identity.phase == Starting
    ensures forall k :: at < k < j ==> !log[k].Recorded? && !log[k].Cleared?
  {
    assert EventOk(log[..j], log[j]);
    at := LastRecorded(log, j, log[j].unit);
  }

  lemma {:induction false} LastRecorded(log: seq<Event>, n: nat, u: Unit) returns (at: nat)
    requires Safe(log) && n <= |log| && Names(Durable(log[..n]), u) && Durable(log[..n]).value.phase == Starting
    ensures at < n && log[at].Recorded? && Names(Some(log[at].identity), u) && log[at].identity.phase == Starting
    ensures forall k :: at < k < n ==> !log[k].Recorded? && !log[k].Cleared?
    decreases n
  {
    assert n > 0 && log[..n][..n - 1] == log[..n - 1];
    assert EventOk(log[..n - 1], log[n - 1]);
    if log[n - 1].Recorded? {
      at := n - 1;
    } else {
      at := LastRecorded(log, n - 1, u);
    }
  }

  function PhaseRank(i: Identity): nat {
    match i case ProcessGroup(_, _, _, _, _, _) => 0
            case Systemd(_, _, _, _, phase, _, _) => (match phase case Starting => 0 case Active => 1 case Stopping => 2)
  }

  /** Until it is cleared, a record keeps naming its command and only moves from starting to
      active to stopping. */
  lemma {:induction false} RecordOnlyMovesOn(log: seq<Event>, i: nat, j: nat)
    requires Safe(log) && i <= j <= |log|
    requires Durable(log[..i]).Some?
    requires forall k :: i <= k < j ==> !log[k].Cleared?
    ensures Durable(log[..j]).Some?
    ensures var a, b := Durable(log[..i]).value, Durable(log[..j]).value;
            a == b || (SameCommand(a, b) && PhaseRank(a) < PhaseRank(b))
    ensures var a, b := Durable(log[..i]).value, Durable(log[..j]).value;
            a != b ==> a.Systemd? && b.Systemd? && (a.bootId, a.runId, a.commandId, a.unit) == (b.bootId, b.runId, b.commandId, b.unit)
    decreases j
  {
    if i < j {
      RecordOnlyMovesOn(log, i, j - 1);
      assert log[..j][..j - 1] == log[..j - 1];
      assert EventOk(log[..j - 1], log[j - 1]);
    }
  }

  /** A unit is stopped or reset only right after a snapshot of it, under its derived name, with
      its launch provenance and its own control group or none, and with the recorded invocation
      once there is one; and the durable record of that moment names the same command. */
  lemma StopsOnlyTheRecorded(log: seq<Event>, j: nat)
    requires Safe(log) && j < |log| && (log[j].StopIssued? || log[j].ResetIssued?)
    ensures j > 0 && log[j - 1].Saw? && log[j - 1].record.Systemd? && Durable(log[..j]).Some? && Durable(log[..j]).value.Systemd?
    ensures var s, r, d := log[j - 1].snapshot, log[j - 1].record, Durable(log[..j]).value;
            && s.unit == log[j].unit == r.unit == d.unit == Unit(r.runId, r.commandId)
            && s.provenance && (s.group == None || s.group == Some(s.unit))
            && (r.phase in {Active, Stopping} ==> r.invocation == Some(s.invocation) && r.group == Some(r.unit))
            && (d.bootId, d.runId, d.commandId) == (r.bootId, r.runId, r.commandId)
            && (log[j].ResetIssued? ==> s.failed && s.group == None)
  {
    assert EventOk(log[..j], log[j]);
    assert log[..j][|log[..j]| - 1] == log[j - 1];
  }

  /** What the record accepts: one record at a time, complete for its phase, replaced only by the
      next phase of the same command. */
  lemma RecordRules(record: Option<Identity>, a: Identity, b: Identity)
    requires a.Systemd? && b.Systemd?
    ensures MayPersist(record, a) <==>
      record == None && (a.phase == Starting <==> a.invocation == None) && (a.phase == Starting <==> a.group == None)
    ensures MayClear(record, a) ==> record == Some(a)
    ensures MayUpdate(record, a, b) ==>
      && record == Some(a) && (a.bootId, a.runId, a.commandId, a.unit) == (b.bootId, b.runId, b.commandId, b.unit)
      && (a.phase, b.phase) in {(Starting, Active), (Active, Stopping)} && b.invocation.Some? && b.group.Some?
  {
  }

  datatype Absence = ProvenGone | StillPresentAndOwned | PresentButAmbiguous | ProofUnavailable

  /** The reading shows the recorded unit of this boot, with its invocation and provenance. */
  ghost predicate ShowsOwned(e: Event, identity: Identity, boot: string) {
    && e.Saw? && identity.Systemd? && identity.bootId == boot && identity.invocation == Some(e.snapshot.invocation)
    && e.snapshot.provenance && e.snapshot.unit == identity.unit
  }

  /** prove_containment_absent: cgroup readings sandwiched between unit readings, twice. Exactly
      four absent readings of the recorded unit, in that order, prove absence, and exactly a
      snapshot with the recorded boot, invocation and provenance proves presence; without the
      lease or the derived names nothing is read. */
  method ProveAbsent(identity: Identity, boot: string, leased: bool) returns (proof: Absence, readings: seq<Event>)
    ensures readings == [] <==> !leased || !Derived(identity)
    ensures readings == [] ==> proof == ProofUnavailable
    ensures readings != [] ==> var u, last := identity.unit, readings[|readings| - 1];
      && (proof == ProvenGone <==> readings == [SawNoUnit(u), SawGroup(u, false), SawNoUnit(u), SawGroup(u, false)])
      && (proof == StillPresentAndOwned <==> ShowsOwned(last, identity, boot))
      && (proof == PresentButAmbiguous <==> last == SawGroup(u, true) || (last.Saw? && !ShowsOwned(last, identity, boot)))
      && (proof == ProofUnavailable <==> last == Unread(u))
  {
    readings := [];
    if !identity.Systemd? || !leased { return ProofUnavailable, readings; }
    var unit := Unit(identity.runId, identity.commandId);
    if identity.unit != unit || (identity.group.Some? && identity.group.value != unit) { return ProofUnavailable, readings; }
    for observation := 0 to 2
      invariant readings == if observation == 0 then [] else if observation == 1 then [SawNoUnit(unit), SawGroup(unit, false)]
                            else [SawNoUnit(unit), SawGroup(unit, false), SawNoUnit(unit), SawGroup(unit, false)]
    {
      var readable, present := *, *;
      if !readable { return ProofUnavailable, readings + [Unread(unit)]; }
      if present {
        var s: Snapshot := *;
        readings := readings + [Saw(s, identity)];
        if identity.bootId != boot || identity.invocation != Some(s.invocation) { return PresentButAmbiguous, readings; }
        return if s.provenance && s.unit == unit then StillPresentAndOwned else PresentButAmbiguous, readings;
      }
      readings := readings + [SawNoUnit(unit)];
      var told, remains := *, *;
      if !told {
        readings := readings + [Unread(unit)];
        assert readings[|readings| - 1] == Unread(unit);
        return ProofUnavailable, readings;
      }
      readings := readings + [SawGroup(unit, remains)];
      assert readings[|readings| - 1] == SawGroup(unit, remains);
      if remains { return PresentButAmbiguous, readings; }
    }
    return ProvenGone, readings;
  }

  // ------------------------------------------------------------- the command

  datatype Verdict = Matches | NotRunning | Mismatch | Unverifiable

  class Command {
    var record: Option<Identity>        // the workspace file
    var metadata: Identity              // what this process believes it recorded
    var candidates: seq<Identity>
    var lastSnapshot: Option<Snapshot>
    ghost var log: seq<Event>

    ghost predicate Valid()
      reads this
    {
      Safe(log) && record == Durable(log)
    }

    /** The record, the metadata and every candidate for clearing name one command and unit. */
    ghost predicate Holds()
      reads this
    {
      && record.Some? && SameCommand(record.value, metadata) && Derived(metadata)
      && forall i :: 0 <= i < |candidates| ==> SameCommand(candidates[i], metadata)
    }

    constructor (intent: Identity)
      ensures Valid() && log == [] && metadata == intent && candidates == [intent] && lastSnapshot == None
    {
      record, metadata, candidates, lastSnapshot := None, intent, [intent], None;
      log := [];
    }

    ghost method Note(e: Event)
      requires Valid() && EventOk(log, e) && !e.Recorded? && !e.Updated? && !e.Cleared?
      modifies this`log
      ensures Valid() && log == old(log) + [e] && Durable(log) == old(Durable(log))
    {
      hide Safe, EventOk;
      SafeAppend(log, e);
      assert (log + [e])[..|log|] == log;
      log := log + [e];
    }

    /** persist_identity */
    method Persist(identity: Identity) returns (ok: bool)
      requires Valid()
      modifies this`record, this`log
      ensures Valid()
      ensures ok <==> MayPersist(old(record), identity)
      ensures record == (if ok then Some(identity) else old(record))
      ensures log == if ok then old(log) + [Recorded(identity)] else old(log)
    {
      hide Safe;
      ok := MayPersist(record, identity);
      if ok {
        SafeAppend(log, Recorded(identity));
        record := Some(identity);
        log := log + [Recorded(identity)];
      }
    }

    /** update_identity; the replacement may also commit and then report an error. */
    method Update(expected: Identity, updated: Identity) returns (ok: bool, raised: bool)
      requires Valid()
      modifies this`record, this`log
      ensures Valid() && !(ok && raised)
      ensures ok ==> MayUpdate(old(record), expected, updated) && record == Some(updated)
      ensures !ok && !raised ==> record == old(record) && !MayUpdate(old(record), expected, updated)
      ensures raised ==> MayUpdate(old(record), expected, updated)
      ensures (log == old(log) && record == old(record)) || (log == old(log) + [Updated(expected, updated)] && record == Some(updated))
    {
      hide Safe;
      ok, raised := false, false;
      if MayUpdate(record, expected, updated) {
        var committed, failed := *, *;
        if failed && !committed { return false, true; }
        SafeAppend(log, Updated(expected, updated));
        assert (log + [Updated(expected, updated)])[..|log|] == log;
        record := Some(updated);
        log := log + [Updated(expected, updated)];
        ok, raised := !failed, failed;
      }
    }

    /** clear_identity */
    method Clear(identity: Identity) returns (ok: bool)
      requires Valid() && (identity.Systemd? ==> Gone(log, identity.unit))
      modifies this`record, this`log
      ensures Valid()
      ensures ok <==> MayClear(old(record), identity)
      ensures record == if ok then None else old(record)
      ensures log == if ok then old(log) + [Cleared(identity)] else old(log)
    {
      hide Safe, Gone;
      ok := MayClear(record, identity);
      if ok {
        SafeAppend(log, Cleared(identity));
        record := None;
        log := log + [Cleared(identity)];
      }
    }

    /** verify_unit: at most one reading, compared with the recorded ownership. */
    method VerifyUnit(metadata: Identity, verifyResources: bool) returns (snapshot: Option<Snapshot>, verdict: Verdict)
      requires Valid() && metadata.Systemd?
      modifies this`log
      ensures Valid() && old(log) <= log
      ensures verdict == Matches ==>
        snapshot.Some? && Owned(snapshot.value, metadata) && log == old(log) + [Saw(snapshot.value, metadata)]
      ensures verdict == NotRunning ==> snapshot.None? && log == old(log) + [SawNoUnit(metadata.unit)]
      ensures verdict == Matches ==> (verifyResources ==> snapshot.value.resourcesMatch)
      ensures |log| == |old(log)| + 1
      ensures verdict in {Mismatch, Unverifiable} ==>
        || log == old(log) + [Unread(metadata.unit)]
        || (log[|old(log)|].Saw? && !(Owned(log[|old(log)|].snapshot, metadata) && (verifyResources ==> log[|old(log)|].snapshot.resourcesMatch)))
    {
      hide Safe, Durable;
      snapshot := None;
      var sameBoot, readable, present := *, *, *;
      if !Validated(metadata) || !readable {
        Note(Unread(metadata.unit));
        return None, Unverifiable;
      }
      var expected := Unit(metadata.runId, metadata.commandId);
      if !sameBoot || metadata.unit != expected {
        Note(Unread(metadata.unit));
        return None, Mismatch;
      }
      if !present {
        Note(SawNoUnit(expected));
        return None, NotRunning;
      }
      var s: Snapshot := *;
      Note(Saw(s, metadata));
      snapshot := Some(s);
      verdict := if Owned(s, metadata) && (verifyResources ==> s.resourcesMatch) then Matches else Mismatch;
    }

    /** _cgroup_is_absent, which may also fail to tell. */
    method GroupGone(group: Unit) returns (gone: bool, failed: bool)
      requires Valid()
      modifies this`log
      ensures Valid() && old(log) <= log
      ensures gone ==> !failed && log == old(log) + [SawGroup(group, false)]
      ensures !gone ==> log == old(log) + [if failed then Unread(group) else SawGroup(group, true)]
    {
      hide Safe, Durable;
      failed := *;
      if failed {
        Note(Unread(group));
        return false, true;
      }
      gone := *;
      Note(SawGroup(group, !gone));
    }

    /** The control group that belongs to an identity. */
    function GroupOf(identity: Identity): Unit
      requires identity.Systemd?
    {
      if identity.group.Some? then identity.group.value else identity.unit
    }

    /** The invocation of the latest snapshot. */
    function Pinned(snapshot: Option<Snapshot>): (pinned: Option<string>)
      ensures pinned.Some? <==> snapshot.Some?
      ensures forall s: Snapshot :: snapshot == Some(s) ==> pinned == Some(s.invocation)
    {
      if snapshot.Some? then Some(snapshot.value.invocation) else None
    }

    /** _wait_for_unit_disappearance: poll until unit and cgroup are gone or time is up. Only a
        unit that the latest snapshot shows to be the recorded one is reset. */
    method WaitForDisappearance() returns (gone: bool)
      requires Valid() && record.Some? && SameCommand(record.value, metadata) && Derived(metadata)
      requires !EndsAbsent(log, metadata.unit)
      modifies this`log, this`lastSnapshot
      ensures Valid() && old(log) <= log
      ensures gone ==> AbsenceSeen(log, metadata.unit)
      ensures gone <==> EndsAbsent(log, metadata.unit)
      ensures Quiet(log, |old(log)|, metadata, Pinned(old(lastSnapshot))) || ResetOnce(log, |old(log)|, Pinned(old(lastSnapshot)))
    {
      hide Safe, Durable, AbsenceSeen, Quiet, ResetOnce;
      var unit, group := metadata.unit, GroupOf(metadata);
      var pinned, reset := Pinned(lastSnapshot), false;
      assert Quiet(log, |old(log)|, metadata, pinned) by { NothingYet(log, metadata, pinned); }
      var polls: nat := *;
      while polls > 0
        invariant Valid() && old(log) <= log && !EndsAbsent(log, unit)
        invariant if reset then ResetOnce(log, |old(log)|, pinned) else Quiet(log, |old(log)|, metadata, pinned)
        decreases polls
      {
        polls := polls - 1;
        ghost var before, was := log, reset;
        var readable, present := *, *;
        if !readable { return false; }
        if !present {
          Note(SawNoUnit(unit));
          ResetsStay(before, |old(log)|, metadata, pinned, SawNoUnit(unit), reset);
          var absent, failed := GroupGone(group);
          ResetsStay(before + [SawNoUnit(unit)], |old(log)|, metadata, pinned, log[|log| - 1], reset);
          if failed { return false; }
          if absent {
            assert log == before + [SawNoUnit(unit), SawGroup(unit, false)];
            AbsenceNow(before, unit);
            return true;
          }
        } else {
          var going;
          going, reset := Watch(pinned, reset, |old(log)|);
          if !going { return false; }
        }
      }
      return false;
    }

    lemma NothingYet(log: seq<Event>, record: Identity, pinned: Option<string>)
      ensures Quiet(log, |log|, record, pinned)
    {}

    /** One poll that finds the unit still loaded. */
    method Watch(pinned: Option<string>, wasReset: bool, ghost since: nat) returns (going: bool, reset: bool)
      requires Valid() && record.Some? && SameCommand(record.value, metadata) && Derived(metadata) && since <= |log|
      requires if wasReset then ResetOnce(log, since, pinned) else Quiet(log, since, metadata, pinned)
      modifies this`log, this`lastSnapshot
      ensures Valid() && old(log) < log && log[|old(log)|].Saw? && !EndsAbsent(log, metadata.unit)
      ensures if reset then ResetOnce(log, since, pinned) else Quiet(log, since, metadata, pinned)
      ensures !going ==> reset != wasReset || !Owned(log[|old(log)|].snapshot, metadata)
                         || (pinned.Some? && log[|old(log)|].snapshot.invocation != pinned.value)
    {
      hide Safe, Durable, Quiet, ResetOnce;
      ghost var before := log;
      going, reset := true, wasReset;
      var unit := metadata.unit;
      var s: Snapshot := *;
      Note(Saw(s, metadata));
      var authorized := Owned(s, metadata) && (pinned.Some? && pinned.value != "" ==> s.invocation == pinned.value);
      var stub := lastSnapshot.Some? && lastSnapshot.value.unit == unit && s.unit == unit
                  && s.group.None? && (s.inactive || s.blankService);
      if !stub && authorized && s.failed && s.group.None? && !reset {
        lastSnapshot, reset := Some(s), true;
        Note(ResetIssued(s.unit));
        ResetNow(before, since, metadata, pinned, s, s.unit);
        going := *;
        return;
      }
      ResetsStay(before, since, metadata, pinned, Saw(s, metadata), reset);
      if !authorized && !stub { return false, reset; }
      if !stub { lastSnapshot := Some(s); }
    }

    /** Persist the intent to stop, keep both records as candidates if that was ambiguous, and
        look again. */
    method RecordStopping() returns (owned: bool)
      requires Valid() && Holds() && metadata.phase == Active
      modifies this
      ensures Valid() && Holds() && old(log) <= log && SameCommand(metadata, old(metadata))
      ensures owned ==> Authorized(log, metadata.unit)
      ensures owned ==> metadata == old(metadata).(phase := Stopping)
      ensures owned ==> (record == Some(metadata) && candidates == [metadata]) || candidates == [metadata, old(metadata)]
      ensures MayUpdate(old(record), old(metadata), old(metadata).(phase := Stopping)) ==> metadata == old(metadata).(phase := Stopping)
      ensures owned ==> lastSnapshot == Some(log[|log| - 1].snapshot)
      ensures log != old(log) ==> (owned <==> log[|log| - 1].Saw? && Owned(log[|log| - 1].snapshot, metadata))
      ensures NoStop(log, |old(log)|) && (EndsAbsent(log, metadata.unit) ==> log == old(log))
    {
      hide Safe, Durable;
      var target := metadata;
      var stopping := target.(phase := Stopping);
      var updated, raised := Update(target, stopping);
      if raised { candidates := [stopping, target]; }
      else if !updated { return false; }
      metadata := stopping;
      if updated { candidates := [stopping]; }
      var snapshot, verdict := VerifyUnit(stopping, false);
      if verdict != Matches { return false; }
      lastSnapshot := snapshot;
      return true;
    }

    /** StopUnit for the unit just seen to be the recorded one, and the wait behind it. */
    method StopAndWait() returns (gone: bool)
      requires Valid() && Derived(metadata) && record.Some? && SameCommand(record.value, metadata)
      requires Authorized(log, metadata.unit) && lastSnapshot == Some(log[|log| - 1].snapshot)
      modifies this`log, this`lastSnapshot
      ensures Valid() && old(log) < log && log[|old(log)|] == StopIssued(metadata.unit)
      ensures (gone ==> AbsenceSeen(log, metadata.unit)) && (gone <==> EndsAbsent(log, metadata.unit))
      ensures StoppedAt(log, metadata.unit, metadata, |old(log)|)
    {
      hide Safe, Durable, AbsenceSeen, Quiet, ResetOnce, Owned;
      var refused := *;
      Note(StopIssued(metadata.unit));
      NothingYet(log, metadata, Pinned(lastSnapshot));
      if refused { return false; }
      gone := WaitForDisappearance();
    }

    /** _terminate_record: stop only what a fresh snapshot shows to be the recorded unit. */
    method TerminateRecord(target: Identity, persistStopping: bool) returns (gone: bool)
      requires Valid() && record.Some? && SameCommand(record.value, target) && Derived(target)
      requires forall i :: 0 <= i < |candidates| ==> SameCommand(candidates[i], target)
      modifies this
      ensures Valid() && Holds() && old(log) <= log && SameCommand(metadata, target)
      ensures gone ==> AbsenceSeen(log, target.unit)
      ensures gone <==> EndsAbsent(log, target.unit)
      ensures persistStopping && target.phase == Active && !NoStop(log, |old(log)|) ==>
        && metadata == target.(phase := Stopping)
        && ((record == Some(metadata) && candidates == [metadata]) || candidates == [metadata, target])
      ensures !persistStopping ==> metadata == target && candidates == old(candidates) && record == old(record)
      ensures |log| > |old(log)| && match log[|old(log)|]
        case SawNoUnit(u) => |log| == |old(log)| + 2 && (gone || log[|old(log)| + 1] in {Unread(u), SawGroup(u, true)})
        case Saw(s, _) => Owned(s, target) && !persistStopping ==> |log| > |old(log)| + 1 && log[|old(log)| + 1] == StopIssued(target.unit)
        case _ => |log| == |old(log)| + 1
      ensures !NoStop(log, |old(log)|) ==> exists j :: |old(log)| < j < |log| && StoppedAt(log, target.unit, metadata, j)
      ensures NoStop(log, |old(log)|) && |log| > |old(log)| + 1 ==>
        !(log[|log| - 1].Saw? && metadata.phase == Stopping && Owned(log[|log| - 1].snapshot, metadata))
    {
      hide Safe, Durable, AbsenceSeen, Owned, MayClear;
      metadata := target;
      var snapshot, verdict := VerifyUnit(target, false);
      if verdict == NotRunning {
        var absent, failed := GroupGone(GroupOf(target));
        if absent {
          assert log == old(log) + [SawNoUnit(target.unit), SawGroup(target.unit, false)];
          AbsenceNow(old(log), target.unit);
        }
        return absent;
      }
      if verdict != Matches { return false; }
      lastSnapshot := snapshot;
      if persistStopping && target.phase == Active {
        var owned := RecordStopping();
        if !owned { return false; }
      }
      gone := StopAndWait();
    }

    /** _clear_owned_identity_after_disappearance */
    method ClearOwned() returns (cleared: bool)
      requires Valid() && Holds() && AbsenceSeen(log, metadata.unit)
      modifies this`record, this`log
      ensures Valid() && old(log) <= log && (cleared ==> record.None? && AbsenceSeen(log, metadata.unit))
      ensures !cleared ==> record == old(record) && log == old(log)
      ensures cleared <==> exists i :: 0 <= i < |candidates| && MayClear(old(record), candidates[i])
    {
      hide Safe, Durable, AbsenceSeen;
      cleared := false;
      for i := 0 to |candidates|
        invariant Valid() && record == old(record) && log == old(log) && !cleared
        invariant forall j :: 0 <= j < i ==> !MayClear(record, candidates[j])
      {
        cleared := Clear(candidates[i]);
        if cleared {
          GoneStays(old(log), metadata.unit, Cleared(candidates[i]));
          return;
        }
      }
    }

    /** terminate(), then clear_after_termination() of its result. */
    method Terminate() returns (gone: bool)
      requires Valid() && Holds()
      modifies this
      ensures Valid() && Holds() && old(log) <= log && metadata.unit == old(metadata.unit)
      ensures gone ==> AbsenceSeen(log, metadata.unit)
    {
      gone := TerminateRecord(metadata, true);
    }

    method ClearAfterTermination(gone: bool) returns (cleared: bool)
      requires Valid() && Holds() && (gone ==> AbsenceSeen(log, metadata.unit))
      modifies this`record, this`log
      ensures Valid() && old(log) <= log && (cleared ==> record.None? && AbsenceSeen(log, metadata.unit))
      ensures cleared <==> gone && exists i :: 0 <= i < |candidates| && MayClear(old(record), candidates[i])
    {
      if !gone { return false; }
      cleared := ClearOwned();
    }

    /** The reading shows the recorded unit, intact and not completed. */
    ghost predicate StillRuns(e: Event, record: Identity) {
      e.Saw? && Owned(e.snapshot, record) && e.snapshot.resourcesMatch && !e.snapshot.complete
    }

    /** finish(): remove a completed retained unit and only then its record. */
    method Finish() returns (cleared: bool)
      requires Valid() && Holds()
      modifies this
      ensures Valid() && old(log) <= log && SameCommand(metadata, old(metadata))
      ensures if cleared then record.None? && AbsenceSeen(log, metadata.unit) else Holds()
      ensures |log| > |old(log)| && (StillRuns(log[|old(log)|], old(metadata)) <==> |log| == |old(log)| + 1)
      ensures !cleared ==> !EndsAbsent(log, metadata.unit) || forall i :: 0 <= i < |candidates| ==> !MayClear(record, candidates[i])
      ensures |log| > |old(log)| + 1 && log[|old(log)| + 1].Saw? && Owned(log[|old(log)| + 1].snapshot, old(metadata)) ==> |log| > |old(log)| + 2
    {
      hide Safe, Durable, AbsenceSeen;
      var snapshot, verdict := VerifyUnit(metadata, true);
      if verdict != Matches {
        snapshot, verdict := VerifyUnit(metadata, false);
        if verdict != Matches { return false; }
      } else if !snapshot.value.complete { return false; }
      lastSnapshot := snapshot;
      var gone := TerminateRecord(metadata, false);
      if !gone { return false; }
      cleared := ClearOwned();
    }

    /** The cleanup of a failed start: remove the record only after proven disappearance. */
    method Undo(cleanup: seq<Identity>) returns (cleared: bool)
      requires Valid() && record.Some? && |cleanup| > 0 && Derived(cleanup[0]) && SameCommand(record.value, cleanup[0])
      requires forall i :: 0 <= i < |cleanup| ==> SameCommand(cleanup[i], cleanup[0])
      modifies this
      ensures Valid() && old(log) <= log && (cleared ==> record.None? && AbsenceSeen(log, cleanup[0].unit))
      ensures !cleared ==> record.Some? && SameCommand(record.value, cleanup[0])
      ensures !cleared ==> !EndsAbsent(log, cleanup[0].unit) || forall i :: 0 <= i < |cleanup| ==> !MayClear(record, cleanup[i])
    {
      hide Safe, Durable, AbsenceSeen, Gone;
      cleared := false;
      candidates := [cleanup[0]];
      var gone := TerminateRecord(cleanup[0], false);
      if gone {
        for i := 0 to |cleanup|
          invariant Valid() && AbsenceSeen(log, cleanup[0].unit) && !cleared && old(log) <= log
          invariant record.Some? && SameCommand(record.value, cleanup[0])
          invariant forall j :: 0 <= j < i ==> !MayClear(record, cleanup[j])
        {
          ghost var before := log;
          SeenIsGone(log, cleanup[0].unit);
          cleared := Clear(cleanup[i]);
          if cleared {
            GoneStays(before, cleanup[0].unit, Cleared(cleanup[i]));
            return;
          }
        }
      }
    }

    /** An intact snapshot of the started unit that shows its invocation. */
    ghost predicate Activating(e: Event, intent: Identity) {
      && e.Saw? && Owned(e.snapshot, intent) && e.snapshot.resourcesMatch && e.snapshot.invocation != ""
      && (e.snapshot.group.Some? || e.snapshot.complete)
    }

    /** The record became active on such a snapshot, with its invocation. */
    ghost predicate ActivatedBy(log: seq<Event>, intent: Identity, active: Identity) {
      && |log| >= 2 && log[|log| - 1] == Updated(intent, active) && intent.Systemd? && Activating(log[|log| - 2], intent)
      && active == intent.(phase := Active, invocation := Some(log[|log| - 2].snapshot.invocation), group := Some(intent.unit))
    }

    /** The polls of a fresh start: the record becomes active on the first intact snapshot that
        shows an invocation. `cleanup` is what may have to be cleared if the start is undone. */
    method Activate(intent: Identity) returns (activated: bool, cleanup: seq<Identity>)
      requires Valid() && Derived(intent) && Validated(intent) && intent.phase == Starting && record == Some(intent)
      modifies this
      ensures Valid() && old(log) <= log && record.Some? && SameCommand(record.value, intent)
      ensures |cleanup| > 0 && Derived(cleanup[0]) && forall i :: 0 <= i < |cleanup| ==> SameCommand(cleanup[i], intent)
      ensures intent in cleanup && (record != Some(intent) ==> record.value in cleanup)
      ensures activated ==> Holds() && record == Some(metadata) && metadata.phase == Active
      ensures activated ==> ActivatedBy(log, intent, metadata)
      ensures |cleanup| == 1 ==> forall i :: |old(log)| <= i < |log| ==> !Activating(log[i], intent)
    {
      hide Safe, Durable, AbsenceSeen, Gone;
      cleanup := [intent];
      activated := false;
      var polls: nat, launched := *, *;
      while launched && polls > 0
        invariant Valid() && cleanup == [intent] && record == Some(intent) && old(log) <= log && !activated
        invariant forall i :: |old(log)| <= i < |log| ==> !Activating(log[i], intent)
        decreases polls
      {
        polls := polls - 1;
        var snapshot, verdict := VerifyUnit(intent, true);
        if verdict == Matches && snapshot.value.invocation != "" && (snapshot.value.group.Some? || snapshot.value.complete) {
          var group := if snapshot.value.group.Some? then snapshot.value.group.value else intent.unit;
          var active := intent.(phase := Active, invocation := Some(snapshot.value.invocation), group := Some(group));
          var updated, raised := Update(intent, active);
          cleanup := [active, intent];
          if updated { metadata, candidates, lastSnapshot := active, [active], snapshot; }
          activated := updated;
          break;
        }
        if verdict == Mismatch || verdict == Unverifiable || (verdict == Matches && snapshot.value.complete) { break; }
      }
    }

    /** start(): precommit the intent, attempt the start, activate the record, or undo. A
        workspace that still has a record refuses. */
    method Start(bootId: string, runId: string, commandId: string) returns (started: bool, cleared: bool)
      requires Valid()
      modifies this
      ensures Valid() && old(log) <= log && !(started && cleared)
      ensures old(record).Some? ==> !started && !cleared && record == old(record) && log == old(log)
      ensures started ==> Holds() && record == Some(metadata) && metadata.phase == Active
      ensures started ==> ActivatedBy(log, Systemd(bootId, runId, commandId, Unit(runId, commandId), Starting, None, None), metadata)
      ensures cleared ==> record.None? && Gone(log, Unit(runId, commandId))
      ensures !started && !cleared ==> record.Some?
      ensures !started && !cleared && old(record).None? ==> record.value.Systemd? && record.value.unit == Unit(runId, commandId)
      ensures !started && !cleared && old(record).None? ==> StartAttempted(Unit(runId, commandId)) in log
    {
      hide Safe, Durable, AbsenceSeen, Gone, EndsAbsent, ActivatedBy;
      var unit := Unit(runId, commandId);
      var intent := Systemd(bootId, runId, commandId, unit, Starting, None, None);
      ghost var before := log;
      var recorded := Persist(intent);
      if !recorded { return false, false; }
      var connected := *;
      if !connected {
        Unrecorded(before, intent);
        cleared := Clear(intent);
        if cleared { GoneStays(before + [Recorded(intent)], unit, Cleared(intent)); }
        return false, cleared;
      }
      Note(StartAttempted(unit));
      assert log[|before| + 1] == StartAttempted(unit);
      var activated, cleanup := Activate(intent);
      assert log[|before| + 1] == StartAttempted(unit);
      if activated {
        var watched := *;
        if watched { return true, false; }
      }
      started := false;
      cleared := Undo(cleanup);
      assert log[|before| + 1] == StartAttempted(unit);
      if cleared { SeenIsGone(log, unit); }
    }
  }

  lemma SeenIsGone(log: seq<Event>, u: Unit)
    requires AbsenceSeen(log, u)
    ensures Gone(log, u)
  {}

  /** In a workspace without a record nothing is running unseen, so a fresh intent is safe to
      clear before its start. */
  lemma Unrecorded(log: seq<Event>, intent: Identity)
    requires Safe(log) && Durable(log).None? && intent.Systemd?
    ensures Gone(log + [Recorded(intent)], intent.unit)
  {
    WorkloadIsRecorded(log, intent.unit);
    GoneStays(log, intent.unit, Recorded(intent));
  }
}
