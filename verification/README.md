# DebBuilder: a verified model of its core protocols

DebBuilder watches upstream releases, builds Debian packages, validates them and publishes
them with reprepro. This project models the parts of it whose correctness is an argument and
not a look at one function, and proves what they promise for every input, every interleaving
and every restart.

| component | files |
|---|---|
| Automation ledger and orchestrator | `AutomationRow`, `AutomationLedger`, `LedgerHistory`, `Orchestrator`, `OrchestratorInvariant`, `OrchestratorDecisions`, `RecipeTurn`, `AutomationSystem`, `AutomationTheorems`, `RetryExhaustion`, `Lifecycle` |
| Containment cleanup registry and command identity | `CommandUnits`, `CleanupRegistry`, `CommandContainment` |
| ELF snapshot rewriting | `ElfSnapshot`, `ElfLayout` |
| Repository publication | `Publication` |
| Archive selectors | `ArchiveSelectors`, `TextOrder` |
| Pipeline terminal ownership | `Pipeline` |
| Detection scheduler | `DetectionScheduler` |
| Control stanzas and modelled status | `ControlStanzas`, `StatusOverlay` |
| Managed Recipe overlay | `RecipeOverlay` |
| Shared | `Wrappers` |

`dafny verify dfyconfig.toml` checks everything.

How to read it:

- **Automation.** Durable state (ledger document, Run store with Validation attempts and
  publication records) is separate from volatile state (one program counter per locked
  generation). A system event is a detection or operator retry, one atomic step of one
  generation, worker progress, a manual Run, or a restart that drops every program counter.
  `AutomationTheorems` speaks about every event sequence from an empty ledger. `Gen.log` is a
  ghost-like history (Runs committed, announcements, refused saves) that no step reads.
- **Registry, identity, pipeline, scheduler.** Observations, failures and what other threads do
  are arbitrary values chosen at every point where the source holds no lock. Ghost histories
  (`log`, `saves`, `worked`, `passes`, `books`) record what happened; no statement reads them.
- **ELF, publication, selectors, stanzas, overlay.** Each loop is a method proved against a
  function or predicate, and the promises are lemmas about that function.

What the proofs found:

- The save-time validator can refuse one kind of orchestrator write: Run-admission and
  Validation-admission retries are not capped by the orchestrator, so the delayed retry that
  would write count 1001 is refused. `RetryRefusedExactly` gives the exact condition,
  `NoStuckWrites` shows that no other write is ever refused, and `RetryRefusedOnARun` is a run
  from an empty ledger that gets there.
- `link_run` on its own puts a stopped row back to work if and only if that row was not yet
  announced, never had a Run or Validation linked, and its preallocated Run exists and is bound
  (`StoppedRowRevivedExactly`; `StoppedRowRevived` is such a row). No other ledger operation
  does, and the orchestrator never calls it on such a row (`RunsAreMonotone`).
- `debian_version_relation` raises for versions that dpkg finds equal but that differ as text,
  so an insertion is strictly newer and not only at least as new.
- An accepted stanza whose field name starts with white space survives parsing but not the
  status overlay, because Package and Status are moved in front of it. `WrittenStatusReads` is
  the exact condition and `SpaceNameLost` a concrete stanza.
- A check queued while a follow-up pass runs, or in the moment between that pass and the
  bookkeeping behind it, stays queued but does not wake the loop: after a follow-up pass
  `Settle` always clears the wake flag. It waits for the next request or deadline.
  `StrandedCheck` reaches such a state from the start.

## Model

| member | source | states |
|---|---|---|
| `AutomationRow.FinishAccepted` | debbuilder/automation_ledger.py:101-209 | finishing an active row passes the row rules if and only if the count is within 0..1000 and retry class and delay fit the classification |
| `AutomationRow.AdvanceAccepted` | debbuilder/automation_ledger.py:656-689 | advancing an active linked row passes the row rules if and only if the stage fits the links the row has or is given |
| `AutomationRow.StatesMean` | debbuilder/automation_ledger.py:101-209 | what each state of a valid row says about its links, classification, retry class, delay and stage |
| `AutomationRow.LinkAnswered` | debbuilder/automation_ledger.py:540-585 | exactly which Run a row is linked to, and how every other request is answered |
| `AutomationRow.MarkAnswered` | debbuilder/automation_ledger.py:691-700 | a completion is marked once and only of a stopped row |
| `AutomationLedger.PutRowValid` | debbuilder/automation_ledger.py:232-278 | replacing one row keeps a valid document valid if and only if that row satisfies the row rules at its index |
| `AutomationLedger.CountEntry` | debbuilder/automation_ledger.py:232-278 | the validator's per-Recipe tally counts exactly the attempts of each Recipe |
| `AutomationLedger.Validate` | debbuilder/automation_ledger.py:232-278 | the validator's loop accepts exactly the valid documents: every row rule, key digest and bound |
| `AutomationLedger.Ledger.constructor` | debbuilder/automation_ledger.py:225-230 | a new ledger is empty and valid, with its two limits clamped to 1..2048 and 1..128 |
| `AutomationLedger.Ledger.Save` | debbuilder/automation_ledger.py:330-338 | a save replaces the document if and only if it validates; a refused save leaves it as it was |
| `AutomationLedger.Ledger.ClaimCurrentRecipe` | debbuilder/automation_ledger.py:377-435 | the in-place claim computes the document and answer of the claim operation and keeps the ledger valid; the rows below say when that creates, reuses, closes or refuses |
| `LedgerHistory.ClaimCreatedExactly` | debbuilder/automation_ledger.py:393-435 | exactly when a detection creates an attempt, exactly when it reuses one, and otherwise the document stays as it was |
| `LedgerHistory.ClaimClosedExactly` | debbuilder/automation_ledger.py:421-433 | a created attempt is closed at birth if and only if its policy only detects, or a baseline is asked for and no attempt of that Recipe revision exists; every other one waits to be built |
| `LedgerHistory.OneBaseline` | debbuilder/automation_ledger.py:421-427 | over every sequence of operations a Recipe revision has at most one baseline, and none once it has any attempt |
| `AutomationLedger.Ledger.ExplicitRetryCurrentRecipe` | debbuilder/automation_ledger.py:441-515 | the in-place operator retry computes its operation, refusals in the source's order, and keeps the ledger valid |
| `LedgerHistory.RetryCreatedExactly` | debbuilder/automation_ledger.py:455-515 | exactly when an operator retry creates a generation and what it holds, exactly when it reuses the one it raced with, and otherwise nothing changes |
| `LedgerHistory.NewestIsLatest` | debbuilder/automation_ledger.py:455-470 | the retry's search finds exactly the attempt that was detected last, by detection, creation, then key |
| `AutomationLedger.Ledger.ChangeRow` | debbuilder/automation_ledger.py:521-700 | preallocate, link, finish, advance and notify write exactly one row of a valid ledger, answer without writing, or raise |
| `LedgerHistory.AdvanceAnswered` | debbuilder/automation_ledger.py:656-689 | exactly how a lifecycle advance is answered and what it writes |
| `LedgerHistory.WritesAreStamped` | debbuilder/automation_ledger.py:521-700 | every row write carries its time and leaves creation, detection and policy alone |
| `LedgerHistory.ApplyKeeps` | debbuilder/automation_ledger.py:377-700 | one ledger operation with any arguments removes no entry or generation, rewrites no Run id, clears no link and revives no notified row |
| `LedgerHistory.HistoryMonotone` | debbuilder/automation_ledger.py:182-183 | the same over every sequence of operations |
| `LedgerHistory.RevivedExactly` | debbuilder/automation_ledger.py:540-585 | a row operation puts a stopped row back to work if and only if it links the bound, preallocated Run of an un-notified row that never had a Run or Validation linked |
| `LedgerHistory.StoppedRowRevivedExactly` | debbuilder/automation_ledger.py:521-700 | the same over the whole ledger and every operation |
| `LedgerHistory.StoppedRowRevived` | debbuilder/automation_ledger.py:556-585 | a valid ledger with such a row, and the link that revives it |
| `LedgerHistory.ClaimedOnce` | debbuilder/automation_ledger.py:393-435 | over any sequence an attempt for given inputs is created at most once, and never if it exists |
| `LedgerHistory.RetriedOnce` | debbuilder/automation_ledger.py:455-515 | over any sequence at most one generation is created in answer to retries of one observed generation |
| `LedgerHistory.DuplicatesConverge` | debbuilder/automation_ledger.py:393-515 | any interleaving of detections, retries and lifecycle writes keeps one entry per (Recipe, revision, identity) and all four bounds |
| `LedgerHistory.ClaimAnswersItself` | debbuilder/automation_ledger.py:393-435 | with an injective digest an accepted claim is answered by the entry of exactly its own inputs |
| `LedgerHistory.RepeatedDetection` | debbuilder/automation_ledger.py:393-435 | a detection repeated after any history changes nothing and answers with the same attempt, unless Recipe or policy changed |
| `OrchestratorInvariant.FinishFacts` | debbuilder/automation_ledger.py:620-654 | finishing an active row is refused only for a retry count out of range, and what the written row then is |
| `OrchestratorInvariant.AdvanceFacts` | debbuilder/automation_ledger.py:656-689 | every lifecycle advance the orchestrator asks for is accepted by the validator |
| `OrchestratorInvariant.AdmitRunKeeps` | debbuilder/automation_orchestrator.py:386-480 | Run admission keeps the generation invariant on every branch |
| `OrchestratorDecisions.AdmissionVerdict` | debbuilder/automation_orchestrator.py:386-480 | exactly when Run admission waits, retries, is disabled, needs an operator, or is a success because another Run builds the identity |
| `OrchestratorDecisions.ActsOnlyWhenAllowed` | debbuilder/automation_orchestrator.py:102-119 | nothing is created, validated or published for a Recipe that is gone, inactive, not automated or whose policy no longer goes that far, and no Run id is allocated for an identity another Run builds |
| `OrchestratorDecisions.RaisedInAdmission` | debbuilder/automation_orchestrator.py:457-466 | what each kind of exception out of an admission leads to |
| `OrchestratorInvariant.ReconcileKeeps` | debbuilder/automation_ledger.py:587-618 | reconciling a preallocated Run links exactly a matching committed Run |
| `OrchestratorDecisions.ReconcileVerdict` | debbuilder/automation_ledger.py:587-618 | an unfinished workspace is discarded, a committed Run is linked exactly when it is this generation's, and any other one stops it |
| `OrchestratorInvariant.EnqueueKeeps` | debbuilder/app.py:890-968 | gate-held admission of a preallocated Run keeps the invariant, whatever its checks find |
| `OrchestratorDecisions.EnqueueVerdict` | debbuilder/app.py:890-968 | exactly when a workspace is reserved, an existing Run is taken over as the one meant, or the generation stops |
| `OrchestratorInvariant.CreatingKeeps` | debbuilder/build_store.py:93-134 | committing the Run fills only the preallocated slot, with the claim's Recipe, revision and provenance |
| `OrchestratorDecisions.CommitVerdict` | debbuilder/build_store.py:93-134 | a Run is committed exactly in its reserved workspace and never behind an exception |
| `OrchestratorInvariant.LinkingKeeps` | debbuilder/automation_ledger.py:540-585 | linking writes the preallocated id and only for a bound Run |
| `OrchestratorDecisions.LinkVerdict` | debbuilder/automation_ledger.py:540-585 | a bound Run is linked once and submitted exactly while it is pending |
| `OrchestratorDecisions.AlreadyEnded` | debbuilder/automation_orchestrator.py:476-480 | a Run, and an attempt, that ended before it was linked is judged at once |
| `OrchestratorInvariant.HandleRunKeeps` | debbuilder/automation_orchestrator.py:364-384 | every Run status is followed by an invariant-keeping step, and only a succeeded Run goes on to Validation |
| `OrchestratorDecisions.RunVerdict` | debbuilder/automation_orchestrator.py:364-384 | each Run status and policy has exactly one verdict: wait, admit again, cancelled, failed, success or Validation |
| `OrchestratorDecisions.MissingRun` | debbuilder/automation_orchestrator.py:364-368 | a Run that disappeared needs an operator |
| `OrchestratorInvariant.AdmitValidationKeeps` | debbuilder/automation_orchestrator.py:179-260 | Validation admission and relinking keep links, attempts and counters consistent |
| `OrchestratorDecisions.ValidationAdmissionVerdict` | debbuilder/automation_orchestrator.py:198-229 | exactly when Validation admission waits, is disabled, is delayed for want of a manager, or calls the manager |
| `OrchestratorDecisions.AttemptStored` | debbuilder/automation_orchestrator.py:226-260 | an admission stores exactly one attempt, or none when refused, and links exactly a new one |
| `OrchestratorDecisions.NewestAttemptFollowed` | debbuilder/automation_orchestrator.py:179-196 | an attempt newer than the linked one is followed before anything is decided |
| `OrchestratorInvariant.HandleValidationKeeps` | debbuilder/automation_orchestrator.py:262-290 | Validation outcomes are retried at most twice and otherwise stop or publish |
| `OrchestratorDecisions.ValidationVerdict` | debbuilder/automation_orchestrator.py:262-290 | each outcome of the newest attempt has exactly one verdict, retries at most twice |
| `OrchestratorInvariant.PublishKeeps` | debbuilder/automation_orchestrator.py:297-325 | a recorded failed publication is counted before publish is called again |
| `OrchestratorDecisions.PublicationRefused` | debbuilder/automation_orchestrator.py:297-303 | nothing is published while admission is closed or the Recipe does not allow it |
| `OrchestratorDecisions.RecordedFailureJudged` | debbuilder/automation_orchestrator.py:297-325 | a recorded, uncounted failure is judged by its own kind and publish is not called; otherwise it is |
| `OrchestratorDecisions.PublicationCall` | debbuilder/automation_orchestrator.py:322-336 | a record in flight precedes the call and exactly that record gets the outcome; an exception is judged by its kind |
| `OrchestratorInvariant.PublishDoneKeeps` | debbuilder/automation_orchestrator.py:337-362 | after publish returns or raises, the row follows the recorded outcome |
| `OrchestratorDecisions.PublicationVerdict` | debbuilder/automation_orchestrator.py:337-362 | each recorded publication has exactly one verdict, retries at most three |
| `OrchestratorInvariant.RetryInv` | debbuilder/automation_orchestrator.py:143-155 | scheduling a retry keeps the invariant, also when the save is refused |
| `OrchestratorInvariant.NotifyKeeps` | debbuilder/automation_orchestrator.py:157-177 | stopping, announcing and marking in that order keep the invariant at every crash point |
| `Lifecycle.CompletionAnnounced` | debbuilder/automation_orchestrator.py:157-177 | a stopped generation is announced, unless cancelled or disabled, and marked, in three steps |
| `OrchestratorInvariant.WorkKeeps` | debbuilder/automation_orchestrator.py:143-480 | every atomic step of the orchestrator keeps its generation's invariant and touches no other generation or Run |
| `RecipeTurn.IsRecipeTurn` | debbuilder/automation_orchestrator.py:121-129 | the search over all attempts decides exactly whether this row is the least active one by (creation, key, generation) |
| `RecipeTurn.TurnIsExclusive` | debbuilder/automation_orchestrator.py:121-129 | while a Recipe has active generations, exactly one of its rows has the turn, and it is active |
| `RecipeTurn.TurnSurvives` | debbuilder/automation_orchestrator.py:507-548 | the turn survives any change that revives no row and adds only later ones |
| `AutomationSystem.StepSystem` | debbuilder/automation_orchestrator.py:507-548 | one step of one generation keeps the invariant of the whole system, all other generations included |
| `AutomationSystem.RestartSystem` | debbuilder/automation_orchestrator.py:540-548 | losing every program counter at any point keeps the invariant of the whole system |
| `AutomationSystem.CoordinateSystem` | debbuilder/automation_ledger.py:377-515 | a claim or operator retry changes no existing row, adds at most a fresh one and keeps the system invariant |
| `AutomationSystem.NextOk` | debbuilder/automation_orchestrator.py:507-568 | every event keeps the system invariant |
| `AutomationTheorems.TraceOk` | debbuilder/automation_orchestrator.py:507-568 | the system invariant holds after every event sequence |
| `AutomationTheorems.ExactlyOneRun` | debbuilder/automation_orchestrator.py:413-456 | over all interleavings and restarts a generation commits at most one Run, under its write-once preallocated id, and a linked Run matches Recipe, revision, policy and identity |
| `AutomationTheorems.OutcomesAreEarned` | debbuilder/automation_orchestrator.py:262-384 | over every run, a success with a Run stands on a prepared or succeeded Run and, as far as its policy goes, a succeeded newest Validation and a proven publication; a cancellation has a cancelled Run or Validation; only succeeded Runs are validated |
| `Lifecycle.UndisturbedLifecycle` | debbuilder/automation_orchestrator.py:364-480 | a claim of any building policy that nothing disturbs ends as an earned, announced and marked success with exactly one Run, whatever else is stored |
| `AutomationTheorems.NoStuckWrites` | debbuilder/automation_ledger.py:101-209 | the document stays valid and the only refused save is a delayed retry with count 1001 |
| `AutomationTheorems.RetryRefusedExactly` | debbuilder/automation_orchestrator.py:143-155 | a delayed retry is refused, leaving the row alone, if and only if its stage counter stands at 1000 |
| `RetryExhaustion.RetryRefusedOnARun` | debbuilder/automation_orchestrator.py:143-155 | from an empty ledger, a thousand delays on a full queue lead to a refused save with count 1001 that leaves the row as it was |
| `AutomationTheorems.BoundedRetries` | debbuilder/automation_orchestrator.py:279-362 | at most two retries of failed Validations, three publication retries, four recorded failures, all counted when publish is called |
| `AutomationTheorems.RunsAreMonotone` | debbuilder/automation_ledger.py:521-700 | along every run rows and links are never taken back and a stopped generation never resumes |
| `AutomationTheorems.AnnouncedAtMostOnce` | debbuilder/automation_orchestrator.py:157-177 | each completion is announced at most once, only when stopped and not cancelled or disabled; every other marked completion was announced |
| `AutomationTheorems.TurnKept` | debbuilder/automation_orchestrator.py:121-129 | with strictly later claims, a generation keeps its Recipe's turn over every run until it stops |
| `AutomationTheorems.OneWorksAtATime` | debbuilder/automation_orchestrator.py:507-548 | with strictly later claims, no two generations of one Recipe are ever worked on at the same time |
| `CleanupRegistry.SharedRegistry.PublishBlocker` | debbuilder/command_containment.py:264-291 | publishing latches the blocker with a new generation, or saturates a full registry; a malformed identity has no effect |
| `CleanupRegistry.SharedRegistry.Blocked` | debbuilder/command_containment.py:294-323 | silent exactly when nothing (of the asked kind) is latched and the registry is not saturated |
| `CleanupRegistry.SharedRegistry.CommitOutcomes` | debbuilder/command_containment.py:356-371 | the commit loop computes the commit, removes as many blockers as it says, and removed and stale ones are exactly the proofs |
| `CleanupRegistry.CommitRemoves` | debbuilder/command_containment.py:356-371 | a commit removes only keys some outcome proved gone and whose blocker and generation are still those of the snapshot |
| `CleanupRegistry.CommitExactly` | debbuilder/command_containment.py:356-371 | a blocker leaves if and only if some outcome proved it gone and it is still the blocker and generation that outcome was taken from |
| `CleanupRegistry.FinishRemovesExactly` | debbuilder/command_containment.py:326-390 | the same for a whole reconciliation beside other publishers and reconcilers |
| `CleanupRegistry.UndisturbedReconciliation` | debbuilder/command_containment.py:326-390 | a reconciliation that proves everything gone and that nothing disturbs empties the registry, and admission opens unless the registry ever overflowed |
| `CleanupRegistry.RemovedOnlyByLaterProof` | debbuilder/command_containment.py:326-390 | no ABA: a removed key was last published before the removing snapshot and proven gone after it |
| `CleanupRegistry.TraceOk` | debbuilder/command_containment.py:264-390 | the registry invariant, at most 256 entries included, holds over every interleaving |
| `CleanupRegistry.SaturationSticks` | debbuilder/command_containment.py:264-291 | no event undoes saturation |
| `CleanupRegistry.AdmissionMeansProvenGone` | debbuilder/app.py:774-797 | whenever the gate-held check admits a Run, every blocker ever published was proven gone after its latest publish |
| `CommandContainment.ProveAbsent` | debbuilder/command_containment.py:1132-1189 | absence is reported exactly after unit, cgroup, unit, cgroup of the recorded unit were read absent, presence exactly for a snapshot with the recorded boot, invocation and provenance; without lease or derived names nothing is read |
| `CommandContainment.WorkloadIsRecorded` | debbuilder/command_containment.py:1758-2078 | at every moment of a safe history a unit that was started is named by the durable record, or it and then its cgroup were seen absent since |
| `CommandContainment.IdentityOutlivesWorkload` | debbuilder/command_containment.py:1966-2078 | when the record of a unit has made place, that record was cleared while no start of that unit had been attempted, or after that unit and then its cgroup were seen absent |
| `CommandContainment.IntentPrecedesStart` | debbuilder/command_containment.py:1777-1808 | every attempted start lies behind a recorded starting intent of the same unit, with no other record or clearing in between |
| `CommandContainment.RecordOnlyMovesOn` | debbuilder/command_identity.py:393-414 | until cleared, the record names the same command and moves only starting, active, stopping |
| `CommandContainment.StopsOnlyTheRecorded` | debbuilder/command_containment.py:1966-2025 | in every safe history a unit is stopped or reset only right after a snapshot with its derived name, provenance, control group and recorded invocation, and reset only when failed and empty |
| `CommandContainment.RecordRules` | debbuilder/command_identity.py:238-304 | what a record accepts: one at a time, complete for its phase, replaced only by the next phase of the same command |
| `CommandContainment.Command.Persist` | debbuilder/command_identity.py:369-376 | a record is created only for a valid identity and an empty slot |
| `CommandContainment.Command.Update` | debbuilder/command_identity.py:393-414 | a record is replaced only by a later phase of the exact recorded identity, also when the write reports an error |
| `CommandContainment.Command.Clear` | debbuilder/command_identity.py:379-390 | only the exact record is cleared, and only when nothing of its unit can be running unseen |
| `CommandContainment.Command.WaitForDisappearance` | debbuilder/command_containment.py:1470-1548 | polling reports disappearance exactly when its last readings are the recorded unit and then its cgroup absent, and resets at most once, only the unit just seen to be the recorded one |
| `CommandContainment.Command.TerminateRecord` | debbuilder/command_containment.py:1966-2025 | an owned unit is stopped, and nothing else; a running one first has its intent to stop recorded; success is exactly that unit and then its cgroup seen absent |
| `CommandContainment.Command.RecordStopping` | debbuilder/command_containment.py:1980-2006 | the intent to stop is persisted, or kept ambiguous with both records as candidates, and ownership is read again |
| `CommandContainment.Command.Finish` | debbuilder/command_containment.py:2041-2070 | a unit that still runs is left alone; a completed unit's record is cleared only after that unit was seen absent, and is cleared then if it can be; otherwise record, metadata and candidates still name it |
| `CommandContainment.Command.Undo` | debbuilder/command_containment.py:1865-1909 | a failed start clears its record only after its own unit was seen absent, and otherwise leaves the record |
| `CommandContainment.Command.Activate` | debbuilder/command_containment.py:1818-1850 | the record becomes active exactly on the first intact snapshot of the started unit that shows an invocation, and carries that invocation |
| `CommandContainment.Command.Start` | debbuilder/command_containment.py:1758-1909 | in any workspace history: an existing record refuses; the intent is durable before the start; a start ends activated, cleared with nothing running unseen, or with its record still there |
| `ElfSnapshot.ScanHeaders` | debbuilder/elf_override_snapshot.py:29-43 | the program header loop finds exactly the dynamic segment and the loads, or refuses |
| `ElfLayout.LittleEndian` | debbuilder/elf_override_snapshot.py:25-33 | an eight-byte field is the little-endian number of its bytes |
| `ElfLayout.LayoutExactly` | debbuilder/elf_override_snapshot.py:25-58 | a layout is accepted if and only if magic, class, order, header table, the one dynamic segment, its entries and its string table are as the format demands, and it is then exactly those |
| `ElfLayout.NameExactly` | debbuilder/elf_override_snapshot.py:62-68 | a name is exactly the bytes up to the first zero, if they are text |
| `ElfSnapshot.ReadEntries` | debbuilder/elf_override_snapshot.py:44-49 | the dynamic loop reads exactly the entries before the first DT_NULL |
| `ElfSnapshot.OnlyMatchedTagsChange` | debbuilder/elf_override_snapshot.py:59-74 | length is kept, every changed byte is a tag byte of a DT_NEEDED entry whose name was ignored when it was handled, and every such entry is retagged, overlapping tables included |
| `ElfSnapshot.StripMeaning` | debbuilder/elf_override_snapshot.py:59-74 | with tables apart, exactly the ignored needed names are retagged |
| `ElfSnapshot.LayoutKept` | debbuilder/elf_override_snapshot.py:25-58 | the rewritten file has the same headers, tables and string base |
| `ElfSnapshot.RereadsWithoutIgnored` | debbuilder/elf_override_snapshot.py:25-74 | re-reading yields the original needed list minus exactly the ignored names, in order; success if and only if every ignored name is needed |
| `ElfSnapshot.Strip` | debbuilder/elf_override_snapshot.py:59-74 | the in-place loop computes that rewriting on the byte array |
| `ElfSnapshot.FilterSnapshot` | debbuilder/elf_override_snapshot.py:16-79 | the whole in-place rewriting, with every array access in bounds, succeeds exactly when the rewriting does and the inspection of the result confirms it, and yields exactly the rewritten bytes |
| `ElfSnapshot.InspectionConfirms` | debbuilder/elf_override_snapshot.py:77-79 | with tables apart, an inspector that reads the needed names always confirms the rewriting |
| `ArchiveSelectors.ParseInjective` | debbuilder/archive_payload.py:21-43 | parsing never merges two spellings |
| `ArchiveSelectors.ParseExactly` | debbuilder/archive_payload.py:21-43 | parsing and spelling are inverse: exactly the spellings of proper components, none of them empty, dot or dot-dot, are accepted and read as those |
| `ArchiveSelectors.MatchesBySpelling` | debbuilder/archive_payload.py:46-54 | a selector matches a path if and only if it spells it, or is a directory spelled in front of it |
| `ArchiveSelectors.MatchesKept` | debbuilder/archive_payload.py:46-89 | normalising keeps exactly the matched paths |
| `ArchiveSelectors.CanonicalComplete` | debbuilder/archive_payload.py:63-89 | two accepted lists match the same paths if and only if they normalise to the same list |
| `ArchiveSelectors.CanonicalStable` | debbuilder/archive_payload.py:63-89 | order and duplicates do not matter, and normalising is idempotent |
| `ArchiveSelectors.CanonicalSelectors` | debbuilder/archive_payload.py:63-89 | the loops accept exactly the conflict-free parseable lists and return the sorted uncovered values |
| `Publication.Prove` | debbuilder/artifact_publication.py:392-452 | the proof succeeds exactly when every target has one database identity whose index entry and pool bytes equal the source; a conflict is reported exactly when the first target not held contradicts the source |
| `Publication.TargetsExactly` | debbuilder/artifact_publication.py:362-370 | the targets are every configured binary architecture for architecture all, and its own one otherwise; an error exactly when there is none |
| `Publication.DbMatchesExactly` | debbuilder/artifact_publication.py:353-359 | the database lookup finds none exactly when the identity is absent and one exactly when it is recorded once |
| `Publication.EntryExactly` | debbuilder/artifact_publication.py:282-318 | the exact index lookup answers an entry exactly when one row has the identity with usable fields, none exactly when none has it, a conflict exactly for duplicates |
| `Publication.TargetExactly` | debbuilder/artifact_publication.py:402-436 | one target passes exactly when it holds the source, and conflicts exactly when what it holds contradicts it |
| `Publication.CheckNotOlder` | debbuilder/artifact_publication.py:997-1003 | no error exactly when the candidate is strictly newer than, or textually equal to, every published version |
| `Publication.PublishedVersions` | debbuilder/artifact_publication.py:986-996 | the collected set is exactly what database and indexes list for the targets |
| `Publication.PublishArtifact` | debbuilder/artifact_publication.py:913-1037 | exactly when a request inserts, when it succeeds, what it leaves behind and which refusal it reports, stated over the configured architectures |
| `Publication.InsertsOnlyStrictlyNewer` | debbuilder/artifact_publication.py:943-1029 | includedeb runs only for a candidate strictly newer than everything listed for any architecture it is published for |
| `Publication.SuccessIsProof` | debbuilder/artifact_publication.py:1030-1037 | success implies the proof for every configured architecture of the artifact, and that there is one |
| `Publication.ReplayIsPure` | debbuilder/artifact_publication.py:964-982 | publishing again succeeds without inserting or changing anything, whatever the Validation readiness |
| `Publication.InsertedVersionsIncrease` | debbuilder/artifact_publication.py:983-1029 | without removals a later insertion is strictly newer than every version an earlier call left listed, also when that call then failed |
| `Publication.PublishedVersionsIncrease` | debbuilder/artifact_publication.py:983-1037 | in particular it is strictly newer than every version published with success before |
| `TextOrder.SortedUnique` | debbuilder/archive_payload.py:63-89 | a strictly sorted list is determined by its elements, so a sorted normal form is unique |
| `TextOrder.Sort` | debbuilder/archive_payload.py:63-89 | sorting returns exactly the given strings in strict code-point order |
| `Pipeline.OneTerminalRecord` | debbuilder/build_pipeline.py:219-293 | once a final record is saved every later save repeats it |
| `Pipeline.StepsEndOnce` | debbuilder/build_pipeline.py:52-62 | across all saves a step only moves from waiting to running to one outcome |
| `Pipeline.Worker.TakeGate` | debbuilder/execution_cancellation.py:86-92 | the gate is taken only while open; a cancellation that came first keeps it |
| `Pipeline.Worker.Observe` | debbuilder/build_pipeline.py:107-122 | a request is observed exactly when cancellation owns the gate, and recorded once |
| `Pipeline.Worker.Claim` | debbuilder/build_pipeline.py:131-136 | either the gate is owned or cancellation is raised; the unsettled case cannot happen |
| `Pipeline.Worker.Work` | debbuilder/build_pipeline.py:445-728 | work begins only on a Run that is not cancelled and whose running step is saved, and its ending decides what follows |
| `Pipeline.Worker.StageSource` | debbuilder/build_pipeline.py:445-470 | the source step passes on its work having returned, or its declared error is filed under it, or it is cancelled with a step running |
| `Pipeline.Worker.StageDetection` | debbuilder/build_pipeline.py:471-504 | the same for detection, which an archive passes without any work |
| `Pipeline.Worker.StageDependencies` | debbuilder/build_pipeline.py:505-640 | the same for dependencies, which an archive skips and which otherwise has two pieces of work, also when cancellation is observed behind the last checkpoint |
| `Pipeline.Worker.StageSourceChanges` | debbuilder/build_pipeline.py:641-671 | the same for source changes, whose second piece compares the sealed inputs |
| `Pipeline.Worker.StageBuild` | debbuilder/build_pipeline.py:672-728 | the same for the build, which a dry run only plans and an archive skips |
| `Pipeline.Worker.StagingFailed` | debbuilder/build_pipeline.py:769-779 | the error is filed under the named step and no step stays running |
| `Pipeline.Worker.StageStaging` | debbuilder/build_pipeline.py:729-779 | staging, metadata and systemd pass on the work of staging, or its error is filed under the step it names, or the Run is cancelled |
| `Pipeline.Worker.StagePackage` | debbuilder/build_pipeline.py:780-818 | success and prepared are set only behind the gate, with all planned work returned and every step passed as planned |
| `Pipeline.Worker.InspectionFailed` | debbuilder/build_pipeline.py:808-818 | a failed inspection is filed under the artifact step of a package that was built |
| `Pipeline.Worker.UpstreamArtifact` | debbuilder/build_pipeline.py:296-355 | the same for the upstream package path with its seven skipped steps |
| `Pipeline.Worker.FinishTerminal` | debbuilder/build_pipeline.py:267-293 | a settled outcome is saved only under terminal ownership; a lost race is handed to cancellation |
| `Pipeline.Worker.Conclude` | debbuilder/build_pipeline.py:219-264 | cancellation closes exactly the running step and saves cancelled, or failed when an interrupted command could not be ended |
| `Pipeline.Worker.Execute` | debbuilder/build_pipeline.py:375-424 | whatever stages and requests do, the Run ends with one final record: success or prepared only after exactly the planned work of its kind returned, in order, with every step's planned outcome; under the gate failed if and only if a stage raised its declared error, which is filed under its step behind steps that passed; cancelled only if cancellation won |
| `DetectionScheduler.RetryDelay` | debbuilder/automation_scheduler.py:476-487 | delays lie in 60..21600 s and are never below a server hint within that cap |
| `DetectionScheduler.BackoffDoubles` | debbuilder/automation_scheduler.py:476-487 | without a hint the delay is 60 s doubled per failure, at most 15 percent longer, up to the cap |
| `DetectionScheduler.BackoffGrows` | debbuilder/automation_scheduler.py:476-487 | under the same server hints a later retry never waits less than an earlier one, whatever the jitter |
| `DetectionScheduler.NoSpinning` | debbuilder/automation_scheduler.py:694-725 | two further passes that nobody asked for take at least 60 s |
| `DetectionScheduler.Scheduler.Request` | debbuilder/automation_scheduler.py:259-278 | a wake is accepted exactly outside a pass or while a follow-up is still accepted |
| `DetectionScheduler.Scheduler.RequestRecipe` | debbuilder/automation_scheduler.py:280-322 | exactly when a check is created, coalesced or refused; a created one is queued and wakes an idle loop, a coalesced one finds its Recipe queued, in flight or in the pass |
| `DetectionScheduler.Scheduler.RequestObservation` | debbuilder/automation_scheduler.py:324-347 | exactly when an observation is created; no pass refuses it |
| `DetectionScheduler.Scheduler.TakeInventory` | debbuilder/automation_scheduler.py:583-594 | checks in the inventory are taken; others stay queued, and are dropped exactly by a follow-up pass, which is recorded with its inventory |
| `DetectionScheduler.Scheduler.StartWorker` | debbuilder/automation_scheduler.py:597-616 | a worker starts only for a Recipe that has none; every taken check is served by such a start |
| `DetectionScheduler.Scheduler.StartWorkers` | debbuilder/automation_scheduler.py:597-616 | every Recipe of the inventory gets a worker of this pass, unless one of an earlier pass is still at work |
| `DetectionScheduler.Scheduler.FinishPass` | debbuilder/automation_scheduler.py:653-662 | a pass that ends normally owes nothing and leaves nothing in flight |
| `DetectionScheduler.Scheduler.RunPass` | debbuilder/automation_scheduler.py:539-662 | one pass keeps the accounting of every Recipe; only a follow-up pass, which accepts no further one, drops |
| `DetectionScheduler.Scheduler.NextRetryDelay` | debbuilder/automation_scheduler.py:664-692 | the least clamped delay, except that overdue retries wait for the recheck deadline |
| `DetectionScheduler.Scheduler.Poll` | debbuilder/automation_scheduler.py:694-711 | the loop wakes itself exactly when the period is over, or a retry is overdue and the pause behind the last pass is over |
| `DetectionScheduler.Scheduler.AwaitWork` | debbuilder/automation_scheduler.py:694-711 | the loop wakes by itself only 60 s or more after the last pass ended |
| `DetectionScheduler.Scheduler.Settle` | debbuilder/automation_scheduler.py:712-725 | a pass is followed at once exactly when it was no follow-up and a wake or a queued check is left |
| `DetectionScheduler.Scheduler.Round` | debbuilder/automation_scheduler.py:694-732 | a loop that wakes runs exactly one pass, and a follow-up pass is not followed |
| `DetectionScheduler.Scheduler.Run` | debbuilder/automation_scheduler.py:694-732 | after any number of rounds: created checks are served, dropped or still queued; each dropped one by a follow-up pass whose inventory lacks its Recipe; none lost without stop or exception; at most one worker per Recipe; passes spaced |
| `DetectionScheduler.StrandedCheck` | debbuilder/automation_scheduler.py:712-725 | a reached state with a queued check and a waiting loop that is not woken |
| `ControlStanzas.ParseStanzas` | debbuilder/apt_state_model.py:20-39 | the parser loop computes the fold of its line step, failures included |
| `ControlStanzas.SplitExactly` | debbuilder/apt_state_model.py:20-39 | exactly how a text splits into lines: one per break, carriage return and line feed being one break |
| `ControlStanzas.RoundTrip` | debbuilder/apt_state_model.py:42-47 | printing well-formed stanzas and parsing gives them back |
| `ControlStanzas.ParsedIsWellFormed` | debbuilder/apt_state_model.py:20-39 | whatever the text, accepted stanzas are well-formed |
| `ControlStanzas.RoundTripExactly` | debbuilder/apt_state_model.py:20-47 | the round trip holds if and only if the stanzas are well-formed |
| `ControlStanzas.NormalisedText` | debbuilder/apt_state_model.py:20-47 | printing and parsing is stable from the first accepted parse on |
| `StatusOverlay.BuildModeledStatus` | debbuilder/apt_state_model.py:69-91 | fails exactly for an incomplete addition, else yields the overlay of base and additions |
| `StatusOverlay.OrderedIsModeled` | debbuilder/apt_state_model.py:77-90 | the dictionary edits put Package and Status first and keep the other undropped fields in order |
| `StatusOverlay.OverlayExactly` | debbuilder/apt_state_model.py:76-90 | the result is the untouched base rows in order followed by the last decision per key |
| `StatusOverlay.OverlayByKey` | debbuilder/apt_state_model.py:76-90 | read by key the overlay is a map update: an added key has exactly one row, its last decision |
| `StatusOverlay.ModeledReads` | debbuilder/apt_state_model.py:77-90 | a modelled row is well-formed if and only if no kept name starts with white space behind a named field |
| `StatusOverlay.WrittenStatusReads` | debbuilder/apt_state_model.py:69-91 | the written status parses back to the modelled rows exactly under that condition on the winning decisions |
| `StatusOverlay.SpaceNameLost` | debbuilder/apt_state_model.py:77-91 | a parseable, complete addition for which it does not |
| `RecipeOverlay.FirstDifference` | debbuilder/builtin_recipe.py:252-270 | empty if and only if the documents are equal, else the first difference in key and index order |
| `RecipeOverlay.DecimalReads` | debbuilder/builtin_recipe.py:252-270 | an index is written so that it reads back, so no two items share a path |
| `RecipeOverlay.TruthIsNumber` | debbuilder/builtin_recipe.py:252-270 | truth values compare as the numbers 0 and 1 and as nothing else |
| `RecipeOverlay.GetPut` | debbuilder/builtin_recipe.py:118-130 | reading a path back gives what was set |
| `RecipeOverlay.GetPutApart` | debbuilder/builtin_recipe.py:118-130 | setting a path changes nothing at any path apart from it |
| `RecipeOverlay.ExtractOverrides` | debbuilder/builtin_recipe.py:133-141 | the loop extracts exactly the overridden operator values |
| `RecipeOverlay.ExtractedAt` | debbuilder/builtin_recipe.py:133-141 | an override tree holds a path exactly when its value differs and is no blank maintainer |
| `RecipeOverlay.ApplyOverrides` | debbuilder/builtin_recipe.py:144-162 | the loop lays recorded overrides over the definition |
| `RecipeOverlay.ApplyExactly` | debbuilder/builtin_recipe.py:144-162 | overrides win on operator paths, the definition shows at every other path |
| `RecipeOverlay.ExtractApply` | debbuilder/builtin_recipe.py:133-168 | applying extracted overrides restores the operator's value wherever it is an override |
| `RecipeOverlay.KeptMeans` | debbuilder/builtin_recipe.py:133-168 | hence every operator path equals the edited Recipe, a blank maintainer the definition |
| `RecipeOverlay.ExtractAgain` | debbuilder/builtin_recipe.py:133-168 | extracting from the result gives the same overrides |
| `RecipeOverlay.UpgradesCompose` | debbuilder/builtin_recipe.py:189-237 | reconciling step by step through a newer definition gives what reconciling at once gives, normalisation in between included |
| `RecipeOverlay.ProjectionAgrees` | debbuilder/builtin_recipe.py:240-249 | equal projections agree on every managed path |
| `RecipeOverlay.OperatorEditsPass` | debbuilder/builtin_recipe.py:240-249 | edits of operator paths never change the projection, so they are never refused as managed |
| `RecipeOverlay.Effective` | debbuilder/builtin_recipe.py:144-168 | accepted exactly when both canonicalisations accept, and then the definition under the normalised overrides |
| `RecipeOverlay.UpdateBuiltin` | debbuilder/builtin_recipe.py:273-344 | exactly when an edit is saved and when it is refused for a managed field; a saved one has the candidate's operator values and the definition elsewhere |
| `RecipeOverlay.Reconcile` | debbuilder/builtin_recipe.py:189-237 | a missing Recipe is seeded; exactly when a stored one is not adopted, needs a newer application, or is accepted, and it then keeps exactly its overrides under the definition |
| `RecipeOverlay.CanonicaliserExists` | debbuilder/recipe_schema.py:902-931 | the assumed contract of the canonicaliser can be met |

## Left out

Assumptions about what is not modelled:

- Saves are atomic and do not fail with I/O errors; a restart loses nothing that was saved.
- Ids, codes, timestamps and digests are abstract values; the attempt-key digest is injective where a property needs it.
- Validation attempts of a Run are read reliably and in creation order; a reused manual attempt counts as one newly added.
- No manual publication runs on an automated Run, and committed Runs are never deleted.
- A restart recovers publication records that were in flight before orchestration resumes.
- Debian version order is an abstract total preorder, given by a rank.
- Pipeline stages raise only their declared errors, and are interrupted only after a cancellation request.
- A Run that reached a final status keeps it, and a Validation attempt that ended keeps its outcome.
- Scheduler workers that never end keep their pass active; the timeouts of the result wait are not separate steps, and a pass may take its inventory in any order.

Weaker or conditional statements:

- AutomationTheorems.TurnKept: needs new claims to carry strictly later creation times; with equal times the smaller key takes the turn.
- AutomationTheorems.NoStuckWrites: holds below 1000 retries per counter; the exact refusal at count 1001 is stated beside it.
- ElfSnapshot.FilterSnapshot: takes the inspection of the written file as an arbitrary function of its bytes; readelf itself is not modelled.
- CommandContainment.Command.Start: does not model malformed record files, process-group commands or startup recovery of records left by an earlier process; a command is terminated or finished only while its record exists.
- DetectionScheduler.Scheduler.Run: covers every finite number of loop rounds, not the liveness of the endless loop.
- RecipeOverlay.UpdateBuiltin: takes recipe_document_for_storage as a function with the contract `Canonicaliser`; a path through a value that is no dictionary reads as missing.
- RecipeOverlay.FirstDifference: numbers are integers; floating-point values are not modelled.

Not modelled at all:

- HTTP handlers, routes, settings, authentication, notification delivery, frontend: plumbing with easy members.
- D-Bus and systemd encodings, file descriptors, subprocess streaming: replaced by arbitrary observations.
- File locking, fsync, JSON encoding, byte caps and text patterns of ids.
- readelf output parsing, staging copies, Podman checks and dependency probing.
- The advisory results of detection passes and the retry rows they record.
