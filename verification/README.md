# Elderflow: verified models

Elderflow keeps the minutes of Meetings in end-to-end encrypted documents, plans Recurring Topics onto
Meeting agendas and rotates its keys in ceremonies of two operators. This project models the logic that has
to be right without anybody seeing the plaintext, and proves it. `dafny verify dfyconfig.toml` checks
everything.

## What is modelled

**Meeting documents.** `DocumentLog` and `DocumentTables` are the server's append-only log with its author
clocks, server sequences and snapshots; `DocumentHistory`, `DocumentRuns` and `DocumentContract` compare it with the
history of everything ever accepted. `DocumentSession` is the document in the browser and `SessionContract` what it reads
from an answer; `Replication`, `ReplicationRuns` and `ReplicationContents` put one server and many browsers together, with frames that are lost, repeated or
reordered, late refreshes and compactions. `CollaborationQueue`, `QueueContract`, `StopAndWait`, `DeliveryRuns`,
`DrainedClients` and `QueueProgress` are the one-in-flight queue of local edits against that server. A document is the set of operations applied to it.

**Barriers.** `CompactionBarriers` and `CompactionCoordinator` are the coordinator of compactions and
completions over connected clients. Every public method, every timeout, and the start and the end of the
sequence read are separate atomic steps, so a read of an earlier drain round can end in a later one.
`BarrierContract` says what each event does to each barrier. `BarrierRuns`, `BarrierSafety`, `CompletionQuiescence` and
`CompletionAgreement` follow every interleaving, and `CompletedEdits` puts coordinator, queues and completing transaction
together. `MeetingCompletion` and `CompletionContract` are the completing transaction and the finality of a completed Meeting; there the
coordinator may answer anything.

**Recurring Topics and agendas.** `CalendarDates`, `RecurrenceSchedule`, `RecurrencePlanner` and
`RecurrenceService` are the planner, `PlanContract` its plan read off the tables. `AgendaPositions`, `MeetingAgenda`,
`AgendaRuns`, `AgendaContract` and `AgendaStore` are the agenda with its positions. `Reconciliation` shows that a client executing a plan step by step is never
refused by a server that plans afresh before each step, and that nothing is left to do at the end.

**Key ceremonies.** `KeyCeremony` and `CeremonyService` are the transactions, `CeremonyContract` what each of them needs
and does, `CeremonyRuns` and `KeyHistory` what holds over all requests.

**Scalar padding.** `ScalarPadding` is the loop that fills a plaintext to a bucket size, over the byte string
headers of sections 3 and 4.2.1 of RFC 8949.

Where the program changes rows or fields step by step there is a class or a loop; its methods are proved
equal to functions on values, and the theorems are about those functions: what each operation needs and leaves is said
without its function by the modules named contract, what holds over all runs by the others. One transaction is one step.

## Assumptions

- Dates have four-digit years from 0100 to 9999, and appearances on equal dates come in some fixed order.
- Generated ids (rows, barriers, ceremonies, snapshots) are fresh, and each Meeting has one document.
- Envelopes are their headers and contents; digests do not collide. Authors are ordered as their ids are.
- A bootstrap answer is read at one moment. Snapshots are made in a coordinated compaction, and the browser that
  makes one has drained: between its refresh and the snapshot no acknowledgement of its own arrives, because it awaits
  none on its connection (`DrainedClients.DrainedAwaitsNothing`).
- In the browser a frame, an acknowledgement, an encryption and the end of a refresh are each one step: the promise chains
  `incoming` and `encryption` run one after the other (frontend/src/e2ee/meeting-collaboration.ts:94-97, 155-186).
- The queue results are about one client epoch and one active snapshot, with edits only through the queue.

## Findings

- Padding: a value of 65530 to 196594 or 262136 to 983026 bytes cannot be stored although a bucket is large enough: it
  needs more padding than getRandomValues of the Web Cryptography API gives at once (65536 bytes), and nobody passes
  another source (frontend/src/e2ee/scalar-session.ts:45). `ScalarPadding.StorableExactly` says exactly which values can
  be stored, `ScalarPadding.LargeValueFails` is an example.
- Padding: a value of 226, 760, 993, 3832, 4065, 16120, 16353, 65272, 65505, 196596, 196597, 261878, 262111,
  983028, 983029, 1048310 or 1048543 bytes cannot be stored either, because its room is a gap
  (`ScalarPadding.UnpaddableLengths`).
- Key ceremonies: a candidate whose list of historical wrappers names a key twice with different epochs is
  validated with the last epoch and stored with the first (`CeremonyRuns.RepeatedKeyLosesItsEpoch`). A candidate
  whose new Content Key is an older one is accepted too, and that key comes back with the new epoch
  (`CeremonyRuns.ReturningKeyLosesItsEpoch`). The epochs survive exactly without these two
  (`CeremonyRuns.EpochsKeptExactly`, over runs `KeyHistory.EpochsHeldExactly`). No key is lost in any case.
- Key ceremonies: the abort that the eligibility check saves before it throws (backend/src/e2ee/e2ee.service.ts:553-556)
  is rolled back with its transaction, so an ineligible operator does not end the ceremony
  (`CeremonyRuns.IneligibleChangesNothing`); what does is in `CeremonyRuns.AbortedExactly`.
- Completion: between the check that a socket is open and the start of its write there is a pause
  (backend/src/meetings/meeting-collaboration-relay.service.ts:186-190). An update of a connection that leaves in that
  pause may be in progress when the completion is finalized (`CompletionQuiescence.LateWriterBreaksQuiescence`). This
  happens exactly when the update begins while the others confirm (`CompletionQuiescence.QuiescentExactly`). The
  comparison of sequences at backend/src/meetings/meetings.service.ts:165 still keeps the completion right
  (`MeetingCompletion.CompletionIsFinal`).
- Completion: a read of an earlier drain round that ends late replaces the sequence and keeps the confirmations of the one
  before (backend/src/meetings/meeting-compaction-coordinator.ts:275-285), so the coordinator may finalize with
  confirmations of another sequence (`CompletionAgreement.LateReadOverwrites`, exactly when:
  `CompletionAgreement.AgreedExactly`). The completed Meeting holds the edits of every participant all the same
  (`CompletedEdits.CompletedHoldsEdits`).
- Documents: the acknowledgement of an own update and the frames of other updates are sent after separate lookups
  (backend/src/meetings/meeting-collaboration-relay.service.ts:186-212), so an acknowledgement can overtake a frame. The
  browser then takes over its sequence (frontend/src/e2ee/meeting-document-session.ts:469-473), drops the frame as a
  duplicate and lacks its operation until the next refresh (`ReplicationRuns.OvertakingAcknowledgementLosesFrame`).
  `ReplicationRuns.PrefixesExactly` says when this happens, `ReplicationRuns.RefreshHoldsPrefix` that a refresh repairs
  it, and `ReplicationRuns.NothingAcceptedIsLost` that the server and its snapshots lose nothing by it.

## Model

One row for the coordinator stands for all its methods: `Handle` runs each of them against its step.

| member | source | states |
|---|---|---|
| ScalarPadding.PaddedPlaintext | frontend/src/e2ee/scalar-codec.ts:162-183 | Padding succeeds with exactly the bucket length, within three attempts, if and only if a bucket fits, the room for the padding field is not 25, 258, 65539 or 65540 and the random source gives the bytes; in those four cases all eight attempts miss; no bucket means too large. The bytes decode to the very state and value and to the random bytes |
| ScalarPadding.StoreAndRead | frontend/src/e2ee/scalar-codec.ts:124-152 | Whatever text or null can be stored is read back as it was, empty text and null told apart |
| ScalarPadding.PlaintextLayout | frontend/src/e2ee/scalar-codec.ts:177-177 | The plaintext is a list of four, format and state in one byte each, then the byte strings of value and padding with their heads |
| ScalarPadding.HeadExactly | frontend/src/e2ee/scalar-codec.ts:177-177 | The head of a byte string is the shortest one and holds the length |
| ScalarPadding.BucketIsSmallest | frontend/src/e2ee/scalar-codec.ts:166-168 | The bucket is the smallest that holds the value with empty padding |
| ScalarPadding.GuessConverges | frontend/src/e2ee/scalar-codec.ts:170-181 | Outside the gaps one of the first three guesses is the only padding length that fills the room |
| ScalarPadding.GuessOscillates | frontend/src/e2ee/scalar-codec.ts:170-181 | In a gap no guess ever hits, and the guesses alternate between two lengths |
| ScalarPadding.RoomIsReachableUnlessGap | frontend/src/e2ee/scalar-codec.ts:167-172 | A padding length with the wanted encoded size exists if and only if the size is not a jump of the byte string header |
| ScalarPadding.UnpaddableLengths | frontend/src/e2ee/scalar-codec.ts:12-12 | A value fits a bucket if and only if it has at most 1048567 bytes; 17 named lengths among those leave a gap; of the others exactly 65530 to 196594 and 262136 to 983026 need more than 65536 bytes of padding |
| ScalarPadding.StorableExactly | frontend/src/e2ee/scalar-codec.ts:162-176 | With the browser as the random source exactly those values can be stored, and each other one fails in its own way |
| ScalarPadding.LargeValueFails | frontend/src/e2ee/scalar-codec.ts:165-165 | Witness: a value of 100000 bytes has a bucket and no gap, and fails at the random source |
| ScalarPadding.ScalarRoundTrip | frontend/src/e2ee/scalar-codec.ts:141-152 | Decoding an encoded scalar gives back state, value and padding |
| ScalarPadding.PaddedScalarDecodes | frontend/src/e2ee/scalar-codec.ts:141-152 | Every plaintext of a bucket length decodes to what it was made from |
| CalendarDates.OrderIsDayNumberOrder | backend/src/recurrence/recurrence.service.ts:95-112 | The order of dates is the order of their day numbers, so comparing the texts compares the days |
| CalendarDates.AddDaysCountsDays | backend/src/recurrence/recurrence.service.ts:26-29 | Adding days by the calendar adds that many to the day number |
| CalendarDates.AddIntervalIsLater | backend/src/recurrence/recurrence.service.ts:24-35 | A positive interval leads to a later valid date, month ends included |
| CalendarDates.AddIntervalExactly | backend/src/recurrence/recurrence.service.ts:24-35 | A week has seven days: n weeks lead 7 n days on. n months lead to the month n later, to the same day or to the last day of a shorter month |
| CalendarDates.DaysBeforeYearExactly | backend/src/recurrence/recurrence.service.ts:24-29 | A year has 366 days if and only if it is divisible by 4 and not by 100, or by 400 |
| CalendarDates.DaysBeforeMonthExactly | backend/src/recurrence/recurrence.service.ts:24-29 | Day numbers count the lengths of the months before |
| CalendarDates.AddIntervalIsMonotone | backend/src/recurrence/recurrence.service.ts:30-34 | A later start never leads to an earlier due date, although month ends are clamped |
| RecurrenceSchedule.GreedyStaysAhead | backend/src/recurrence/recurrence.service.ts:90-121 | Without preserved appearances the k-th chosen meeting exists and is no later than the k-th of any other valid choice, so a maximum number is scheduled |
| RecurrenceSchedule.ScheduleIsSound | backend/src/recurrence/recurrence.service.ts:90-121 | A meeting is chosen if and only if it is eligible and not before the due date after the previous occurrence, and a preserved one keeps the interval after a chosen one |
| RecurrenceSchedule.GreedySelects | backend/src/recurrence/recurrence.service.ts:105-120 | Chosen meetings are eligible and distinct |
| RecurrenceSchedule.ChoiceRespectsDueDate | backend/src/recurrence/recurrence.service.ts:105-120 | Membership in the choice is exactly eligibility at the due date in force |
| RecurrenceSchedule.PreservedKeepsDistance | backend/src/recurrence/recurrence.service.ts:106-118 | The look-ahead keeps the interval between a chosen meeting and the next preserved one |
| RecurrenceSchedule.DueAtIsLastOccurrence | backend/src/recurrence/recurrence.service.ts:91-120 | The due date in force is the interval after the last occurrence |
| RecurrenceSchedule.ConflictExactly | backend/src/recurrence/recurrence.service.ts:92-118 | For the one choice that follows the due dates: the planner reports a conflict if and only if some preserved appearance is before the due date after the previous occurrence, where that occurrence was chosen or the appearance is an automatic one in a planned meeting; otherwise it schedules exactly that choice |
| RecurrenceSchedule.OneChoice | backend/src/recurrence/recurrence.service.ts:90-121 | Only one choice of meetings follows the due dates |
| RecurrenceSchedule.ChoiceExists | backend/src/recurrence/recurrence.service.ts:90-121 | There is a choice that follows the due dates, conflict or not |
| RecurrenceService.ChooseMeetings | backend/src/recurrence/recurrence.service.ts:90-121 | The loop over the meetings computes the greedy schedule or its conflict |
| RecurrenceService.AssignSources | backend/src/recurrence/recurrence.service.ts:143-161 | The loop over the targets assigns each its own appearance if available and otherwise the first one |
| RecurrenceService.ComputePlan | backend/src/recurrence/recurrence.service.ts:52-162 | The service computes the plan that `PlanContract.PlanExactly` describes |
| RecurrenceService.AssignConserves | backend/src/recurrence/recurrence.service.ts:143-161 | Every available appearance is moved once or removed, and nothing is removed while a move lacks a source |
| RecurrenceService.AssignServesTargets | backend/src/recurrence/recurrence.service.ts:145-157 | Each unstable target gets exactly one move, in order, and stable ones none |
| RecurrenceService.PlanAccounts | backend/src/recurrence/recurrence.service.ts:75-161 | Each movable appearance is exactly one of kept, moved once or removed once, kept if and only if its meeting is a stable target; nothing else is |
| RecurrenceService.PlanIsSafe | backend/src/recurrence/recurrence.service.ts:75-161 | Moves lead only to planned, unskipped meetings without a manual or edited appearance, and nothing but automatic, unedited appearances in planned meetings is moved or removed |
| PlanContract.PlanExactly | backend/src/recurrence/recurrence.service.ts:52-162 | The whole plan from the tables: when it is refused and why; otherwise one move for each scheduled meeting where the topic is not in place, to position n + 1 or the default position if that is smaller, n being the rows of other topics in that section; each with its own appearance as the source or else the earliest one left; and the rest removed by date |
| PlanContract.TargetMeans | backend/src/recurrence/recurrence.service.ts:127-139 | A scheduled meeting has no move if and only if an automatic, unedited appearance of the topic already stands in the default section at that position |
| PlanContract.ScheduleExists | backend/src/recurrence/recurrence.service.ts:90-121 | Exactly one set of meetings is scheduled: planned, not skipped, without a fixed appearance, and not before the date due after the last one in which the topic takes place |
| PlanContract.SourcesExactly | backend/src/recurrence/recurrence.service.ts:143-161 | The pass over the targets gives each unstable one its own appearance, or else the earliest left that no other takes, and removes what is left |
| AgendaPositions.DenseUsesEveryPosition | backend/src/meetings/meetings.service.ts:637-646 | A dense section of n rows uses exactly the positions 1 to n |
| AgendaPositions.DeletedKeepsDense | backend/src/meetings/meetings.service.ts:796-808 | Deleting a row and renumbering its section keeps all sections dense and every other row in its order |
| AgendaPositions.InsertedKeepsDense | backend/src/meetings/meetings.service.ts:647-660 | Shifting and inserting keeps all sections dense and every other row in its order |
| AgendaPositions.ReorderedKeepsDense | backend/src/meetings/meetings.service.ts:686-709 | A valid reorder request leaves every section of every meeting dense |
| AgendaPositions.DenseRankIsPosition | backend/src/meetings/meetings.service.ts:801-806 | Renumbering a dense section changes nothing |
| MeetingAgenda.PlaceKeepsWellFormed | backend/src/meetings/meetings.service.ts:633-674 | A placement that succeeds keeps the table constraints and all other rows in order, and stores the requested row |
| AgendaRuns.AddKeepsWellFormed | backend/src/meetings/meetings.service.ts:545-684 | An addition with or without a source, manual or planned, keeps the agenda well formed and the order of the others |
| AgendaRuns.ReorderKeepsWellFormed | backend/src/meetings/meetings.service.ts:686-709 | A reorder puts each named row where asked, touches no other meeting and keeps the agenda well formed |
| AgendaRuns.StepKeepsWellFormed | backend/src/meetings/meetings.service.ts:545-808 | Any attempted change, refused or not, keeps the agenda well formed; insertion and removal keep the order of the other rows |
| AgendaRuns.RunsStayDense | backend/src/meetings/meetings.service.ts:545-808 | After any run of changes a section of n rows carries exactly the positions 1 to n |
| AgendaStore.Store.NormalizeSectionPositions | backend/src/meetings/meetings.service.ts:796-808 | The renumbering loop gives every row of the section its rank in query order |
| AgendaStore.Store.SectionIsDense | backend/src/meetings/meetings.service.ts:637-646 | The check before an insertion succeeds if and only if the positions are 1 to n |
| AgendaStore.Store.AddTopic | backend/src/meetings/meetings.service.ts:545-684 | Adds, moves or refuses as the transaction does; a refusal leaves all tables unchanged |
| AgendaStore.Store.PlaceRow | backend/src/meetings/meetings.service.ts:633-674 | Takes out the source, checks the section, shifts and inserts, or rolls back |
| AgendaStore.Store.RemoveTopic | backend/src/meetings/meetings.service.ts:752-767 | Removes, renumbers and remembers a skipped automatic appearance |
| AgendaStore.Store.RemoveReconciledTopic | backend/src/meetings/meetings.service.ts:769-794 | Removes only what a fresh plan removes |
| AgendaStore.Store.ReorderTopics | backend/src/meetings/meetings.service.ts:686-709 | Moves every row of the meeting as requested or refuses without effect |
| AgendaStore.Store.RestoreRecurrence | backend/src/meetings/meetings.service.ts:810-817 | Forgets a skipped appearance or refuses without effect |
| AgendaContract.RemovalExactly | backend/src/meetings/meetings.service.ts:752-767 | A removal by a user succeeds exactly for a row of a meeting that is not completed; the rows behind it move up by one; an automatic appearance is remembered as skipped, a manual one is not |
| AgendaContract.RemovedStaysOut | backend/src/meetings/meetings.service.ts:752-817 | Whatever users and reconciling clients do afterwards, an automatic appearance that a user has removed comes back to its meeting only after it was restored |
| AgendaContract.PlannedRemovalExactly | backend/src/meetings/meetings.service.ts:769-794 | A reconciling removal succeeds exactly for an automatic, unedited appearance that the plan of the moment removes, and nothing is remembered as skipped |
| AgendaContract.ManualAddExactly | backend/src/meetings/meetings.service.ts:545-684 | A manual addition succeeds exactly if meeting, topic, section and source permit it and its position is within the section, the end by default; source out, row in, a deferred topic open again, nothing else |
| AgendaContract.PlannedAddExactly | backend/src/meetings/meetings.service.ts:607-633 | A planned addition succeeds exactly if the plan of the moment, with the topic open, has a move for it, and puts the row where the plan wants it |
| AgendaContract.PlannedFits | backend/src/meetings/meetings.service.ts:633-656 | Every planned position is within its section, with or without the appearance that is moved |
| AgendaContract.ReorderExactly | backend/src/meetings/meetings.service.ts:686-709 | A reorder succeeds exactly if it names every row of the meeting once, in existing sections, each numbered from 1 without gap or repetition; it changes section and position and nothing else |
| AgendaContract.DeletedExactly | backend/src/meetings/meetings.service.ts:796-808 | Renumbering after a removal moves up exactly the rows behind it by one |
| AgendaContract.RestoringExactly | backend/src/meetings/meetings.service.ts:810-817 | Restoring succeeds exactly for a skipped appearance of a meeting that is not completed and only forgets the skip |
| Reconciliation.MoveStep | frontend/src/api/domain.ts:1363-1372 | The server accepts the first move of a plan, and its next plan is exactly the rest of the plan |
| Reconciliation.RemovalStep | frontend/src/api/domain.ts:1373-1378 | Without moves left the server accepts the first removal, and its next plan is exactly the other removals |
| Reconciliation.FirstMove | backend/src/recurrence/recurrence.service.ts:145-157 | Making the first unstable target stable drops exactly the first move from the plan |
| Reconciliation.TargetsAfterMove | backend/src/recurrence/recurrence.service.ts:127-139 | Executing a move turns its own target stable and leaves every other target as it was |
| Reconciliation.PositionFits | backend/src/meetings/meetings.service.ts:637-656 | The planned position lies within the target section once the source is gone |
| Reconciliation.MovePassesChecks | backend/src/meetings/meetings.service.ts:584-621 | The first move passes every check in front of the plan comparison |
| Reconciliation.RefsOfWithout | backend/src/recurrence/recurrence.service.ts:143-148 | Dropping one appearance drops exactly its entry from the ordered list |
| AgendaStore.ReconcileRecurringTopic | frontend/src/api/domain.ts:1359-1379 | The client loop over moves and removals is never refused and ends with an empty plan |
| CeremonyRuns.StepIsOrderly | backend/src/e2ee/e2ee.service.ts:207-499 | After any request at most one ceremony is open, no two led to the same generation, and the generation is one more than the number of activated ceremonies |
| CeremonyRuns.ActivationIsAuthorized | backend/src/e2ee/e2ee.service.ts:353-384 | A ceremony becomes activated only with two distinct eligible operators, both confirmed within thirty seconds, on request of one of their sessions, unexpired and at its expected generation |
| CeremonyRuns.ApprovalNamesTheCandidate | backend/src/e2ee/e2ee.service.ts:327-351 | A ceremony becomes ready only by another operator who names the digest of the very candidate it holds |
| CeremonyRuns.ConfirmationsAreOwn | backend/src/e2ee/e2ee.service.ts:476-499 | A confirmation time changes only to the time of a request of that very session or of the approval |
| CeremonyRuns.AbortedExactly | backend/src/e2ee/e2ee.service.ts:210-220 | Of all requests only an abort by a session taking part, or a new ceremony that passes its checks after expiry, aborts an open ceremony |
| CeremonyRuns.IneligibleChangesNothing | backend/src/e2ee/e2ee.service.ts:553-556 | In particular approval and activation with an operator no longer eligible leave all tables unchanged, the ceremony open |
| CeremonyService.KeyTables.AssertOperatorsEligible | backend/src/e2ee/e2ee.service.ts:537-557 | An ineligible operator aborts the ceremony in the tables of the transaction, which the failing request restores |
| CeremonyRuns.ActivatedIsFinal | backend/src/e2ee/e2ee.service.ts:353-361 | An activated ceremony never changes again and the generation never falls |
| CeremonyRuns.RepeatedActivation | backend/src/e2ee/e2ee.service.ts:357-360 | Asking again reports the same generation to a participant, refuses others and changes nothing |
| CeremonyRuns.SameGenerationSameKeys | backend/src/e2ee/e2ee.service.ts:379-395 | Nothing in the key state or among the wrappers changes while the generation stays |
| CeremonyContract.CandidateExactly | backend/src/e2ee/e2ee.service.ts:574-652 | A candidate is accepted if and only if its reason is one of its operation, slots and wrappers seal the keys they are listed for, it replaces the parts its operation is for and no others, a new Content Key takes the next epoch, and with a new Root Key the list names exactly the retained keys with their epochs |
| CeremonyContract.ActivationExactly | backend/src/e2ee/e2ee.service.ts:353-461 | An activation takes effect if and only if two eligible operators stand behind it, both confirmed within thirty seconds, one of their sessions asks in time and the generation is the expected one; it swaps in the candidate, counts the generation, records new custody copies and raises every session version |
| CeremonyContract.ActivationEndsSessions | backend/src/e2ee/e2ee.service.ts:431-431 | No operator who was eligible before an activation is eligible in the same session ever after, whatever requests follow |
| CeremonyContract.UsersExactly | backend/src/e2ee/e2ee.service.ts:431-431 | No other request of a ceremony changes a user |
| CeremonyContract.RowsExactly | backend/src/e2ee/e2ee.service.ts:400-421 | With a new key the rows of the new Root Key hold the wrapper of the candidate and the last listed wrapper of each retained key, and every other row stays |
| CeremonyContract.ApprovalExactly | backend/src/e2ee/e2ee.service.ts:327-351 | An approval takes effect if and only if another operator names the digest of a pending ceremony in time and its initiator is still eligible |
| CeremonyContract.PresenceExactly | backend/src/e2ee/e2ee.service.ts:476-499 | A confirmation counts for the session that gives it, while the ceremony is open and in time |
| CeremonyContract.AbortExactly | backend/src/e2ee/e2ee.service.ts:463-474 | An open ceremony is aborted by a session that takes part and by no other, and nothing else changes |
| CeremonyContract.StartExactly | backend/src/e2ee/e2ee.service.ts:261-325 | A rotation starts if and only if nothing unexpired is running and its candidate is acceptable for the current keys; it is then the only open ceremony, for half an hour, confirmed by its initiator alone |
| CeremonyContract.RecoveryExactly | backend/src/e2ee/e2ee.service.ts:207-259 | A recovery starts if and only if nothing unexpired is running and its slot seals the current Root Key; it keeps both keys and the recovery slot |
| CeremonyRuns.CandidatesKeepFitting | backend/src/e2ee/e2ee.service.ts:281-287 | A candidate validated at a generation is still valid for as long as that generation lasts |
| CeremonyRuns.ValidCandidate | backend/src/e2ee/e2ee.service.ts:574-652 | A valid candidate keeps both keys or changes the Root Key and rewraps exactly the retained keys |
| CeremonyRuns.UpsertedRows | backend/src/e2ee/e2ee.service.ts:400-421 | The inserts keep the epoch of existing rows and store the first listed epoch of new ones |
| CeremonyRuns.ActivationKeepsKeys | backend/src/e2ee/e2ee.service.ts:385-430 | Activation keeps every key of the wrapper set, soundly wrapped under the new Root Key |
| CeremonyRuns.EpochsKeptExactly | backend/src/e2ee/e2ee.service.ts:400-421 | All retained keys keep their epochs if and only if each key new to the Root Key is listed first with its validated epoch and the Content Key is kept or not among the retained keys |
| CeremonyRuns.EpochsStayInOrder | backend/src/e2ee/e2ee.service.ts:385-430 | With a Content Key that has no row yet and a list that stores what it validates, a key still has one epoch in all rows afterwards and the current key the greatest |
| CeremonyRuns.EpochsStayInOrderExactly | backend/src/e2ee/e2ee.service.ts:385-430 | Each key keeps its epoch, has one in all rows and the current key the greatest, if and only if the Content Key has no row yet (or is kept) and the list stores what it validates |
| CeremonyRuns.ReturningKeyLosesItsEpoch | backend/src/e2ee/e2ee.service.ts:574-652 | Witness, from the keys of the setup: two rotations are accepted, the second names the first Content Key again, and that key comes back with epoch 3 instead of 1 |
| CeremonyRuns.RepeatedKeyLosesItsEpoch | backend/src/e2ee/e2ee.service.ts:637-652 | Witness: a list naming a key twice is accepted and stores another epoch than the validated one |
| KeyHistory.StepKeepsKeys | backend/src/e2ee/e2ee.service.ts:385-430 | One request changes nothing about the keys or keeps every key of the wrapper set |
| KeyHistory.NoContentKeyIsLost | backend/src/e2ee/e2ee.service.ts:70-90 | Over every run each Content Key that was ever current stays in the wrapper set of the current Root Key, wrapped under it, and both slots open that Root Key |
| KeyHistory.StepKeepsEpochsExactly | backend/src/e2ee/e2ee.service.ts:385-430 | One request costs a key its epoch if and only if it activates a rotation whose Content Key already has a row or whose list stores another epoch than the validated one |
| KeyHistory.EpochsHeldExactly | backend/src/e2ee/e2ee.service.ts:385-430 | Throughout a run all epochs hold if and only if no such rotation is activated |
| KeyHistory.EpochsSurvive | backend/src/e2ee/e2ee.service.ts:70-90 | Over every run whose rotations name Content Keys without a row and list each key first with its validated epoch, each key keeps its epoch and the current one has the greatest |
| KeyHistory.GenerationsCountCeremonies | backend/src/e2ee/e2ee.service.ts:395-396 | From setup on the generation is one plus the number of activated ceremonies, numbered without repetition |
| KeyHistory.InstalledIsReachable | backend/src/setup/setup.service.ts:78-103 | The tables after setup satisfy the invariant |
| CeremonyService.KeyTables.ReleaseExpired | backend/src/e2ee/e2ee.service.ts:210-220 | An unexpired open ceremony blocks, an expired one is aborted |
| CeremonyService.KeyTables.ValidateCandidate | backend/src/e2ee/e2ee.service.ts:574-652 | The checks and loops of validation refuse exactly what the specification refuses |
| CeremonyService.KeyTables.StartRecovery | backend/src/e2ee/e2ee.service.ts:207-259 | Starts a passphrase recovery or refuses without effect |
| CeremonyService.KeyTables.StartKeyCeremony | backend/src/e2ee/e2ee.service.ts:261-325 | Starts a validated ceremony or refuses without effect |
| CeremonyService.KeyTables.ApproveRecovery | backend/src/e2ee/e2ee.service.ts:327-351 | Approves as a second operator with the same candidate or refuses without effect |
| CeremonyService.KeyTables.StoreWrappers | backend/src/e2ee/e2ee.service.ts:400-421 | The loop of inserts stores the current and all historical wrappers |
| CeremonyService.KeyTables.ActivateRecovery | backend/src/e2ee/e2ee.service.ts:353-461 | Swaps in the candidate, stores the wrappers, ends all sessions and reports the generation, or refuses without effect |
| CeremonyService.KeyTables.AbortRecovery | backend/src/e2ee/e2ee.service.ts:463-474 | A participant aborts an open ceremony; ended ones stay as they are |
| CeremonyService.KeyTables.ConfirmRecoveryPresence | backend/src/e2ee/e2ee.service.ts:476-499 | A participating session refreshes its own confirmation time |
| BarrierSafety.StepIsSound | backend/src/meetings/meeting-compaction-coordinator.ts:45-333 | Every event keeps drained and confirmed within participants, the phase conditions, the pending timeout and the uniqueness of ids |
| BarrierSafety.PhasesFollowTheProtocol | backend/src/meetings/meeting-compaction-coordinator.ts:86-123 | Phases change only as the protocol says; only a join before finalization returns to draining; a barrier that disappears is the one reported as released |
| BarrierSafety.ReleasedAtMostOnce | backend/src/meetings/meeting-compaction-coordinator.ts:320-332 | Over every run a barrier is released at most once and never comes back |
| BarrierSafety.RunsAreSound | backend/src/meetings/meeting-compaction-coordinator.ts:45-333 | Soundness and the writer counts hold in every reachable state |
| BarrierSafety.StepCountsWriters | backend/src/meetings/meeting-compaction-coordinator.ts:194-206 | The counters equal the writes of each meeting that have begun and not ended |
| BarrierSafety.WritesWaitForLockedBarriers | backend/src/meetings/meeting-compaction-coordinator.ts:186-200 | No write begins while a barrier of its meeting is finalizing or committing, and an external one leaves no barrier behind |
| BarrierRuns.JoinIsSound | backend/src/meetings/meeting-compaction-coordinator.ts:86-102 | A join restarts the drain round and keeps the barrier conditions |
| BarrierRuns.BeginExternalIsSound | backend/src/meetings/meeting-compaction-coordinator.ts:194-200 | An external write starts only in a meeting without a barrier |
| CompletionQuiescence.StartIsQuiet | backend/src/meetings/meeting-compaction-coordinator.ts:45-52 | The new coordinator satisfies everything the runs start from |
| CompletionQuiescence.QuiescentExactly | backend/src/meetings/meeting-compaction-coordinator.ts:186-307 | Throughout a run no completion with a fixed sequence has a write of its meeting in progress, if and only if no update of the run is late: by an author outside the barrier while its participants confirm |
| CompletionQuiescence.StepIsQuietExactly | backend/src/meetings/meeting-compaction-coordinator.ts:186-192 | One event breaks the quiescence if and only if it is a late update |
| CompletionQuiescence.CompletionIsQuiescent | backend/src/meetings/meeting-compaction-coordinator.ts:213-307 | If updates come from joined connections, a completion with a fixed sequence has no write of its meeting in progress, over every interleaving |
| CompletionQuiescence.LateWriteStarts | backend/src/meetings/meeting-compaction-coordinator.ts:186-206 | A late update does begin: the barrier stays, and its meeting has one more write in progress |
| CompletionQuiescence.WriteIsQuiet | backend/src/meetings/meeting-collaboration-relay.service.ts:186-198 | An update that is not late starts only where no completion has fixed its sequence |
| CompletionQuiescence.JoinedIsNotLate | backend/src/meetings/meeting-collaboration-relay.service.ts:186-198 | An update of a joined connection is never late |
| CompletionQuiescence.LateWriterBreaksQuiescence | backend/src/meetings/meeting-collaboration-relay.service.ts:136-198 | Witness, from the start: a client joins and leaves, its update begins while another confirms a completion, and is in progress when the completion is finalized |
| CompactionCoordinator.MeetingCompactionCoordinator.Handle | backend/src/meetings/meeting-compaction-coordinator.ts:45-333 | The methods that change the fields of the coordinator, together with its timeouts and the end of a read, do exactly the step of the state machine for every event |
| BarrierContract.StepGoesOn | backend/src/meetings/meeting-compaction-coordinator.ts:45-333 | Of every event and every barrier: whether it ends, and each of its fields afterwards, read off the event and its own fields; a committing completion is cancelled exactly by the disconnection of a participant, an abort, its user or a failing read |
| BarrierContract.StepBegins | backend/src/meetings/meeting-compaction-coordinator.ts:52-84 | A barrier begins only with a fitting request, and how |
| BarrierContract.ReleasedExactly | backend/src/meetings/meeting-compaction-coordinator.ts:320-332 | A release is reported exactly for a barrier that ends |
| BarrierContract.ClaimSurvivesExactly | backend/src/meetings/meeting-compaction-coordinator.ts:140-171 | The claim of a committing completion survives an event if and only if the event does not withdraw the barrier |
| BarrierContract.WithdrawnIsLost | backend/src/meetings/meeting-compaction-coordinator.ts:163-184 | Over every run, once a committing completion is withdrawn its claim never holds again |
| BarrierContract.WritesExactly | backend/src/meetings/meeting-compaction-coordinator.ts:186-206 | A write begins exactly when no barrier of its meeting is finalizing or committing, and is counted until it ends |
| BarrierContract.ConnectionsExactly | backend/src/meetings/meeting-compaction-coordinator.ts:86-102 | Clients are connected from their join to their disconnection |
| BarrierContract.ReadsExactly | backend/src/meetings/meeting-compaction-coordinator.ts:267-288 | Reads under way are started by the last drained report and end once |
| BarrierContract.RoundsExactly | backend/src/meetings/meeting-compaction-coordinator.ts:104-123 | When a report says that all have drained, and when the compactor may be called |
| BarrierContract.ClaimsExactly | backend/src/meetings/meeting-compaction-coordinator.ts:125-138 | A claim is granted to the compactor of a ready compaction, a submission to the user of a finalizing completion at its sequence |
| BarrierContract.AnswersExactly | backend/src/meetings/meeting-compaction-coordinator.ts:52-110 | What those who open, join and drain a barrier are told |
| BarrierContract.PermissionsExactly | backend/src/meetings/meeting-compaction-coordinator.ts:186-200 | Whether a write may begin, as the caller is told |
| CompactionCoordinator.MeetingCompactionCoordinator.HandleUpdate | backend/src/meetings/meeting-collaboration-relay.service.ts:187-198 | An update frame prepares the barrier and begins its write as one step |
| CompactionCoordinator.MeetingCompactionCoordinator.AssertClaim | backend/src/meetings/meeting-compaction-coordinator.ts:140-149 | The claim holds while the barrier is committing and not cancelled |
| CompactionCoordinator.SoundIsUnique | backend/src/meetings/meeting-compaction-coordinator.ts:45-60 | In every reachable state ids and meetings tell barriers apart, so a search by either finds one |
| CompletionAgreement.AgreedExactly | backend/src/meetings/meeting-compaction-coordinator.ts:246-287 | Throughout a run every counted confirmation names the sequence in force if and only if no read ends with another sequence after a confirmation of the same round |
| CompletionAgreement.StepAgreesExactly | backend/src/meetings/meeting-compaction-coordinator.ts:275-285 | One event breaks this if and only if it is such a read |
| CompletionAgreement.FinalizedAsConfirmed | backend/src/meetings/meeting-compaction-coordinator.ts:290-297 | Without such a read all participants of a finalized completion have confirmed the very sequence it completes with |
| CompletionAgreement.LateReadOverwrites | backend/src/meetings/meeting-compaction-coordinator.ts:275-285 | Witness, from the start: a client confirms the sequence of an earlier read, a later read replaces it, and the completion is finalized with both confirmations |
| CompletionAgreement.ConfirmedHasSent | backend/src/meetings/meeting-compaction-coordinator.ts:246-252 | Every participant that counts as confirmed has sent a confirmation for that very barrier |
| CompletedEdits.CompletedHoldsEdits | backend/src/meetings/meetings.service.ts:163-171 | When a Meeting is completed under a locked barrier, each participant has confirmed it, and every edit it had made by then is in the final history, but for those whose encryption failed |
| CompletedEdits.ConfirmedEditsStay | frontend/src/e2ee/meeting-collaboration.ts:309-316 | Every edit a client had made when it confirmed is in the history from then on, but for those whose encryption failed |
| CompletionContract.CompletionExactly | backend/src/meetings/meetings.service.ts:86-178 | A completion succeeds if and only if its claim holds, the Meeting is in progress, the user may, proofs and mentions are valid, there is one snapshot for each appearance, and the submitted sequence is the current one; it completes the Meeting, carries out the decisions on its topics and changes nothing else |
| CompletionContract.CompletionErrorExactly | backend/src/meetings/meetings.service.ts:86-178 | Which error a completion that does not succeed ends with |
| CompletionContract.StepsTakeEffect | backend/src/meetings/meeting-mutation-boundary.ts:6-22 | Until then updates, snapshots, agenda changes and status changes do take effect |
| CompletionContract.WithdrawnCompletionFails | backend/src/meetings/meetings.service.ts:163-171 | After a participant of a committing completion has disconnected, its user has cancelled or its barrier was aborted, no completion under that barrier is carried out, whatever happens later |
| DocumentHistory.AppendByHistory | backend/src/meetings/meeting-document.service.ts:137-175 | Accepted exactly for the next clock of the author, duplicate exactly for its last stored update, otherwise reuse, replay or gap, each exactly characterised by the history |
| DocumentHistory.BaseClock | backend/src/meetings/meeting-document.service.ts:149-169 | The latest stored or else covered clock is the number of updates the author ever had accepted |
| DocumentHistory.ClocksIncrease | backend/src/meetings/meeting-document.service.ts:168-175 | Later accepted updates of an author have larger clocks |
| DocumentRuns.StepKeepsShape | backend/src/meetings/meeting-document.service.ts:92-279 | Appends, retries and compactions keep the stored log equal to the tail of the history |
| DocumentRuns.ServerClocksCount | backend/src/meetings/meeting-document.service.ts:242-248 | Folding stored clocks into the covered ones counts the whole history |
| DocumentRuns.CompactionKeepsShape | backend/src/meetings/meeting-document.service.ts:249-278 | An accepted snapshot covers exactly what the log said |
| DocumentRuns.LogIsConsecutive | backend/src/meetings/meeting-document.service.ts:137-190 | In every reachable state sequences run from covered plus one to current, clocks continue the covered ones, all refer to the active snapshot and all clocks add up to the sequence |
| DocumentRuns.AtMostOnce | backend/src/meetings/meeting-document.service.ts:128-190 | Over any run a pair of author and clock has at most one sequence that never changes, and larger clocks have larger sequences |
| DocumentRuns.UsedClockIsHarmless | backend/src/meetings/meeting-document.service.ts:151-168 | An envelope with a used clock changes nothing, whatever its content |
| DocumentContract.AppendExactly | backend/src/meetings/meeting-document.service.ts:92-191 | An update is accepted if and only if user, epoch and Meeting permit it, it is made for this document, snapshot and Content Key, and its clock is one more than the number of updates of its author; it is stored at the next sequence, and nothing else changes |
| DocumentContract.RefusalExactly | backend/src/meetings/meeting-document.service.ts:92-175 | Which error a refused update gets, and when it is a duplicate |
| DocumentContract.DuplicateExactly | backend/src/meetings/meeting-document.service.ts:151-160 | A duplicate is answered with the sequence the update was accepted at |
| DocumentContract.CompactExactly | backend/src/meetings/meeting-document.service.ts:203-279 | A snapshot is accepted if and only if it is permitted, continues the active snapshot, covers everything accepted and counts it by author; it takes the place of the log |
| DocumentContract.NotCompactedExactly | backend/src/meetings/meeting-document.service.ts:203-257 | Which error a refused snapshot gets |
| DocumentContract.CreateExactly | backend/src/meetings/meeting-document.service.ts:34-90 | A document is created if and only if its first snapshot covers nothing and is permitted |
| DocumentContract.HistoryIsPermitted | backend/src/meetings/meeting-document.service.ts:24-32 | Over every run whatever enters the history was sent by a content user in a writable epoch under the Content Key of its envelope |
| DocumentRuns.CreatedIsShaped | backend/src/meetings/meeting-document.service.ts:34-90 | A created document starts with an empty log |
| DocumentTables.Tables.CreateInitial | backend/src/meetings/meeting-document.service.ts:34-90 | Creates document and first snapshot or refuses |
| DocumentTables.Tables.AppendUpdate | backend/src/meetings/meeting-document.service.ts:92-191 | Stores the update, recognises a duplicate or refuses without effect |
| DocumentTables.Tables.FindUpdate | backend/src/meetings/meeting-document.service.ts:137-143 | Finds the stored update of author and clock |
| DocumentTables.Tables.LatestClock | backend/src/meetings/meeting-document.service.ts:144-147 | Finds the greatest stored clock of an author |
| DocumentTables.Tables.ExpectedClocks | backend/src/meetings/meeting-document.service.ts:241-249 | The fold and sort give the ordered list of the server clocks |
| DocumentTables.Tables.Compact | backend/src/meetings/meeting-document.service.ts:203-279 | Replaces log and snapshots by a snapshot that continues them exactly, or refuses without effect |
| DocumentTables.OneList | backend/src/meetings/meeting-document.service.ts:255-256 | Two ordered clock lists with the same clocks are equal, so comparing the texts compares the clocks |
| MeetingCompletion.CompletionIsFinal | backend/src/meetings/meetings.service.ts:163-171 | A completion that succeeds found the meeting in progress at the submitted sequence with every claim held, and makes it final without touching log or rows |
| MeetingCompletion.StepKeepsFinal | backend/src/meetings/meeting-mutation-boundary.ts:6-22 | One step of anyone leaves a final meeting final with the same document and appearances |
| MeetingCompletion.CompletedIsFinal | backend/src/meetings/meetings.service.ts:91-178 | Over every run, whatever the coordinator answers, the completed sequence stays equal to the current one and no append, compaction or agenda change takes effect |
| MeetingCompletion.ChangeElsewhere | backend/src/meetings/meeting-mutation-boundary.ts:16-22 | An agenda change that succeeds elsewhere leaves the rows of a completed meeting alone |
| MeetingCompletion.CompletionTables.Complete | backend/src/meetings/meetings.service.ts:86-189 | Completes as one transaction or leaves everything as it was |
| DocumentSession.LoadedDocument.LoadWorkspace | frontend/src/e2ee/meeting-document-session.ts:144-201 | Opens snapshot and updates afresh and reads all clocks, or keeps what was loaded before |
| DocumentSession.LoadedDocument.ReadClocks | frontend/src/e2ee/meeting-document-session.ts:626-637 | The loop over the updates builds the clock map of a workspace |
| DocumentSession.LoadedDocument.MergeWorkspace | frontend/src/e2ee/meeting-document-session.ts:203-253 | Applies a changed parent and the updates, then takes over sequence and clocks; an exception keeps what was applied |
| DocumentSession.LoadedDocument.ApplyRemoteUpdate | frontend/src/e2ee/meeting-document-session.ts:432-463 | Ignores old frames, reports gaps and applies the next frame |
| DocumentSession.LoadedDocument.AcknowledgeUpdate | frontend/src/e2ee/meeting-document-session.ts:469-473 | Takes clock and sequence of the acknowledgement as they are |
| DocumentSession.LoadedDocument.CreatePendingUpdate | frontend/src/e2ee/meeting-document-session.ts:364-405 | Encrypts under the next own clock |
| DocumentSession.LoadedDocument.CreateCompaction | frontend/src/e2ee/meeting-document-session.ts:475-517 | Makes a snapshot with the ordered clock list at the recorded sequence, or fails at another expected one |
| Replication.AcknowledgementIsExact | frontend/src/e2ee/meeting-document-session.ts:469-473 | After an acknowledgement the clocks still count the history if and only if all updates between the recorded and the acknowledged sequence are the own author's |
| Replication.FrameKeepsClocks | frontend/src/e2ee/meeting-document-session.ts:432-463 | A frame is applied only at its turn and keeps the clocks exact |
| Replication.WorkspaceClocksCount | frontend/src/e2ee/meeting-document-session.ts:626-637 | The clocks read from a workspace equal the server's fold |
| Replication.ClientCompactionContinues | frontend/src/e2ee/meeting-document-codec.ts:408-411 | A browser that is up to date with exact clocks makes a snapshot that passes the server's comparison |
| Replication.MergeHoldsPrefix | frontend/src/e2ee/meeting-document-session.ts:203-253 | A refresh, late or across a compaction, leaves all operations up to the recorded sequence in the document, whatever was missing before |
| Replication.AcknowledgementHoldsPrefixExactly | frontend/src/e2ee/meeting-document-session.ts:469-473 | After an acknowledgement the browser holds all operations up to its sequence if and only if it already holds those between the recorded and the acknowledged one |
| Replication.LoadHoldsPrefix | frontend/src/e2ee/meeting-document-session.ts:144-201 | Opening a document gives all operations, exact clocks and the own clock the server expects next |
| SessionContract.LoadExactly | frontend/src/e2ee/meeting-document-session.ts:144-201 | A document opens if and only if its snapshot and every update open; it holds their operations and no others and knows the last clock of each author |
| SessionContract.MergeExactly | frontend/src/e2ee/meeting-document-session.ts:203-253 | When a refresh goes through, and every field of the session afterwards; the own clock never falls |
| SessionContract.FailedMergeExactly | frontend/src/e2ee/meeting-document-session.ts:203-253 | What a refresh that fails leaves: the updates in front of the first unreadable one |
| SessionContract.CompactionIsAccepted | frontend/src/e2ee/meeting-document-session.ts:475-517 | A permitted browser that is up to date with exact clocks makes a snapshot that passes every check of the server |
| SessionContract.CanonicalIsLoaded | frontend/src/e2ee/meeting-document-session.ts:255-299 | The state read for a barrier is what a browser that opens the document now gets |
| Replication.BootstrapIsWhole | backend/src/meetings/meeting-document.service.ts:281-331 | A bootstrap answer contains the whole stored log |
| ReplicationRuns.CreatedIsFaithful | backend/src/meetings/meeting-document.service.ts:34-90 | A created document without browsers satisfies everything the runs start from |
| ReplicationRuns.StepIsFaithful | frontend/src/e2ee/meeting-document-session.ts:203-253 | Every step of server and browsers keeps snapshots complete, answers genuine, sessions within the server and the stable state of a compaction whole |
| ReplicationRuns.AcceptedIsAcceptable | backend/src/meetings/meeting-document.service.ts:120-136 | What the service stores carries a positive clock and can be opened by browsers with the active snapshot |
| ReplicationRuns.ReplaceKeepsOperations | frontend/src/e2ee/meeting-collaboration.ts:492-513 | A snapshot made by a session of its stable state, which is a refresh with the update frames since, contains every operation accepted so far |
| ReplicationRuns.BrowsersHoldTheirPrefix | frontend/src/e2ee/meeting-document-session.ts:432-473 | If acknowledgements pass over no operation a browser lacks, every browser holds all operations whose sequence is at most its recorded one, in every reachable state |
| ReplicationRuns.PrefixesExactly | frontend/src/e2ee/meeting-document-session.ts:432-473 | Throughout a run every browser holds its prefix if and only if no acknowledgement passes over an operation its browser lacks |
| ReplicationRuns.StepHoldsPrefixExactly | frontend/src/e2ee/meeting-document-session.ts:469-473 | One step makes a browser miss an operation below its sequence if and only if it is such an acknowledgement |
| ReplicationRuns.OrderedIsInTurn | frontend/src/e2ee/meeting-document-session.ts:469-473 | Acknowledgements that do not run ahead of the recorded sequence pass over nothing |
| ReplicationRuns.RefreshHoldsPrefix | frontend/src/e2ee/meeting-document-session.ts:203-253 | A refresh makes up for whatever a browser has missed |
| ReplicationRuns.OvertakingAcknowledgementLosesFrame | backend/src/meetings/meeting-collaboration-relay.service.ts:186-212 | Witness, from a created document: the acknowledgement of sequence 2 comes before the frame of sequence 1, which is then dropped as a duplicate |
| ReplicationRuns.LackingIsOutOfTurn | frontend/src/e2ee/meeting-document-session.ts:469-473 | A browser that lacks an operation below its sequence got there by an acknowledgement out of turn |
| ReplicationRuns.NothingAcceptedIsLost | backend/src/meetings/meeting-document.service.ts:203-331 | Whatever was ever accepted is in what a browser opening the document now gets, compactions or not and in whatever order acknowledgements came |
| ReplicationContents.OpenedIsExact | backend/src/meetings/meeting-document.service.ts:203-331 | After any run a browser that opens the document gets what the first snapshot held and what was accepted since, no more and no less, compactions or not |
| ReplicationContents.StepIsExact | frontend/src/e2ee/meeting-collaboration.ts:492-513 | Every snapshot holds exactly what was accepted up to the sequence it covers; the state it is made of holds no edit the server has not accepted |
| ReplicationContents.BrowsersHoldNothingElse | frontend/src/e2ee/meeting-document-session.ts:432-463 | In every reachable state a browser holds nothing but the first snapshot, what was accepted and its own edits |
| ReplicationContents.CreatedIsExact | backend/src/meetings/meeting-document.service.ts:34-90 | A created document satisfies what these runs start from |
| ReplicationRuns.StepKeepsClocksExactly | frontend/src/e2ee/meeting-document-session.ts:460-472 | One step spoils a clock map if and only if it is an acknowledgement with an update of somebody else in between |
| ReplicationRuns.IncrementalClocksAgree | frontend/src/e2ee/meeting-document-session.ts:460-472 | Over every run with acknowledgements in sequence order each browser's clocks count the history |
| ReplicationRuns.UpToDateCompactionIsAccepted | backend/src/meetings/meeting-document.service.ts:249-257 | Over such runs an up to date browser's snapshot continues the server's document |
| CollaborationQueue.CollaborationProvider.SendHead | frontend/src/e2ee/meeting-collaboration.ts:379-390 | Sends the head of the queue when nothing is unacknowledged |
| CollaborationQueue.CollaborationProvider.AcknowledgeBarrierWhenDrained | frontend/src/e2ee/meeting-collaboration.ts:481-490 | Reports drained once nothing is queued, sent, being encrypted or refreshed |
| CollaborationQueue.CollaborationProvider.OnLocalUpdate | frontend/src/e2ee/meeting-collaboration.ts:141-153 | Keeps an edit back under a barrier and queues it otherwise |
| CollaborationQueue.CollaborationProvider.OnEncrypted | frontend/src/e2ee/meeting-collaboration.ts:155-186 | Moves an encrypted edit to the queue, or keeps it back when a compaction barrier came first |
| CollaborationQueue.CollaborationProvider.OnEncryptionFailed | frontend/src/e2ee/meeting-collaboration.ts:173-185 | Gives up an edit that cannot be encrypted |
| CollaborationQueue.CollaborationProvider.OnAcknowledged | frontend/src/e2ee/meeting-collaboration.ts:243-258 | Drops the acknowledged update, sends the next and asks for a compaction at every hundredth sequence |
| CollaborationQueue.CollaborationProvider.OnUpdate | frontend/src/e2ee/meeting-collaboration.ts:260-282 | Applies a frame to the document and its copy; a gap fails the barrier or starts a refresh |
| CollaborationQueue.CollaborationProvider.OnClosed | frontend/src/e2ee/meeting-collaboration.ts:392-400 | Forgets what was sent |
| CollaborationQueue.CollaborationProvider.OnBarrier | frontend/src/e2ee/meeting-collaboration.ts:469-479 | Takes the first barrier announced and copies the document |
| CollaborationQueue.CollaborationProvider.OnReleased | frontend/src/e2ee/meeting-collaboration.ts:520-535 | Drops the barrier and queues the kept back edits again |
| CollaborationQueue.CollaborationProvider.OnAuthenticated | frontend/src/e2ee/meeting-collaboration.ts:226-232 | Leaves a barrier the server no longer has and resumes sending |
| CollaborationQueue.CollaborationProvider.OnRefreshEnds | frontend/src/e2ee/meeting-collaboration.ts:413-443 | Merges the answer, which becomes the copy under a barrier, or closes the connection |
| CollaborationQueue.CollaborationProvider.OnCompletionSequence | frontend/src/e2ee/meeting-collaboration.ts:309-311 | A drained client refreshes before it confirms |
| CollaborationQueue.CollaborationProvider.ConfirmSequence | frontend/src/e2ee/meeting-collaboration.ts:312-316 | Confirms the sequence only without pending changes, without a refresh under way and at that sequence |
| CollaborationQueue.CollaborationProvider.Destroy | frontend/src/e2ee/meeting-collaboration.ts:105-117 | Gives up everything not acknowledged |
| StopAndWait.SentUpdatesAreRecognised | backend/src/meetings/meeting-document.service.ts:151-175 | Of all updates ever sent the server accepts only the head, recognises it as the latest duplicate afterwards and calls older ones replays; none is a gap or a reused counter |
| StopAndWait.HeadIsNextOrLatest | frontend/src/e2ee/meeting-collaboration.ts:379-390 | The clock of the queue head is the server's latest clock of the epoch or the next one |
| StopAndWait.QueueStep | frontend/src/e2ee/meeting-collaboration.ts:379-400 | Any step that keeps the queue and sends at most its head stays in step with the server |
| StopAndWait.StepConserves | frontend/src/e2ee/meeting-collaboration.ts:141-186 | No step loses or repeats an edit: it is waiting, kept back, created or dropped |
| DeliveryRuns.OpenedIsInStep | frontend/src/e2ee/meeting-document-session.ts:144-201 | A document just opened with an empty queue satisfies the invariant and conserves its edits |
| DeliveryRuns.EncryptStep | frontend/src/e2ee/meeting-document-session.ts:364-405 | A newly encrypted edit continues the created clocks |
| DeliveryRuns.AcknowledgedInStep | frontend/src/e2ee/meeting-collaboration.ts:243-258 | An acknowledgement, late or repeated, removes the head or nothing |
| DeliveryRuns.HandleStep | backend/src/meetings/meeting-document.service.ts:151-190 | The server's handling of any sent update keeps its part a prefix of the created edits |
| DeliveryRuns.RunsStayInStep | frontend/src/e2ee/meeting-collaboration.ts:155-186 | Through any loss, delay, repetition, reordering and reconnect server and queue overlap in at most the head |
| DeliveryRuns.EditsGetOneSequence | backend/src/meetings/meeting-document.service.ts:176-190 | Every acknowledged edit has exactly one server sequence, after those of all edits created before it |
| DeliveryRuns.DrainedIsSettled | frontend/src/e2ee/meeting-collaboration.ts:481-490 | A client that has reported itself drained has no created edit the server lacks |
| DrainedClients.DrainedAwaitsNothing | frontend/src/e2ee/meeting-collaboration.ts:481-490 | After any run a client that has reported itself drained awaits no answer on its connection |
| DrainedClients.FramesAreTheWire | frontend/src/e2ee/meeting-collaboration.ts:379-390 | The frames of a step are what it adds to everything ever sent |
| DrainedClients.StepAwaitsSent | frontend/src/e2ee/meeting-collaboration.ts:379-400 | An update sent on the connection and not answered there is one the provider remembers as sent |
| QueueProgress.RunSendsHead | frontend/src/e2ee/meeting-collaboration.ts:379-390 | In every reachable state a connected client with a queue has sent exactly its head, and that update is on the wire |
| QueueProgress.StepSendsHead | frontend/src/e2ee/meeting-collaboration.ts:379-400 | A step after which an update is remembered as newly sent has the frame of the head among its frames |
| QueueProgress.QueueEmpties | frontend/src/e2ee/meeting-collaboration.ts:243-258 | From every reachable state with a connection, a Meeting in progress and the right to write, there is a legal run in which the server handles what is sent and its answers arrive, after which the queue is empty and the server has every created edit |
| QueueProgress.RunIsUnderWay | frontend/src/e2ee/meeting-collaboration.ts:141-186 | The conditions of that progress hold in every reachable state |
| QueueProgress.EveryEditArrives | frontend/src/e2ee/meeting-collaboration.ts:141-186 | Without a barrier there is a legal run after which the server has every edit ever made exactly once, but for those dropped before |
| QueueProgress.BarrierDrains | frontend/src/e2ee/meeting-collaboration.ts:481-490 | Under a barrier a connected client has a legal run to its drained report, unless it keeps edits back from a completion |
| QueueProgress.OpenedSends | frontend/src/e2ee/meeting-document-session.ts:144-201 | A document just opened satisfies what these runs start from |
| QueueContract.FrameExactly | frontend/src/e2ee/meeting-collaboration.ts:260-283 | The next frame reaches the document and its copy, an old one changes nothing, and a gap starts a refresh, or fails the barrier of a connected client |
| QueueContract.GapIsRepaired | frontend/src/e2ee/meeting-collaboration.ts:260-283 | A frame that leaves a gap starts a refresh, and a genuine answer from after it gives the session the operation of that frame and all before it |
| QueueContract.ReportsInTime | frontend/src/e2ee/meeting-collaboration.ts:481-490 | After an encryption, its failure or an acknowledgement a connected client under a barrier has reported if nothing is outstanding |
| QueueContract.RefreshExactly | frontend/src/e2ee/meeting-collaboration.ts:413-443 | What a refresh leaves in the session and in the copy for a barrier; one that cannot be read ends the connection |
| QueueContract.OnlineExactly | frontend/src/e2ee/meeting-collaboration.ts:226-236 | A barrier the server does not know is left on authentication, and what was kept back waits for encryption again |
| QueueContract.RequestExactly | frontend/src/e2ee/meeting-collaboration.ts:255-257 | A compaction is asked for exactly at a multiple of a hundred, without a barrier, once |
| QueueContract.EncryptionExactly | frontend/src/e2ee/meeting-collaboration.ts:155-186 | An encrypted edit stands at the end of the queue under the next clock of its author, readable, for the loaded document and snapshot; under a compaction barrier that came first it is kept back |
| QueueContract.ReportExactly | frontend/src/e2ee/meeting-collaboration.ts:481-490 | The drained report goes out exactly when a connected client under a barrier has nothing outstanding and has not reported |
| QueueContract.ConfirmationExactly | frontend/src/e2ee/meeting-collaboration.ts:309-316 | The sequence of a completion is confirmed exactly by a connected client that stands at it, with nothing outstanding or kept back |
| QueueContract.BarrierEndsExactly | frontend/src/e2ee/meeting-collaboration.ts:515-535 | The end of its barrier puts what was kept back behind what waits for encryption and allows another request |
| DeliveryRuns.ConfirmedIsSettled | frontend/src/e2ee/meeting-collaboration.ts:309-316 | A client that confirms the sequence of a completion is at that sequence and has every edit on the server but those whose encryption failed |
| DeliveryRuns.OnlyFailuresDrop | frontend/src/e2ee/meeting-collaboration.ts:105-117 | Only a failed encryption or the disposal of the provider drops an edit |
| DeliveryRuns.NoEditIsLost | frontend/src/e2ee/meeting-collaboration.ts:515-535 | Over every run each edit is waiting, kept back, created or dropped, once; a drained client has every edit that is not kept back or dropped on the server exactly once |

## Left out

- Encryption, signatures, hashing, nonces and base64url: envelopes carry flags for being readable and authentic; which of
  several simultaneous envelope errors is reported first is simplified.
- AgendaStore.Store.AddTopic: without the replay of a retried mutation id and without the document update stored with the topic.
- MeetingCompletion.CompletionTables.Complete: the checks of proofs and mentions are flags of the submission, and the name
  snapshots of appearances are not stored.
- CeremonyService.KeyTables.ActivateRecovery: without retention and writability of wrappers, audit events and the revocation of
  client epochs.
- CollaborationQueue.CollaborationProvider.OnReleased: the refresh that precedes it after a compaction is a step of its own.
- CollaborationQueue.CollaborationProvider.OnAuthenticated: likewise the refresh in front of it; agenda events are left out.
- CollaborationQueue.CollaborationProvider.OnRefreshEnds: without the rebase of pending updates after a changed parent, where
  the scope of the queue results ends.
- DocumentSession.LoadedDocument.MergeWorkspace: every stored update is readable with the keys of the session.
- Row columns that no result needs: timestamps, planned durations, titles, participants; the deletion of Meetings.
- A single organization owns all keys. The clock is read once for a request.
- Concurrent ceremony transactions: each request is one step; the advisory lock and row locks are not modelled.
- The relay's rooms, heartbeat, awareness and rejection codes; the client's status display.
- `rebasePending` and the recovery with a fresh client epoch, and HTTP appends next to the live queue.
- The provider's answer to rejected frames and its retry of a refused compaction request.
- Convergence across several Recurring Topics that share a section: the program makes no such promise.
- Liveness: `QueueProgress` says that the queue can always be emptied, not that the network delivers.
- CeremonyContract.ActivationEndsSessions: assumes that the administration never lowers a session version, which it only
  raises (backend/src/users/users.service.ts:45, 89).
- User, task and section administration, dashboards, topic history, tours, translations and all views.
