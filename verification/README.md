# Verified model of the agent's evidence ledger, task runtime and memory pipeline

Two services share the work of this repository. The *agent* keeps a ledger of evidence (revisioned events,
tombstones, a table of what depends on what), and runs tasks that call tools, wait for subagents, remember, notify
and remind, all citing that evidence. The *memory service* turns camera frames and speech into durable notes and
sends what it learns to the agent through a transactional outbox. The model follows their code, table by table and
step by step. Code that updates tables in place is a class whose methods do the same updates; each is proved equal to
a function of the old tables, and the properties are proved about those functions. Protocols with awaits are state
machines: every stretch of code between two awaits is one step, and the properties hold over every run of steps,
including crashes and restarts.

| module | what it covers |
|---|---|
| `Evidence`, `Cascade`, `LedgerOps` | the tables; reachability through derived evidence; what each operation does to the tables |
| `Store` | the evidence store as a class, with the recursive deletion cascade |
| `LedgerEffects` | what each operation of the ledger writes, row by row, said without the functions that compute it |
| `LedgerSafety`, `LedgerRuns` | the ledger invariant, and exactly which steps of a run break it, crashes between statements included |
| `Derivations` | which steps close a derivation cycle; without one every deletion ends |
| `LedgerFindings` | the exact effect of a deletion, and runs to states that the design does not intend |
| `TaskLog`, `TaskRun` | a task's message log and compaction; the run loop with receipts, steering, crashes and recovery |
| `TaskResults` | where the results in a task's log come from, over every run; what becomes of steering messages |
| `Family`, `Budget` | waiting parents and completion messages; the turn and token budget shared by a family |
| `Intake`, `Outbox` | the receiving end and the sending end of the outbox, and the protocol between them |
| `RequestEffects` | what a request deletes and stores, said on its items; how many rows a request carries |
| `Export` | hourly transcript files and their version stamps |
| `Reminders` | reminders, the tasks they wake, firings that stop part way, group cancellation and settling |
| `ReminderEffects` | what firing, cancelling and settling do to each reminder, task and wake |
| `Pipeline`, `Window` | ordered batch commits with rejection of stale results; the window of words a frame hears |
| `Batch`, `Acceptance` | entity resolution of a batch; exactly which batches are accepted, said on their input |
| `Identity`, `Verdicts` | the gate for claims that two objects are the same; exactly when it gives which verdict, said on its input |
| `Clock`, `Resampler` | clock mapping with error bounds and overlap verdicts; block-wise resampling |
| `Sorting` | a stable sort, shared by `Export`, `Window`, `Pipeline`, `Identity` and `Clock` |

Names that differ from the source: a reminder's states pending, queued, cancelled and failed are `Armed`, `Fired`,
`Dropped` and `Rejected` in `Cascade` (where a task status has the same words); times are integers in the ledger and
reals elsewhere.

## Where the code does less than its design says

For each of these the exact condition is proved, and a run of the model, or an input, in which it happens is given.

- A tool result recorded again (a restart repeats a call that is safe to repeat) gets new derivation links. If the
  task meanwhile cites something derived from that result, this closes a derivation cycle; deleting anything on the
  cycle then recurses without end and the deletion fails. Over every run, cycles appear exactly when an event stored
  before is derived from its own consequence (`Derivations.DerivationsStayCycleFree`); otherwise every deletion ends
  (`Derivations.CascadesEnd`). `LedgerFindings.UndeletableEvidenceIsReachable` is a run of seven operations that ends
  with evidence that cannot be deleted.
- A task cites a stale revision if a client stored an event under the id of its tool result at another revision
  (`LedgerRuns.RecordingKeepsStanding`, `LedgerFindings.StaleCitationIsReachable`).
- `forget`, `notify` and `createTask` are several statements outside a transaction. A crash before the last statement
  of a forget leaves the document of the forgotten memory in the full-text table, and forgetting again does not find
  it (`LedgerRuns.LeftDocument`, `LedgerFindings.DocumentIsLeft`). A crash between a notification and its dependencies
  leaves it pending when what it cites is deleted (`LedgerFindings.UnrecordedOutlives`,
  `LedgerFindings.NotificationOutlives`).
- A provider that reuses a call id breaks the pairing of calls and results (`TaskLog.ResponseKeepsPairing`,
  `TaskLog.DuplicateIdsBreakPairing`), and overwrites the finished receipt of a tool that is safe to repeat when the
  new call does not match (`TaskRun.ReusedIdOverwrites`, `TaskRun.OverwriteRun`). Unsafe tools still act at most once,
  and their receipts stay (`TaskRun.UnsafeReceiptIsFinal`).
- The completion message of a child and the wake-up of its parent are two statements. A crash between them, for the
  last child that the parent waits for, leaves the parent waiting until its deadline (`Family.NoWakeUpIsLost`,
  `Family.LostWakeUpExample`).
- A delivery pass looks only at the newest hundred tasks: it wakes a parent exactly when these hold a finished child
  it was not told of (`Family.PassWakesExactly`, `Family.HundredNewerTasks`).
- One outbox row of 800000 bytes or more is never sent, nor is any row behind it (`Outbox.OversizedRowIsNeverPassed`,
  `Outbox.OversizedRowRun`). An event that was deleted at the agent blocks the outbox in the same way, when the answer
  to its first delivery was lost or when a later revision of it is written (`Outbox.BlockedForGood`,
  `Outbox.LostAnswerBlocks`, `Outbox.LaterRevisionBlocks`).
- A reminder sent back to pending, because another of its group was cancelled, is closed as soon as it fires again,
  by the old cancelled wake (`Reminders.SentBackReminderIsClosed`, `Reminders.SentBackReminderRun`).
- The event that wakes a group of reminders may be longer than an event may be; the firing then ends with an error
  before reminders are settled, and no later group fires (`Reminders.FiringStopsAtRefusal`). From such a
  state a cancellation can leave a pending reminder with an active wake, exactly when it cancels an old wake shared
  with a reminder that was woken again (`Reminders.FailsExactlyAtHarmfulCancel`, `Reminders.RefusedEventRun`). Crashes
  alone do no harm: a restart settles what they left.
- The reported clock uncertainty leaves out the drift during the round trip (`Clock.MappedCaptureIsSoundExactly`,
  `Clock.DriftOnTheWayIsMissed`; `Clock.RoundTripMargin` is the bound that is always sound).
- A batch can give a new gallery person the entity of something else, exactly when the context or an earlier proposal
  holds the person's id (`Batch.ResolutionIsSound`, `Batch.ClashIsAccepted`), and a person first met in a batch can
  appear in only one of its rows (`Batch.NewPersonInOneRow`, `Batch.NewPersonTwiceIsRejected`).

## Model

| member | source | states |
|---|---|---|
| LedgerRuns.EveryRunIsSafe | agent/src/store.ts:174-367 | over every run of ingests, deletions, remembering, forgetting, task creation, citing, tool results, notifications, reminders, cancellation and maintenance, whatever is refused and wherever a crash cuts an operation: in every state every active memory, pending notification, open reminder and active task cites only the newest, final, undeleted revision of each event, the two full-text tables are exact views, and each memory key has at most one active version, the newest; this holds if and only if no step made an active task cite a stale revision and no crash cut off the end of a forget or the dependencies of a notification |
| LedgerSafety.CascadeRestores | agent/src/store.ts:267-295 | whatever changed about a set of events, withdrawing their dependents leaves nothing in standing that cites them |
| LedgerSafety.IngestSafe | agent/src/store.ts:183-248 | storing a revision, late, partial or superseding, keeps the whole invariant |
| LedgerSafety.DeleteSafe | agent/src/store.ts:296-367 | so does deleting an event with everything derived from it |
| LedgerRuns.StepSafe | agent/src/store.ts:522-829 | every single operation keeps that invariant or is exactly one of those that break it |
| LedgerRuns.RecordingKeepsStanding | agent/src/tools.ts:544-553 | citing a tool result keeps all standing if and only if the cited revision is current or nobody active is left to cite it |
| LedgerRuns.LeftDocument | agent/src/store.ts:573-599 | the document that a crash left of a forgotten memory survives forgetting it again, and goes with the next version of its key |
| LedgerRuns.CutNotifyBreaks | agent/src/store.ts:808-829 | a notification cut short keeps the invariant if and only if it existed before or each of its dependencies is recorded |
| LedgerRuns.RememberSafe | agent/src/store.ts:522-572 | a new memory version retires the one before it, in the table and in the full-text view, and keeps the whole invariant |
| LedgerEffects.RememberWrites | agent/src/store.ts:522-572 | after remembering, exactly one version of the key is active; it says the given text and references and is listed; unless the newest version was active and said the same before, it is the one new row, its version follows all others of the key, and besides the retired versions, their documents and the new dependencies nothing changes |
| LedgerEffects.ForgetIsExact | agent/src/store.ts:573-599 | forgetting an active memory whose sources are current blanks every version of its key with their documents, cancels exactly the active tasks of the families that cite one of its sources, and changes nothing else; otherwise it does nothing |
| LedgerEffects.BindIsExact | agent/src/tools.ts:83-87 | citing succeeds if and only if every reference is current, and then records exactly these for the task and its root |
| LedgerEffects.CreateTaskIsExact | agent/src/store.ts:679-708 | a task is created if and only if all its references are current and its id is new: queued, in the family of its parent, and with every reference recorded for it and its root |
| LedgerEffects.NotifyIsExact | agent/src/store.ts:809-829 | a notification is written once, pending, with exactly its dependencies recorded, if and only if every reference is current |
| LedgerEffects.LinksAreExact | agent/src/tools.ts:544-553 | a recorded tool result is linked to exactly what its task cites other than itself, and cited by the task and its root |
| LedgerEffects.CreateReminderIsExact | agent/src/reminders.ts:70-117 | a reminder of a known id is left as it is, and refused to another owner; a new one is created if and only if its references are current and its receipt is accepted, with exactly its dependencies and those of the receipt |
| LedgerEffects.CancelIsExact | agent/src/store.ts:759-771 | cancelling a task cancels what is active of it and, if it is a root, of its family, withdraws their notifications, and changes nothing else |
| LedgerEffects.MaintainIsExact | agent/src/store.ts:643-678 | maintenance drops exactly the deleted rows and the finished tasks it was given, with their dependencies, notifications and attachments |
| LedgerRuns.MaintainSafe | agent/src/store.ts:643-678 | dropping deleted rows and finished tasks changes no standing |
| LedgerFindings.DeletionIsExact | agent/src/store.ts:296-367 | a deletion kills exactly the event and what live derivations reach from it, with their documents; blanks every memory, reminder, notification and task family that depends on any of them; cancels the active tasks of such families, withdraws their notifications and drops their receipts, messages, schedules and checkpoints; and leaves every other row of every table as it was |
| LedgerEffects.SupersedingIsExact | agent/src/store.ts:225-295 | a revision that becomes the newest withdraws exactly the memories, reminders, notifications and task families that depend on the event or on what was derived from it, blanks exactly those that depend on what was derived, deletes what was derived and nothing else, and lists the event by its new text if it is final |
| LedgerEffects.IngestDecides | agent/src/store.ts:183-224 | a revision is refused if and only if its event was deleted, the revision exists with other content, it is new and changes the identity of the newest, or it becomes the newest and its cascade would not end; one that exists already changes nothing; a late one is only stored |
| LedgerEffects.CurrentMeans | agent/src/store.ts:166-182 | a reference is current if and only if the row with the highest revision of its event is the one named, final and not deleted |
| LedgerEffects.EdgeMeans | agent/src/store.ts:288-293 | one event is derived from another if and only if such a dependency is recorded under their owner and the newest revision of the derived one is not deleted |
| Store.CascadeEndsExactlyWithoutCycle | agent/src/store.ts:267-307 | the mutual recursion needs no more depth than there are events below its start, or exhausts every stack; it ends if and only if no derivation cycle can be entered |
| Store.Ledger.Invalidate | agent/src/store.ts:267-295 | the loop over dependency rows, with its nested deletions, has the effect of one closed-form step on the set of events reachable through live derivations, in whatever order rows come |
| Store.Ledger.DeleteEvidence | agent/src/store.ts:296-367 | likewise for the deletion around it; a deletion that runs out of stack leaves all tables as they were and starts a walk longer than the stack |
| Store.Ledger.Ingest | agent/src/store.ts:183-248 | accepts, ignores or refuses a revision exactly as specified, and rolls back a failed cascade |
| Store.Ledger.Remember | agent/src/store.ts:522-572 | writes over the newest version of the key found by search, as `LedgerEffects.RememberWrites` says on the rows |
| Store.Ledger.Forget | agent/src/store.ts:573-599 | removes every version of the key and cancels the families that retrieved its sources |
| Store.Ledger.CreateReminder | agent/src/reminders.ts:55-117 | a reminder, its dependencies and its citable receipt are created together or not at all; a refusal is one of the specification or a walk longer than the stack |
| Store.Ledger.RecordEvidence | agent/src/tools.ts:520-555 | a tool result becomes evidence derived from all the task cites, and cited by the task and its root; a refusal is one of the specification or a walk longer than the stack |
| Cascade.Compose | agent/src/store.ts:267-367 | two rounds of the cascade are one round on the unions, so neither order nor repetition of rows matters |
| Cascade.BelowIsLeast | agent/src/store.ts:292-293 | what the recursion deletes is the least set that holds the direct derivations and is closed under live derivation |
| Cascade.WalkBound | agent/src/store.ts:292-293 | without a cycle no chain of derivations is longer than the number of events below its start |
| Cascade.CycleWalks | agent/src/store.ts:292-293 | from an event that leads to a cycle chains of every length start |
| Derivations.RepeatedResultClosesCycle | agent/src/tools.ts:520-555 | repeating the record of a tool result keeps derivations free of cycles if and only if the task does not cite a consequence of that result |
| Derivations.DerivationsStayCycleFree | agent/src/tools.ts:520-555 | over every run no state has a derivation cycle, if and only if no operation derived an event that was stored before from its own consequence: what is stored and derived for the first time never closes one |
| Derivations.CascadesEnd | agent/src/store.ts:267-307 | in such a run every deletion ends within as many nested calls as there are events below, and nothing but a conflict refuses a revision |
| Derivations.FirstHasNoConsequence | agent/src/reminders.ts:98-114 | nothing was ever derived from an event that is stored for the first time, so its derivations close no cycle |
| LedgerFindings.UndeletableEvidenceIsReachable | agent/src/tools.ts:544-553 | a run of seven operations ends with live evidence whose deletion cannot end |
| LedgerFindings.StaleCitationIsReachable | agent/src/tools.ts:544-553 | a run of four operations, the second an ingest under the id of a tool result, ends with a task that cites a stale revision |
| LedgerFindings.UnrecordedOutlives | agent/src/store.ts:808-829 | a notification whose dependencies were not written stays pending when what it cites is deleted, if and only if the family of its task is not cancelled with it |
| TaskLog.BalancedIsPaired | agent/src/harness.ts:614-676 | in a log that reads in order every tool call has exactly one result in the whole log, after it and before the next assistant message |
| TaskLog.PendingIsOpen | agent/src/harness.ts:616-621 | the calls found pending from the last assistant message are exactly the calls still open when the log is read from its start |
| TaskLog.ResponseKeepsPairing | agent/src/harness.ts:614-724 | a response, with its calls then executed in order, leaves the log paired if and only if its call ids are distinct and none was answered before |
| TaskLog.CompactionKeepsOrder | agent/src/task-context.ts:45-91 | replacing the middle of a balanced log by a summary leaves it balanced and paired |
| TaskLog.OutputsFollowCalls | agent/src/openai.ts:13-35 | every function output sent to the provider comes after the function call it answers |
| TaskRun.UnsafeEffectsHappenOnce | agent/src/tools.ts:564-597 | over every run, with any crashes, restarts, steering, cancellations and any reuse of ids by the provider, an unsafe tool acts at most once per call id |
| TaskRun.RequestsArePaired | agent/src/harness.ts:607-724 | at every model request of every run whose responses use distinct ids that the log has no result for (ids that compaction dropped may come back), the log is paired and outputs follow calls: across skipping, yielding part way, restarts and compaction |
| TaskResults.ResultsAreGiven | agent/src/harness.ts:622-674 | over every run, whatever the provider answers and wherever it is cut: each result in the log was appended by a step that skipped the call for new messages, before it was begun, and then says so; or was saved for the call, and is what an earlier step gave that call, cut to its longest length: what its execution returned or threw, why it was refused, or what its finished receipt says |
| TaskResults.SavedIsReceipt | agent/src/harness.ts:661-674 | in every run the result saved for a call that has a receipt is what the receipt says, and the receipt is finished |
| TaskResults.LogAgreesWithReceipts | agent/src/harness.ts:614-676 | in every run whose responses leave the log in order, the result in the log of a call whose receipt is finished is what the receipt says, in every state in which the task is active |
| TaskResults.SteeringIsHeard | agent/src/store.ts:772-792 | a message that steers a task stays in its inbox, through crashes and restarts, until it is appended to the log or goes with a purge |
| TaskResults.LookTakesMessages | agent/src/harness.ts:614-684 | the top of the loop finds open calls and leaves the messages, or appends all of them in order and turns to the model |
| TaskResults.CompactionKeepsLastTurn | agent/src/task-context.ts:45-91 | compaction keeps the instructions, the task and everything from the last assistant message on, and one summary for the rest |
| TaskResults.RecoveryIsExact | agent/src/store.ts:867-887 | a restart leaves a task active if and only if it was, is not overdue and no unsafe tool was cut off; it is then queued, or waits as before; otherwise it is cancelled if overdue and else failed |
| TaskResults.ResponsesAreTaken | agent/src/harness.ts:712-724 | a response is dropped if messages came meanwhile; else it is appended, and the task goes on, or ends without a result if there are no calls |
| TaskRun.DoneReceiptIsFinalExactly | agent/src/tools.ts:569-577 | over every run, with any reuse of ids, a finished receipt keeps its result until the task has ended and is purged, if and only if no later call with its id names another tool or other arguments of a tool that is safe to repeat |
| TaskRun.UnsafeReceiptIsFinal | agent/src/tools.ts:569-577 | the finished receipt of an unsafe tool keeps its result in every run |
| TaskRun.DoneReceiptIsFinal | agent/src/tools.ts:569-577 | with ids never used before, every finished receipt keeps its result |
| TaskRun.DoneKept | agent/src/tools.ts:569-577 | and an execution of that call returns the stored result instead of acting |
| TaskRun.ReusedIdOverwrites | agent/src/harness.ts:655-667 | a finished receipt survives the next call with its id if and only if its tool was unsafe or the call names the same tool and arguments |
| TaskRun.Runner.ExecuteNext | agent/src/harness.ts:622-667 | a finished receipt is never executed again and answers the call it was written for; an unsafe call that was begun and not finished ends the task; what is executed is the call at the head, with its unfinished receipt written before; at most one result is appended, of a call skipped for new messages |
| TaskRun.Runner.LookForWork | agent/src/harness.ts:614-683 | the top of the loop finds the open calls, or drains all messages in order into the log |
| TaskRun.FindPending | agent/src/harness.ts:616-621 | the backward search and filter return the calls without a result |
| Family.NoWakeUpIsLost | agent/src/harness.ts:535-551 | over every interleaving of creation, completion, waiting, messages, cancellation and delivery passes that may stop part way or crash: every waiting parent has an active child or a finished one it was not told of, if and only if no crash fell between the message and the wake-up for the last such child of a waiting parent |
| Family.PassWakesExactly | agent/src/harness.ts:535-551 | a pass makes a waiting parent runnable if and only if its list holds a finished child the parent was not told of |
| Family.PassIsExact | agent/src/harness.ts:535-551 | a pass records the message of exactly the finished children in its list whose parent is active, whether it waits or not, queues exactly the waiting parents that were not told of one, and changes nothing else |
| Family.FullPassLeavesActiveChild | agent/src/store.ts:732-737 | a pass over all tasks makes runnable every waiting parent without an active child |
| Family.CrashLosesWakeUp | agent/src/store.ts:772-782 | a crash between recording a completion and waking the parent keeps a reason to wake up if and only if another child is active or untold |
| Family.LostWakeUpExample | agent/src/store.ts:772-782 | a run of six steps after which no pass wakes the parent |
| Family.HundredNewerTasks | agent/src/store.ts:732-737 | a run that creates a hundred tasks after a child finished: the pass over these leaves its parent waiting |
| Family.Scheduler.WaitForChildren | agent/src/tools.ts:205-221 | the tool makes its task wait exactly when some child is active |
| Budget.FamilyStaysWithinBudget | agent/src/harness.ts:592-606 | over every interleaving of a parent and its children: at most three turns over the limit, and tokens over it by less than one response and two compactions, or three compactions, whichever is more |
| Budget.BoundIsReached | agent/src/task-context.ts:79-89 | a run that reaches both bounds at once, for all limits under which the turns suffice to spend the tokens |
| Intake.HandleApplies | agent/src/server.ts:146-179 | an accepted request applies each of its items, loses nothing stored but to a tombstone, and leaves no evidence that names a removed person |
| RequestEffects.ClearedIsExact | agent/src/server.ts:149-156 | a request deletes exactly the events it invalidates and what derives from them, then those that still name a person it forgets and what derives from these |
| RequestEffects.EventsInOrder | agent/src/server.ts:157-176 | the events of a request are stored in its order, each over what the ones before left, and the first refusal ends it |
| Intake.RefusedExactly | agent/src/server.ts:146-179 | a request, new or repeated, is refused if and only if a deletion it asks for meets a derivation cycle, or one of its events that names nobody removed was deleted, conflicts, changes identity or meets a cycle at its turn |
| Intake.HandleKeeps | agent/src/server.ts:146-179 | an accepted request keeps the whole ledger invariant and the freedom from derivation cycles |
| Intake.HandleAgain | agent/src/server.ts:146-179 | a request applied before is refused if and only if a deletion it repeats meets a derivation cycle or one of its events was deleted since; otherwise live evidence is unchanged if and only if none of it derives from what the request invalidates |
| Intake.DeleteOneMore | agent/src/server.ts:150-156 | deleting events one after the other deletes what lies below any of them at the start: the order does not matter |
| Intake.AcyclicOneMore | agent/src/server.ts:150-156 | nor does it matter for whether the deletions end |
| Intake.ForgetOneMore | agent/src/server.ts:151-156 | forgetting people one by one deletes what forgetting them together does |
| Intake.Receiver.Accept | agent/src/server.ts:146-179 | the nested loops of the handler have the effect of the whole request, or none; a refusal is one of the specification or a walk longer than the stack |
| Outbox.OutboxIsFaithful | memory/src/agent-bridge.ts:122-140 | however requests are lost, repeated, delayed past a retry or cut by a restart: the rows applied are a prefix of the outbox, the rows marked delivered a prefix of those, what every applied row asked for still holds, and no evidence names a removed person |
| Outbox.RepeatedArrival | memory/src/agent-bridge.ts:122-140 | a committed request that arrives again, in any later state of any run, is refused, or changes live evidence, under exactly the conditions of `Intake.HandleAgain` |
| Outbox.BlockedForGood | agent/src/store.ts:189-191 | once the first undelivered row is an event deleted at the agent, nothing more is applied or delivered whatever is written, sent or done, unless one of the next 32 rows forgets somebody that event names |
| Outbox.LostAnswerBlocks | memory/src/agent-bridge.ts:122-140 | a run of five steps to such a state: the event was delivered, then deleted, and the answer lost |
| Outbox.LaterRevisionBlocks | memory/src/agent-bridge.ts:122-140 | a run of six steps to such a state: a later revision of a deleted event was written |
| Outbox.BatchIsPrefix | memory/src/agent-bridge.ts:124-129 | a request carries the first undelivered rows without a gap |
| RequestEffects.BatchIsLongest | memory/src/agent-bridge.ts:124-129 | a request carries as many rows as it may: the next m go with it if and only if there are so many, they are at most 32, and together they stay below the size limit |
| Outbox.BlockedExactlyByAnOversizedRow | memory/src/agent-bridge.ts:127-129 | nothing can be sent although rows wait if and only if the first of them alone reaches the size limit |
| Outbox.OversizedRowIsNeverPassed | memory/src/agent-bridge.ts:127-129 | in every state of every run neither such a row nor any row behind it is applied or delivered |
| Outbox.Bridge.Gather | memory/src/agent-bridge.ts:124-129 | selecting 32 rows and dropping by running total yields that batch |
| Export.StampedFilesAreExact | agent/src/transcripts.ts:31-77 | over every run of a new installation, with ingests and deletions during a write and crashes before the stamp: an hour stamped with its version has a file with exactly its undeleted transcript revisions |
| Export.LinesAre | agent/src/transcripts.ts:41-46 | a file holds the undeleted transcript revisions received in its hour, each once per row, by receipt time, id and revision |
| Export.DrainedIsComplete | agent/src/transcripts.ts:33-40 | in every state after the first start in which nothing is behind, every undeleted transcript is in the file of its hour |
| Export.ChangeTracked | agent/src/store.ts:298-303 | an ingest, a deletion, a cleanup or a start-up leaves the rows of an hour alone or raises its version |
| Export.Archive.DeleteEvent | agent/src/store.ts:296-306 | every undeleted transcript revision of the event raises the version of its hour |
| Export.Archive.SelectNext | agent/src/transcripts.ts:33-40 | takes the earliest hour before the bound that is behind, and finds none only if there is none |
| Reminders.NeverTwoActiveWakes | agent/src/reminders.ts:165-254 | over every run of creation, firing, group cancellation, task changes, invalidation, settling and pruning, with crashes anywhere in a firing and restarts, in which no wake event is refused: no reminder has two active wake tasks, and a pending one has none |
| Reminders.FailsExactlyAtHarmfulCancel | agent/src/reminders.ts:137-164 | whatever wake events are refused for their length: every state is as wanted if and only if no cancellation ended a wake shared with another reminder that was meanwhile woken again without the cancelled one |
| Reminders.FiringStopsAtRefusal | agent/src/reminders.ts:210-254 | a group of a firing gets its task if and only if neither its own event nor that of a group before it is too long |
| Reminders.RefusedEventRun | agent/src/contracts.ts:23 | a run to a pending reminder with an active wake: its last step but one is a firing whose second event, of sixteen reminders of two thousand characters, is refused |
| Reminders.ReconcileIs | agent/src/reminders.ts:270-301 | settling closes exactly the queued reminders that have a wake, however old, whose task is over, each in the state in which the task of the last such wake ended |
| ReminderEffects.SettlingIsExact | agent/src/reminders.ts:270-301 | a queued reminder is closed by the last of its wakes whose task is over: failed if the result was rejected, delivered if it notified, and else as the task ended; nothing else changes |
| ReminderEffects.FiringIsExact | agent/src/reminders.ts:210-254 | firing gives each group its task, queued, queues its reminders and adds exactly their wakes, and leaves every other task and reminder as it was |
| ReminderEffects.CancellingIsExact | agent/src/reminders.ts:137-164 | cancelling a reminder cancels the active tasks of its wakes, sends back exactly the queued reminders that share one of these, and changes nothing else |
| Reminders.SentBackReminderIsClosed | agent/src/reminders.ts:244-254 | a pending reminder that fires stays queued if and only if it never had a wake |
| Reminders.Table.FireDue | agent/src/reminders.ts:165-254 | the loop over groups fires until an event is refused, and settles only if none is |
| Reminders.Table.CancelReminder | agent/src/reminders.ts:137-164 | cancels the wakes of a reminder and sends their other reminders back to pending |
| Pipeline.CommitsAreFresh | memory/src/pipeline.ts:251-300 | whenever any run commits: the batch was, when chosen, a ready prefix of one session of the pending captures in source order; no correction of final speech was saved and nobody was forgotten since; and the final transcripts in each packet, with the words they hold, are those in the window of its capture at the commit, as they were in the window when chosen |
| Pipeline.CommitsExactly | memory/src/pipeline.ts:269-281 | an answer commits its reduction if and only if it is valid, no correction or removal came since the reduction began, and every packet still holds the final speech of its capture's window |
| Pipeline.AnswerIsExact | memory/src/pipeline.ts:269-299 | each capture of a reduction is committed, ready again, to be tried singly or failed, exactly by that; the versions of its packets are recorded if it commits; no other capture changes |
| Pipeline.BatchIsLongest | memory/src/pipeline.ts:184-193 | a batch has m captures or more if and only if batches are taken, m is within the limit, and the first m captures are batchable and those after the first ready and of its session |
| Pipeline.FinalsReopen | memory/src/store.ts:356-385 | saved final speech leaves none of the captures found to depend on it interpreted or failed, and changes no other |
| Pipeline.BeginResumes | memory/src/pipeline.ts:44-51 | a start has the work that a stop or crash cut off done again, and only that |
| Pipeline.OneReductionInFlight | memory/src/pipeline.ts:184-206 | at most one reduction is in flight, and the set of captures being reduced is empty exactly when none is |
| Pipeline.JobsWereChosen | memory/src/pipeline.ts:184-206 | every reduction in flight was chosen at an earlier step of the same process |
| Pipeline.QueueInOrder | memory/src/store.ts:337-340 | the queue is all pending captures, by capture time, sequence and id |
| Pipeline.MemoryPipeline.StartReduction | memory/src/pipeline.ts:184-206 | the pump extends a batch as far as it may and starts its reduction |
| Pipeline.MemoryPipeline.Finish | memory/src/pipeline.ts:251-300 | a stale answer sends its captures back, a fresh valid one is committed |
| Window.ArrivalDoesNotMatter | memory/src/transcripts.ts:4-34 | two histories with the same newest revisions give the same window, whatever the order of arrival and whatever was superseded |
| Window.ReorderingKeepsNewest | memory/src/transcripts.ts:8-12 | reordering a history keeps its newest revisions |
| Window.WindowIsTheLastWords | memory/src/transcripts.ts:13-24 | the window has as many of the last words by spoken time as asked for, or all; each is a word in time of the newest revision of its segment; every eligible word left out comes before every one selected; the groups hold as many words |
| Window.GroupsPartition | memory/src/transcripts.ts:25-34 | one group for each transcript with selected words, with exactly those words in order, and no other group |
| Window.GroupsInOrder | memory/src/transcripts.ts:25-34 | the groups stand in the order in which their transcripts are first heard |
| Window.GroupsSpan | memory/src/transcripts.ts:25-31 | each group reaches from the start of its first word to the latest end of its words |
| Window.SignatureIs | memory/src/transcripts.ts:36-41 | a group contributes its key and words to the signature if and only if its transcript is final, in the order of the groups |
| Window.SignaturesAgree | memory/src/transcripts.ts:36-41 | two windows have equal signatures if and only if their final groups agree in key and words, one by one |
| Window.TokensAre | memory/src/transcripts.ts:14-15 | the words of a text are its longest stretches without white space, in order |
| Window.SpreadTiles | memory/src/transcripts.ts:14-17 | words without times of their own follow each other without a gap, all of one length, from the start to the end of their segment |
| Window.BuildWindow | memory/src/transcripts.ts:4-34 | the loops over revisions, words and groups build that window |
| Batch.ResolutionIsSound | memory/src/interpreter.ts:451-499 | in an accepted batch every reference resolves to an entity; a row preserves the kind and person of its references if and only if it names no new person whose id the context holds or an earlier proposal introduced as a temporary id; then distinct references name distinct entities |
| Batch.ClashFreeExactly | memory/src/interpreter.ts:479-496 | that condition on the batch is exactly that no id is taken when the validator names a new person |
| Batch.ReuseGoesBack | memory/src/interpreter.ts:466-479 | a reuse names the entity of an earlier row, which is never a person of the gallery |
| Batch.NewPersonInOneRow | memory/src/interpreter.ts:401-406 | a person named in two rows of an accepted batch was in the context before it, unless its id was taken when it was first named |
| Batch.ClashIsAccepted | memory/src/interpreter.ts:482-494 | an accepted batch of one row that gives a person the entity of a thing |
| Acceptance.AcceptedExactly | memory/src/interpreter.ts:372-495 | a batch is accepted if and only if, on context, packets and updates alone: there is one row per packet, and in each the packet and its version match; references are distinct; each reuse is for an own proposal without identity, once, and leads to an earlier entity of its kind that is no gallery person; each named entity is the context's and described as there; each named person is one, confirmed by the camera or met before, and if met before named by its entity; no two proposals claim one identity or person; and no temporary id is taken |
| Acceptance.AcceptedResolves | memory/src/interpreter.ts:482-495 | in an accepted batch every reference resolves to the id its proposal names, reuses or introduces, and that to the entity the context or the first proposal to give the id describes |
| Acceptance.NobodyIsInvented | memory/src/interpreter.ts:386-408 | in an accepted batch whoever is named is a person that the camera confirmed for this very packet or the context holds |
| Batch.ValidateBatch | memory/src/interpreter.ts:451-499 | the loops over rows, reuses and proposals accept and resolve as specified |
| Batch.CheckDelta | memory/src/interpreter.ts:389-408 | one pass with two sets decides that no id and no person is used twice and each proposal fits |
| Identity.ReevaluationIsStable | memory/src/object-identity.ts:55-182 | evaluating the claim an evaluation returned gives the same verdict and returns the same claim |
| Identity.OrderDoesNotMatter | memory/src/object-identity.ts:55-182 | the outcome, errors included, does not depend on the order of the stored anchors |
| Identity.ForeignAnchorsNeverSupport | memory/src/object-identity.ts:162-180 | if a claim is supported among added anchors of other entities, it is supported without them, by the same anchors |
| Identity.FindCompetitor | memory/src/object-identity.ts:162-177 | collecting signatures per entity finds a rival if and only if some other entity shows every cited detail |
| Identity.EvaluateMatch | memory/src/object-identity.ts:55-182 | the gate with its loops over quotes, citations and rivals decides as specified |
| Verdicts.SupportedExactly | memory/src/object-identity.ts:94-182 | a claim is supported if and only if it names a candidate, each of its quotes has one place, its match is not only possible and declares no conflict or competitor, every citation names exactly one active anchor, which is the candidate's and from an earlier frame, some distinctive one is backed by a current anchor that says the same, some pair is more than configuration on both sides, and no other entity shows everything that was backed |
| Verdicts.CandidateExactly | memory/src/object-identity.ts:155-180 | whatever is neither refused, new nor supported stays a candidate, for the first of the reasons that holds; the claim comes back with every quote in its place and the ids of exactly the anchors that back it |
| Verdicts.RejectedExactly | memory/src/object-identity.ts:55-153 | the gate refuses exactly anchors that share an id, a claim with a quote that has no one place, a match without candidate, and a match with a citation that names neither such an anchor nor exactly one earlier, unsettled and sound sighting |
| Verdicts.NewExactly | memory/src/object-identity.ts:70-102 | an object is new if and only if no candidate is named and the claim, if any, resolves and makes no match |
| Verdicts.ResolvesExactly | memory/src/object-identity.ts:79-93 | a claim resolves to the one claim that has every quote where its index says or else in the only source that has it, and not at all if there is none |
| Verdicts.NormalizeKeepsWords | memory/src/object-identity.ts:51-51 | normalizing white space keeps every word and is done once and for all |
| Clock.MappedCaptureIsSoundExactly | agent/src/temporal.ts:21-81 | with nonnegative transit, whole-millisecond server stamps and bounded drift: the reported uncertainty of a capture holds for everything that may have happened in the tightest exchange if and only if the drift since its request was sent exceeds the drift over the reported age by no more than the source error |
| Clock.RoundTripMargin | agent/src/temporal.ts:52-81 | adding the drift over the round trip makes the bound sound for every capture time |
| Clock.DriftOnTheWayIsMissed | agent/src/temporal.ts:52-81 | numbers for which the reported bound misses the truth |
| Clock.BestSample | agent/src/temporal.ts:25-50 | the mapping is that of an exchange with the narrowest bounds |
| Clock.Calibrate | agent/src/temporal.ts:20-50 | checking the exchanges one by one and taking the first of the sorted estimates gives that mapping |
| Clock.VerdictsAreExact | agent/src/temporal.ts:83-109 | overlap is possible exactly when some true intervals within the errors overlap, and certain exactly when both errors are known and all do |
| Clock.VerdictsAreExactForClockErrors | agent/src/temporal.ts:83-109 | the same when each event is shifted as a whole |
| Resampler.SplitAnywhere | agent/web/resampler.js:46-104 | cutting a block anywhere changes neither the chunks put out nor any part of the state reached |
| Resampler.BlocksDoNotMatter | agent/web/resampler.js:46-104 | any sequence of blocks gives the chunks and the state of the whole signal |
| Resampler.SamplesProduced | agent/web/resampler.js:76-90 | N > 0 inputs yield floor((N - 1) / step) + 1 samples |
| Resampler.OutputIsTheSignalResampled | agent/web/resampler.js:46-104 | the j-th sample put out, whatever the blocks, is the filtered signal interpolated at the j-th position |
| Resampler.OutputIsExact | agent/web/resampler.js:46-104 | that sample is the 16-bit value nearest to the mean of the two filtered samples around the position, each weighed by how near it is |
| Resampler.FilterIsConvolution | agent/web/resampler.js:52-66 | each filtered sample weighs the last samples of the signal with the taps, in order, with silence before the start |
| Resampler.PositionIs | agent/web/resampler.js:76-88 | the position after j steps is j times the step from the start |
| Resampler.PackKeepsAll | agent/web/resampler.js:92-104 | the chunks and the partial chunk together hold every sample, quantized, in order |
| Resampler.Stream.Process | agent/web/resampler.js:46-90 | the buffer shifts, loops and field updates of one block compute that block's chunks and state, with every read in bounds |

## Left out

- Gate jobs, decisions and classification, the people, graph and artifact tables, errors, deadlines and capabilities of tasks: no property above depends on them.
- Model, vision, speech and face providers, tool bodies, HTTP and files: their results are arbitrary inputs; a tool's external effect is one abstract step.
- SQLite, JSON and full-text ranking: tables are maps, sets and sequences; `atomic` is one step; two payloads are equal when all modelled fields are.
- `Store.tasks()` returns the newest hundred tasks: a delivery pass takes the list as a parameter; recovery and the start of tasks are modelled for one task without the limit.
- `pump` starts tasks from a list read before it starts them: starting is modelled as reading the status again.
- Which deleted or expired rows `maintain` selects: any finished tasks may go; removal of old evidence is a deletion. Maintenance is assumed not to remove the children of an active parent, which the retention time rules out.
- LedgerRuns.Completes: an ingest, deletion or record that would not end counts as refused or does not occur; `Store` says when that is.
- LedgerRuns.EveryRunIsSafe: a crash is cut into the statements of `forget`, `notify`, `createTask` and `recordEvidence`, not into those of a cancellation, which withdraws notifications after it cancels tasks. An event stored by the agent and its derivations count as one step, also for presence observations, which store the two separately.
- Derivations.DerivationsStayCycleFree: takes each task to cite evidence under the one owner stored with it.
- TaskRun.RequestsArePaired: takes the ids of a response as distinct and without a result in the log; that this is exactly what keeps the log paired is `TaskLog.ResponseKeepsPairing`.
- TaskRun.UnsafeEffectsHappenOnce: is about one task; that receipts of two tasks never share a key is taken from the task id in the key. Content deleted between the finish tool and the saving of its result is not modelled, because no other work runs between them.
- Outbox.OutboxIsFaithful: other operations of the agent bring in no event that names a removed person. The agent's storage budget, which can refuse an event too, is not modelled.
- The face clock and graph entities that the integration handler also writes, camera requests of the bridge, and `wireEvent`'s choice of fields: an outbox row is an invalidation, a removal, an event or nothing.
- Export: an hour's file is replaced in one step; loss of a renamed file in a power failure is not modelled. String collations are given total orders.
- Reminders: due times and encounter matching only decide which reminders fire; the groups of a firing are arbitrary sets of pending reminders, and the length of a group's event is given. Notifications of a cancelled reminder are not modelled.
- Reminders.ReconcileIs: the query orders its rows in no way; the model takes wakes in the order they were made.
- Pipeline: which queued capture gets a vision slot, the bounded queue, waiting for a neighbour (an arbitrary choice) and indexing. The transcripts of a session are all saved revisions, which `Window.ArrivalDoesNotMatter` makes equal to the newest ones.
- Batch: labels, descriptions, facts, events and object matches of a row, and the names of errors; gallery people are stored under their person ids.
- Identity: schema limits of sizes and lengths; case folding is a given function.
- Clock.MappedCaptureIsSoundExactly: what may have happened is judged by the tightest exchange alone; with several exchanges the bound may also hold for everything that fits all of them although it fails for that one.
- Clock.MapClock: numbers are finite reals, so checks for infinities and missing session ids are left out.
- Resampler: coefficients and samples are reals without rounding; the filter design and a chunk size of zero are left out.
- Face registration and similarity, audio transport, web pages, sessions, push messages and time zones.
