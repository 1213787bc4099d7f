# Modelry core: a verified model

Modelry is a backend server for applications. This project models the parts of it that must stay right under concurrency,
crashes and configuration changes, and proves that they do:

- **Deliveries** (`Deliveries`, `DeliveryStore`, `DeliveryProofs`, `DeliverySafety`, `DeliveryOutcomes`, `DeliveryService`): the durable queue of
  webhook deliveries with its workers, retry rounds, redrives, revocations, limits and crash recovery. Every transaction, the death
  of the process and its restart are steps of one state machine, which keeps one joint invariant.
- **Cron and jobs** (`Calendar`, `CronText`, `Cron`, `Jobs`, `JobOutcomes`, `JobService`): the five-field parser, the search for the next run with
  the calendar arithmetic behind its bound, and the scheduler that turns due runs into deliveries.
- **Schema changes** (`Keyed`, `SchemaModel`, `SchemaOperations`, `SchemaValues`, `SchemaCreation`, `SchemaChanges`, `SchemaProofs`,
  `SchemaSafety`, `SchemaOutcomes`, `SchemaService`): the model validator, the interpreter of pending operations, the diff, the evaluation against
  stored records, and the lifecycle around them: two transactions per apply, durable attempts, immutable history, recovery.
- **Extensions** (`Extensions`, `ExtensionOutcomes`, `ExtensionService`): configuration, secrets, and the intents that pin them.
- **App authentication** (`AppAuth`, `AuthOutcomes`, `AuthService`): credentials, sessions and recovery tokens, with login and password change split
  into what they read and their transaction.

Each part has the same shape. A state holds the tables; every transaction is a function from state to state; an `Event` names a
transaction and `Run` a whole history. Lemmas show what each step keeps, and so what every reachable state satisfies; an `Outcomes` module
writes out what each transaction answers and leaves in the rows, without the functions that compute it. A class holds the same tables
as fields and has a method per operation of the program, with its loops, its order of tests and its error results; the method's
contract says that it takes exactly the specified step.

Some statements are not what one would expect of the program, and are proved as it behaves, with the exact condition:

- Deleting a secret ends the pending deliveries of the webhooks that sign with it now, not those that pin it
  (`DeliverySafety.RevocationOfOne`; `DeliverySafety.RevocationIsExact` says when the two are the same). So it misses a delivery whose
  webhook has moved to another secret, which claiming then cancels (`DeliverySafety.RevocationMissesAMovedWebhook`), and it ends one
  that pins another, existing secret whose webhook has moved to the deleted one; a test of that kind was still authorised, and is
  lost (`DeliverySafety.RevocationEndsAnAuthorisedTest`).
- Replacing a job with a clock read before its transaction can plan a slot that is already filled, after which every tick fails
  (`Jobs.StaleReplaceKeeps`; `Jobs.StaleReplaceStopsTheSchedule` gives a run that ends so, and `Jobs.TickFailsExactly` says when any
  tick fails). Starting the service makes a tick too (internal/automation/service.go:85-87), so such a start fails.
- A process that dies while a Before hook runs leaves a run without an intent open. The next start reads the intent ID of that run,
  which is null, as a text; it fails, changes nothing, and so does every start after it (`Extensions.StartupIsExact`,
  `Extensions.ComesUpAgain`; `Extensions.ACutHookStopsTheService` gives the run). `Extensions.Closed` is what startup is for, and what it
  does exactly when no such run is open.
- An Auth collection cannot be created with an email field spelled in another case, or one that defaults to null, although the field
  alone is acceptable (`SchemaCreation.CreationIsExact`; `SchemaCreation.CapitalEmailIsRejected` and
  `SchemaCreation.NullEmailIsRejected` give one of each).
- A default list of files cannot be written to a new column, and a default record ID that is JSON text of something else is read
  back as that (`SchemaValues.DefaultReadsBack`; `SchemaValues.FilesDefaultIsRefused` and `SchemaValues.RelationDefaultIsMisread`
  give one of each).

## Assumptions

- A transaction is atomic and its result is known to the caller.
- IDs, salts and tokens drawn at random are new each time. Methods ask for this of the IDs they are given; steps with a used ID do nothing.
- Instants are integers (nanoseconds since the first day of year 1), and comparing two of them is comparing times.
- Text parsers and printers of other libraries (JSON, floating-point text, RFC 3339 instants, media types) enter the schema model as the
  functions of a `Codec`; the results hold for all of them. `SchemaValues.DefaultReadsBack` is about defaults whose printed JSON reads back.
  Numbers are reals.
- The database driver takes texts, numbers, booleans and null, and refuses other values.
- The characters of a payload are its bytes; other texts count characters or UTF-8 bytes, as the program does.
- A derived key is the password and its salt: two are equal only if both are.

## Model

| member | source | states |
|---|---|---|
| `Deliveries.PendingHasRoom` | internal/automation/dispatch.go:125-132 | A pending delivery always has attempts left, in all and in its round, and a valid payload: claiming never takes its exhaustion branches |
| `Deliveries.AttemptLimitIsRoundLimit` | internal/automation/service.go:131-179 | 32 attempts are reached only by the eighth attempt of the fourth round, so the limits of the schema say one thing |
| `Deliveries.StartKeeps` | internal/automation/dispatch.go:133-150 | Starting an attempt keeps the numbering of rounds and attempts, the sums and limits, and spends budget |
| `Deliveries.StartIsHeld` | internal/automation/dispatch.go:133-155 | The claim handed to the worker describes the running delivery: its last attempt, latest round and pinned secret |
| `Deliveries.FinishClosesItsAttempt` | internal/automation/dispatch.go:338-390 | Finishing closes exactly the claimed attempt, which was the only open one, and the delivery waits again exactly after a transient failure with round attempts left |
| `Deliveries.FinishKeeps` | internal/automation/dispatch.go:338-390 | Finishing keeps the delivery sound, and closed attempts, intent and pinned rounds never change |
| `Deliveries.RedriveKeeps` | internal/automation/deliveries.go:169-238 | A permitted redrive opens a round numbered at most four that did not exist, and keeps every limit |
| `Deliveries.InterruptKeeps` | internal/automation/recovery.go:33-68 | An interrupted delivery waits again exactly if its secret exists, it is authorised and its round has attempts left; otherwise it ends |
| `Deliveries.EndKeeps` | internal/automation/webhooks.go:112-119 | Ending a pending delivery keeps it sound and spends budget |
| `Deliveries.NumberAttempts` | internal/automation/deliveries.go:63-104 | The attempts in order, each with its round and its number within that round |
| `Deliveries.RoundNumbersAreComplete` | internal/automation/deliveries.go:63-104 | Every number of every round is given, and given once |
| `DeliveryProofs.PrunedKeeps` | internal/automation/deliveries_store.go:70-87 | Pruning removes terminal rows only, the oldest first, and makes room unless nothing terminal is left |
| `DeliveryProofs.PruningMakesRoom` | internal/automation/deliveries_store.go:55-87 | Because at most 1000 rows are active pruning always makes room: the branch with nothing to prune is unreachable |
| `DeliverySafety.ObstacleIsRevocation` | internal/automation/dispatch.go:107-132 | A due delivery is refused exactly when its secret or its webhook is gone; never for exhaustion or payload |
| `DeliverySafety.RoundGuardNeverFires` | internal/automation/deliveries.go:180-225 | The guard on a fifth round is implied by the limits looked at before it |
| `DeliverySafety.RevocationOfOne` | internal/automation/webhooks.go:121-128 | Deleting a secret ends a pending delivery exactly if its webhook signs with the secret now; one that pins the secret and is missed is cancelled when claimed; one that ends although it pins another was still authorised exactly if it is a test whose secret exists |
| `DeliverySafety.RevocationIsExact` | internal/automation/webhooks.go:121-128 | The deletion cancels exactly what pins the secret if and only if every pending delivery pins it exactly when its webhook signs with it now |
| `DeliverySafety.RevocationMissesAMovedWebhook` | internal/automation/webhooks.go:121-128 | A run after which deleting the secret a test pins leaves it waiting, because its webhook has moved |
| `DeliverySafety.RevocationEndsAnAuthorisedTest` | internal/automation/webhooks.go:121-128 | After the same run deleting the other secret ends the test, although what it pins exists and it needs no enabled webhook |
| `DeliverySafety.RecoveredRow` | internal/automation/recovery.go:12-92 | What recovery makes of one delivery: waiting exactly if active, authorised and, if interrupted, with attempts left; otherwise terminal |
| `DeliverySafety.RecoveryRestores` | internal/automation/recovery.go:12-92 | After a crash in any state, recovery restores the whole invariant, leaves nothing running and nothing waiting unauthorised, and doing it again changes nothing |
| `DeliverySafety.StepKeeps` | internal/automation/dispatch.go:92-396 | Every transaction, crash and restart keeps the joint invariant of rows, limits and claims; survivors evolve, only terminal rows leave |
| `DeliverySafety.RunKeeps` | internal/automation/dispatch.go:92-396 | The joint invariant holds over every interleaving of workers, revocations, redrives, crashes and restarts |
| `DeliverySafety.LimitsAlwaysHold` | internal/automation/deliveries_store.go:12-17 | In every reachable state at most 1000 deliveries are active, 5000 retained, and 64 MiB of payload kept |
| `DeliverySafety.RunningMeansOneHeldAttempt` | internal/automation/dispatch.go:133-155 | In every reachable state a delivery runs exactly when it has an open attempt; that is its last, in its latest round; at most one worker holds it, exactly one while the service is open |
| `DeliverySafety.AtMost71StatusChanges` | internal/automation/dispatch.go:117-150 | No delivery changes its status more than 71 times over any run |
| `DeliverySafety.RunEvolves` | internal/automation/deliveries.go:169-238 | Over any run a delivery keeps its intent, pinned rounds and closed attempts, and succeeded and cancelled are final |
| `DeliverySafety.GoneForGood` | internal/automation/deliveries_store.go:70-87 | A pruned delivery never returns |
| `DeliveryService.Service.PruneRows` | internal/automation/deliveries_store.go:70-87 | The pruning loop computes the specified pruning and reports a table still full |
| `DeliveryService.Service.CreateDelivery` | internal/automation/deliveries_store.go:32-117 | Creating takes the specified step, with its not-found, disabled-webhook and over-capacity outcomes |
| `DeliveryService.Service.ClaimDelivery` | internal/automation/dispatch.go:92-160 | Claiming takes the oldest due delivery, or ends it for the specified reason, or finds nothing |
| `DeliveryService.DecideOutcome` | internal/automation/dispatch.go:162-247 | Which outcome an attempt has: blocked, accepted, to be retried or final, each exactly when |
| `DeliveryService.Service.CurrentDeliveryBlock` | internal/automation/dispatch.go:249-268 | Which block there is, each exactly when: unreadable tables, a revoked secret, a disabled webhook unless the delivery is a test, or none |
| `DeliveryService.Service.FinishAttempt` | internal/automation/dispatch.go:328-396 | Finishing computes status, retry time and the two guarded updates as specified |
| `DeliveryService.Service.RetryDelivery` | internal/automation/deliveries.go:169-238 | A redrive is refused for the specified reason, in the order of its tests, or opens the next round |
| `DeliveryService.Service.CreateWebhook` | internal/automation/service.go:241-289 | A webhook starts disabled at revision 1, at most 32 of them, under an existing secret |
| `DeliveryService.Service.ReplaceWebhook` | internal/automation/webhooks.go:13-58 | Replacing moves target and secret, counts the revision and leaves deliveries alone |
| `DeliveryService.Service.EnableWebhook` | internal/automation/webhooks.go:60-84 | Enabling needs the webhook and its secret |
| `DeliveryService.Service.DisableWebhook` | internal/automation/webhooks.go:86-119 | Disabling cancels exactly the pending deliveries of the webhook that are not tests |
| `DeliveryService.Service.DeleteSecret` | internal/automation/webhooks.go:121-128 | Deleting a secret disables the webhooks that sign with it and cancels what waits for them |
| `DeliveryService.Service.CloseInterrupted` | internal/automation/recovery.go:12-68 | The loop over interrupted deliveries computes the specified recovery of each |
| `DeliveryService.Service.RecoverOnStartup` | internal/automation/recovery.go:12-92 | The three updates of startup recovery, in order |
| `Calendar.NextDayIsPlusOne` | internal/automation/cron.go:145 | The day after a civil date is the next day number, through months, years and leap years |
| `Calendar.DayNumberIsInjective` | internal/automation/cron.go:127 | Two civil dates have one day number only if they are equal |
| `Calendar.CalendarRepeats` | internal/automation/cron.go:128 | 146097 days later the date has the same month, day and weekday |
| `Calendar.KnownDays` | internal/automation/cron.go:127-145 | The day numbers and weekdays of two known days, and the leap-year rule at a century |
| `CronText.SplitJoined` | internal/automation/cron.go:45 | Splitting a joined list at its separator gives the list back |
| `CronText.ReadTermIsExact` | internal/automation/cron.go:54-120 | A part of a field is read exactly if it spells an item (star, value or range, with an optional step; numbers with any zeros and a plus sign, names in either case) that has a meaning in the field, and is read as that meaning |
| `CronText.ReadPrintedItem` | internal/automation/cron.go:54-120 | Every item that has a meaning has a spelling, which is read as that meaning |
| `Cron.MarkTerm` | internal/automation/cron.go:92-106 | The step loop marks exactly the values of its term, with 7 folded to Sunday, and never steps past the end |
| `Cron.ParseCronField` | internal/automation/cron.go:43-109 | A field is accepted exactly if its text spells items that all have a meaning; it then selects exactly the values they mean, and is a wildcard exactly if one of them is a star |
| `Cron.TextIsItsItems` | internal/automation/cron.go:43-120 | The texts whose parts are all read are the spellings of meaningful items, and what the parts denote is what the items mean, whichever way the text is read as items |
| `Cron.FieldIsDetermined` | internal/automation/cron.go:43-109 | Two fields that select what a text denotes are equal |
| `Cron.ParseSchedule` | internal/automation/cron.go:22-41 | An expression is accepted exactly if it has five words, each a proper field, at most 128 bytes and no question mark; each field is what its word means |
| `Cron.SevenIsSunday` | internal/automation/cron.go:43-109 | In the weekday field 7, however it is written, is Sunday and nothing else |
| `Cron.DayFields` | internal/automation/cron.go:150-157 | With a star in either day field, stepped or not, both must hold; one that is just a star leaves the other to decide; with no star either of them does |
| `Cron.ScheduleRepeats` | internal/automation/cron.go:128-157 | A schedule fires in a minute exactly if it fires in that minute of any other 400-year cycle |
| `Cron.EmptyWindowMeansNever` | internal/automation/cron.go:128 | No match in 146098 civil days, the first perhaps partly over, means no match ever |
| `Cron.SearchDay` | internal/automation/cron.go:130-143 | The hour and minute loops find the first matching minute of the day from the start on, or none |
| `Cron.Next` | internal/automation/cron.go:125-148 | The result is the least matching minute strictly after the instant; none is returned only if no later minute ever matches |
| `Cron.NextIsDetermined` | internal/automation/cron.go:125-148 | That describes one answer |
| `Cron.ReachableForever` | internal/automation/cron.go:125-148 | A schedule with a next run after one instant has one after every instant |
| `Jobs.DueJobIsConsumed` | internal/automation/jobs.go:239-267 | A due job never fails: its schedule is reachable, its webhook exists, its slot is free; it consumes the slot and fills it exactly if the webhook is enabled |
| `Jobs.TickSucceeds` | internal/automation/jobs.go:215-272 | A tick over the due jobs never fails and keeps the invariant of jobs and slots |
| `Jobs.TickIsExact` | internal/automation/jobs.go:215-272 | After a tick exactly the due jobs have consumed their slots and run next at the least match after it |
| `Jobs.OneDeliveryPerJob` | internal/automation/jobs.go:249-258 | A tick creates at most one delivery of a job, however many of its runs were missed |
| `Jobs.JobStepKeeps` | internal/automation/jobs.go:16-145 | Ticks, edits, manual runs and every step of the delivery protocol keep the invariant of jobs and slots |
| `Jobs.EveryScheduleIsSound` | internal/automation/service.go:153 | Over any run under a clock that never runs back, later deliveries of a job fill later slots, so the unique index is never violated, and every job has a run to come |
| `Jobs.StaleReplaceKeeps` | internal/automation/jobs.go:64-105 | With a clock read before the transaction, replacing a job keeps the invariant exactly if the new schedule has no run between that reading and the last run |
| `Jobs.StaleReplaceStopsTheSchedule` | internal/automation/jobs.go:64-105 | A run that creates a job every minute and ticks once: replaced with a reading one minute old, its next slot is already filled, and every later tick fails |
| `Jobs.EveryMinuteIsStars` | internal/automation/cron.go:43-109 | The schedule of that job is what five stars denote |
| `Jobs.FilledSlotFailsTheTick` | internal/automation/jobs.go:249-258 | A tick that meets a filled slot fails and changes nothing |
| `Jobs.TickFailsExactly` | internal/automation/jobs.go:215-272 | A tick fails, and then changes nothing, if and only if some due job has no next run, no webhook, or an enabled webhook and a slot that an older row still fills in the table as pruned so far |
| `JobService.JobService.DueJobs` | internal/automation/jobs.go:218 | The due jobs, exactly, by time and then by ID |
| `JobService.JobService.CreateJobDelivery` | internal/automation/deliveries_store.go:119-131 | The delivery of a slot, refused by the unique index exactly if a kept row has the slot |
| `JobService.JobService.ConsumeSlot` | internal/automation/jobs.go:239-267 | One turn of the tick, with its three failures |
| `JobService.JobService.ScheduleDueJobs` | internal/automation/jobs.go:215-272 | The whole tick, or nothing at all when a job fails; where the invariant holds and the clock does not run back it never fails, and keeps it |
| `JobService.JobService.CreateJob` | internal/automation/jobs.go:16-62 | A job is stored disabled with its least next run, at most 32 of them, or refused: no run to come, no webhook, too many; the invariant is kept |
| `JobService.JobService.ReplaceJob` | internal/automation/jobs.go:64-105 | Replacing recomputes the next run from the clock that was read and keeps the last run, or is refused for the stated reason; it keeps the invariant exactly if no run lies between the reading and the last run |
| `JobService.JobService.SetJobEnabled` | internal/automation/jobs.go:115-145 | Enabling and disabling leave the plan alone, and keep the invariant |
| `JobService.JobService.RunJobOnce` | internal/automation/job_run.go:21-67 | A manual run creates a delivery without a slot and leaves the job alone; it is refused exactly without job or webhook, or when the secret is gone or the webhook disabled |
| `SchemaModel.ValidateText` | internal/backendmodel/model.go:495-522 | The rules of a text, with the list of allowed values searched in a loop |
| `SchemaModel.RulesMean` | internal/backendmodel/model.go:495-539 | Length, number and enumeration rules mean what they are named for |
| `SchemaModel.ValidateFieldValue` | internal/backendmodel/model.go:402-493 | A value is accepted exactly under its field type and rules, list items in turn, null exactly when not required |
| `SchemaModel.ValidateFields` | internal/backendmodel/changes.go:790-814 | The loop over fields accepts exactly the lists whose fields are allowed with IDs and case-folded names not repeated |
| `SchemaModel.ValidateIndexes` | internal/backendmodel/changes.go:824-847 | The loop over indexes accepts exactly those that are valid, not repeated, and refer to ordinary fields |
| `SchemaModel.ValidateModel` | internal/backendmodel/changes.go:783-849 | The validator accepts exactly the valid models |
| `SchemaOperations.Normalize` | internal/backendmodel/changes.go:200-325 | A saved operation is in normal form: a proper target and a valid definition under that ID |
| `SchemaOperations.NormalizeKeepsTarget` | internal/backendmodel/changes.go:200-325 | What an operation is about: a new ID when added, otherwise the target asked for, which editing never changes; relation operations and relation fields go together |
| `SchemaOperations.ApplyOperations` | internal/backendmodel/changes.go:695-781 | The interpreter loop computes the specified replay and validates the result |
| `SchemaOperations.ApplyOneLooksUp` | internal/backendmodel/changes.go:697-776 | One operation gives its target its definition, or removes it, and touches no other ID |
| `SchemaOperations.UntouchedStays` | internal/backendmodel/changes.go:695-781 | What no operation names is untouched by a replay |
| `SchemaOperations.BuildDiff` | internal/backendmodel/changes.go:880-911 | The loop computes one item per operation, with the item before and after |
| `SchemaOperations.DiffIsAPatch` | internal/backendmodel/changes.go:880-911 | The diff, read as a patch, takes every ID of the current model to the target, and has an item with the true before and after for every ID that changed |
| `SchemaOperations.ReplayKeepsLocked` | internal/backendmodel/changes.go:695-781 | A replay keeps the system fields as they are, and the email of an Auth collection: its ID, name, type, and that it is required and unique |
| `SchemaValues.IndexedFieldsAreFound` | internal/backendmodel/changes.go:676-690 | In a valid model every indexed field is found and ordinary: the error branch of the unique check is dead |
| `SchemaValues.CheckExistingValues` | internal/backendmodel/changes.go:562-583 | Every stored value reads properly under the field, or one does not |
| `SchemaValues.CheckTargetPreconditions` | internal/backendmodel/changes.go:516-560 | The loop collects the specified failures, field by field |
| `SchemaValues.AdditionsNeedNoReview` | internal/backendmodel/changes.go:913-923 | A change that only adds fields, or only concerns indexes, never needs a review |
| `SchemaValues.UnblockedChangeFits` | internal/backendmodel/changes.go:481-693 | If a change is not blocked and every record fitted the model, every record gives every target field a value that satisfies its rules, required included; relations resolve, and unique values do not repeat |
| `SchemaValues.DefaultReadsBack` | internal/storage/record_projection.go:202-231 | The default of a valid field, if its JSON reads back, reads back from its column as itself, exactly unless it is a list of files, or a single relation to an ID that is JSON text of something else |
| `SchemaValues.FilesDefaultIsRefused` | internal/storage/record_projection.go:202-231 | A valid field of files with a default that cannot be written |
| `SchemaValues.RelationDefaultIsMisread` | internal/backendmodel/changes.go:637-650 | A valid single relation whose default, the text 12, is read back as a number |
| `SchemaCreation.CreationIsExact` | internal/backendmodel/service.go:173-303 | Which collections can be created, if and only if, and the fields the model then holds; an Auth email must be called exactly that, be a text, and not default to null |
| `SchemaCreation.CapitalEmailIsRejected` | internal/backendmodel/service.go:270-295 | An Auth collection with an acceptable required text field named Email is rejected |
| `SchemaCreation.NullEmailIsRejected` | internal/backendmodel/service.go:270-295 | So is one with an acceptable optional email that defaults to null |
| `SchemaProofs.SaveKeeps` | internal/backendmodel/changes.go:42-88 | Saving an operation, in a new change or a pending one, keeps the joint invariant |
| `SchemaProofs.UpdateKeeps` | internal/backendmodel/changes.go:90-144 | So does updating one |
| `SchemaProofs.RemoveKeeps` | internal/backendmodel/changes.go:146-198 | So does removing one, the last included |
| `SchemaProofs.DiscardKeeps` | internal/backendmodel/apply.go:243-276 | So does discarding a change |
| `SchemaProofs.BeginKeeps` | internal/backendmodel/apply.go:42-84 | The first transaction of an apply keeps it |
| `SchemaProofs.CommitDecidedByData` | internal/backendmodel/apply.go:91-123 | The second transaction meets the change and model the first evaluated; its conflict and confirmation failures are unreachable, and it fails only for records, relation targets or the writing |
| `SchemaProofs.CommitKeeps` | internal/backendmodel/apply.go:91-164 | The second transaction keeps the joint invariant |
| `SchemaProofs.RecoveryFrees` | internal/backendmodel/service.go:116-162 | After a crash and recovery no attempt is in progress, models and history are unchanged, changes are kept, and doing it again changes nothing |
| `SchemaProofs.StepKeeps` | internal/backendmodel/changes.go:42-198 | Every step of the lifecycle keeps the joint invariant |
| `SchemaProofs.RunKeeps` | internal/backendmodel/apply.go:33-276 | The joint invariant holds over every run |
| `SchemaSafety.PendingChangesReplay` | internal/backendmodel/changes.go:481-489 | In every reachable state the operations of a pending change replay on the applied model: its preview never says the model is invalid |
| `SchemaSafety.ModelsStayWellFormed` | internal/backendmodel/changes.go:783-849 | In every reachable state field IDs differ, names differ whatever the case, and index references resolve |
| `SchemaSafety.ApplyFreezesItsChange` | internal/backendmodel/changes.go:443-453 | While an attempt is in progress no edit, discard or second apply of the change succeeds |
| `SchemaSafety.CommitAppliesWhatWasEvaluated` | internal/backendmodel/apply.go:91-164 | A commit applies the very operations the first transaction evaluated to the very model it saw, with its migration, or changes nothing; the data alone decide |
| `SchemaSafety.FailuresKeepTheModel` | internal/backendmodel/apply.go:186-224 | A failed, dead or recovered apply leaves models, history and every change's operations and version as they were |
| `SchemaSafety.VersionCountsMigrations` | internal/backendmodel/apply.go:127-151 | The schema version is one more than the number of migrations, they are numbered in order, and the newest holds the model |
| `SchemaSafety.AppliedMeansOneMigration` | internal/backendmodel/apply.go:149-163 | A change is applied exactly when one migration, and no second, belongs to it |
| `SchemaSafety.HistoryRebuildsTheModel` | internal/backendmodel/apply.go:144-151 | Replaying all diffs of the history on the initial model gives every present field and index, by ID |
| `SchemaSafety.LockedFieldsNeverChange` | internal/backendmodel/changes.go:700-763 | Over any run a collection keeps its name, kind and system fields, and the email of an Auth collection its ID and its constraints |
| `SchemaService.CollectFields` | internal/backendmodel/service.go:190-224 | The loops over system and given fields compute the specified list, or fail at the same field |
| `SchemaService.AddIdentifier` | internal/backendmodel/service.go:270-295 | The loop that finds or adds the email computes the specified fields |
| `SchemaService.SchemaService.CreateCollection` | internal/backendmodel/service.go:173-268 | Creating takes the specified step, with its name conflict and relation failures |
| `SchemaService.SchemaService.SaveOperation` | internal/backendmodel/changes.go:42-88 | Saving takes the specified step |
| `SchemaService.SchemaService.EditOperation` | internal/backendmodel/changes.go:90-144 | Editing takes the specified step |
| `SchemaService.SchemaService.DropOperation` | internal/backendmodel/changes.go:146-198 | Removing takes the specified step, and discards the change with its last operation |
| `SchemaService.SchemaService.DiscardChange` | internal/backendmodel/apply.go:243-276 | Discarding takes the specified step |
| `SchemaService.SchemaService.EvaluateChange` | internal/backendmodel/changes.go:481-514 | Diff, failures and risk as specified |
| `SchemaService.SchemaService.BeginApply` | internal/backendmodel/apply.go:42-84 | The first transaction takes the specified step |
| `SchemaService.SchemaService.CommitApply` | internal/backendmodel/apply.go:91-164 | The second transaction takes the specified step |
| `SchemaService.SchemaService.RecordApplyFailure` | internal/backendmodel/apply.go:186-224 | Recording a failure takes the specified step |
| `SchemaService.SchemaService.RecoverInterrupted` | internal/backendmodel/service.go:116-162 | The loop over interrupted attempts computes the specified recovery |
| `Extensions.InvalidatedIsExact` | internal/extensions/service.go:816-878 | The cancelling query finds an authorised intent invalid exactly when its slot, a pinned secret or a granted origin is no longer configured |
| `Extensions.ReplaceCancelsExactly` | internal/extensions/service.go:393-440 | After a replacement a pending intent is still pending exactly when what it pins is still configured; other intents are untouched, and a slot that stays keeps its binding ID |
| `Extensions.ReplaceKeeps` | internal/extensions/service.go:393-440 | Replacing keeps every remaining pending intent authorised and enabled slots disjoint |
| `Extensions.EnableKeeps` | internal/extensions/service.go:442-470 | Enabling keeps enabled slots disjoint |
| `Extensions.DisableKeeps` | internal/extensions/service.go:472-496 | Disabling leaves no pending intent of the extension |
| `Extensions.DeleteSecretKeeps` | internal/extensions/secrets.go:225-256 | Deleting a secret takes its bindings and every pending intent pinned to it |
| `Extensions.AppendKeeps` | internal/extensions/hooks.go:149-235 | A new intent pins what is configured, and so is authorised |
| `Extensions.AuthorisedStarts` | internal/extensions/hooks.go:399-449 | Starting a pending intent never finds anything wrong |
| `Extensions.StepKeeps` | internal/extensions/hooks.go:149-541 | Every configuration change, secret change, intent move and restart keeps the invariant |
| `Extensions.RunKeeps` | internal/extensions/hooks.go:149-541 | It holds over every run |
| `Extensions.PendingIntentsAreAuthorised` | internal/extensions/hooks.go:399-449 | In every reachable state each pending intent is authorised by the present configuration and would start |
| `Extensions.SlotsNeverShared` | internal/extensions/service.go:699-711 | In every reachable state at most one enabled extension holds a slot, so looking one up has one answer |
| `Extensions.RunsFollowTheirIntents` | internal/extensions/hooks.go:467-541 | While it is kept, the run of an intent has its status |
| `Extensions.StartupIsExact` | internal/extensions/hooks.go:506-541 | Startup interrupts what was pending or running exactly if no run of a Before hook is open; the intent ID of such a run is null, reading it fails, and nothing changes |
| `Extensions.RestartClosesEverything` | internal/extensions/service.go:109-125 | A restarted service is up exactly if no run of a Before hook was open; then no intent and no run is open, what had ended is as it was, and another start changes nothing; otherwise nothing has changed |
| `Extensions.ComesUpAgain` | internal/extensions/service.go:109-125 | A service that is down can come up again if and only if no run of a Before hook was cut off; if one was, no sequence of events changes anything |
| `Extensions.ACutHookStopsTheService` | internal/extensions/hooks.go:543-555 | A run that starts a Before hook and dies in it: from then on startup always fails |
| `Extensions.IntentsOnlyAdvance` | internal/extensions/hooks.go:399-541 | Over any run an intent is never forgotten, never pinned anew, and never runs twice |
| `ExtensionService.CheckPins` | internal/extensions/service.go:841-870 | The loops over pins and grants compute whether an intent is invalidated |
| `ExtensionService.BindingRows` | internal/extensions/service.go:763-774 | The loop over bindings keeps the ID of every slot that stays |
| `ExtensionService.ExtensionService.ReplaceConfigurationRows` | internal/extensions/service.go:713-793 | The rows of an extension, rewritten as specified |
| `ExtensionService.ExtensionService.CancelRemovedPending` | internal/extensions/service.go:816-878 | The loop cancels exactly the pending intents the rows do not cover |
| `ExtensionService.ExtensionService.ReplaceConfiguration` | internal/extensions/service.go:393-440 | Replacing takes the specified step, or fails for the specified reason |
| `ExtensionService.ExtensionService.AddExtension` | internal/extensions/service.go:365-391 | A new extension is disabled and bound to nothing |
| `ExtensionService.ExtensionService.EnableExtension` | internal/extensions/service.go:442-470 | Enabling takes the specified step |
| `ExtensionService.ExtensionService.DisableExtension` | internal/extensions/service.go:472-496 | Disabling takes the specified step |
| `ExtensionService.ExtensionService.EnsureSlotsFree` | internal/extensions/service.go:699-711 | The loop finds whether another enabled extension holds a wanted slot |
| `ExtensionService.ExtensionService.CancelPendingForSecret` | internal/extensions/secrets.go:301-338 | The loop cancels exactly the pending intents pinned to the secret |
| `ExtensionService.ExtensionService.ReplaceSecretValue` | internal/extensions/secrets.go:177-223 | A new value counts the version and cancels what was pinned to the old one |
| `ExtensionService.ExtensionService.RemoveSecret` | internal/extensions/secrets.go:225-256 | Deleting a secret takes the specified step |
| `ExtensionService.ExtensionService.AppendIntent` | internal/extensions/hooks.go:149-235 | A committed change leaves at most one intent, for the holder of its slot |
| `ExtensionService.ExtensionService.StartIntent` | internal/extensions/hooks.go:399-449 | Starting looks at everything pinned again, in order |
| `ExtensionService.ExtensionService.FinishIntent` | internal/extensions/hooks.go:467-478 | Finishing moves a running intent and its run |
| `ExtensionService.ExtensionService.FailPendingIntent` | internal/extensions/hooks.go:480-491 | Failing moves a pending intent and its run |
| `ExtensionService.ExtensionService.InterruptPending` | internal/extensions/hooks.go:506-541 | Startup fails and changes nothing exactly if a run without an intent is open; otherwise the loop interrupts every open run with its intent, then every open intent, and nothing is left open |
| `ExtensionService.ExtensionService.StartBeforeRun` | internal/extensions/hooks.go:543-555 | The run of a Before hook starts at once, without an intent |
| `ExtensionService.ExtensionService.FinishBeforeRun` | internal/extensions/hooks.go:570-576 | It is ended once: only a running one |
| `AppAuth.WriteKeeps` | internal/appauth/sessions.go:218-223 | Writing a password under a fresh salt and revoking the sessions keeps the invariant, and makes every earlier flow stale |
| `AppAuth.CommitLoginKeeps` | internal/appauth/sessions.go:93-136 | A login that stands opens its session under the present version |
| `AppAuth.CommitChangeKeeps` | internal/appauth/sessions.go:209-225 | A password change that stands keeps the invariant |
| `AppAuth.SetPasswordKeeps` | internal/appauth/users.go:286-319 | An assigned password keeps it, whether or not there was a credential |
| `AppAuth.ConfirmKeeps` | internal/appauth/recovery.go:289-342 | Confirming a token keeps it |
| `AppAuth.StepKeeps` | internal/appauth/sessions.go:40-352 | Every step keeps the invariant of sessions, credentials and flows |
| `AppAuth.RunKeeps` | internal/appauth/sessions.go:40-352 | It holds over every interleaving |
| `AppAuth.EveryLiveSessionIsCurrent` | internal/appauth/sessions.go:93-136 | In every reachable state a session that is not revoked was issued under the present password and version of its user |
| `AppAuth.OldLoginsNeverSucceed` | internal/appauth/sessions.go:112-115 | Once a password has been set, a login that verified the one before never opens a session, whatever happens in between |
| `AppAuth.OneChangePerSnapshot` | internal/appauth/sessions.go:209-225 | Of two password changes that saw one credential at most one takes effect |
| `AppAuth.ConfirmingBurns` | internal/appauth/recovery.go:289-342 | Confirming burns its token and all others of the user; a reset sets the password and leaves no session of the user alive |
| `AppAuth.TokensAreSingleUse` | internal/appauth/recovery.go:301-331 | Over any run a recovery token confirms at most once |
| `AppAuth.PruningKeepsTheNewest` | internal/appauth/recovery.go:128-130 | Pruning keeps exactly the 1024 newest tokens, or all of them if there are no more: each one gone is older than every one kept |
| `AppAuth.TokensAreLimited` | internal/appauth/recovery.go:113-157 | In every reachable state at most 1025 tokens are kept, and of those kept no more than 16 of one purpose and address were issued in any one hour, whatever the clock does |
| `AuthService.AuthService.CheckLogin` | internal/appauth/sessions.go:40-79 | The snapshot half of a login, with each failure exactly when: no such collection, the wrong credential or configuration, an email not verified when that is all that is missing |
| `AuthService.AuthService.OpenSession` | internal/appauth/sessions.go:96-136 | The transaction half of a login: everything is looked at again, with each failure exactly when |
| `AuthService.AuthService.AuthenticateChange` | internal/appauth/sessions.go:183-194 | The first half of a password change: the new password, the collection and the live session of the caller, with each failure exactly when |
| `AuthService.AuthService.CheckChange` | internal/appauth/sessions.go:195-207 | The second: the credential is read, after the session, and the present password must be its own |
| `AuthService.AuthService.ChangePassword` | internal/appauth/sessions.go:209-225 | The transaction half of a password change succeeds exactly if session and credential still stand |
| `AuthService.AuthService.AssignPassword` | internal/appauth/users.go:256-319 | Setting a password takes the specified step, or fails exactly for a bad password, a missing collection or user, or a changed schema or an email in use |
| `AuthService.AuthService.RegisterUser` | internal/appauth/users.go:36-171 | Creating a user takes the specified step, by an administrator or alone, with a token for the email where it must be verified; each failure exactly when |
| `AuthService.AuthService.IssueRecoveryToken` | internal/appauth/recovery.go:113-224 | A token is issued exactly when the collection and the credential allow it and fewer than 16 were issued in the past hour; at most 1025 are kept |
| `AuthService.AuthService.ConfirmRecovery` | internal/appauth/recovery.go:247-343 | A malformed text is refused before anything is looked at; otherwise confirming takes the specified step and spends its token, or fails exactly for a missing collection, a bad password or a token that does not stand |
| `AuthService.AuthService.RevokeSession` | internal/appauth/sessions.go:304-320 | Revoking ends one session for good |
| `Cron.WordsOfSpaced` | internal/automation/cron.go:22-27 | However a text is words with white space between them, those are the words it is split into |
| `Cron.FiresIsRunsIn` | internal/automation/cron.go:125-157 | The schedule of an expression fires at exactly the times its five words let it run: minute, hour and month denoted, and a day that both day fields denote, or, without a star in either, one of them |
| `Cron.NextOfExpression` | internal/automation/cron.go:125-157 | What the search answers for an expression: the first time after the instant at which its five words let it run, or nothing when there is none |
| `DeliveryOutcomes.RetryIsDue` | internal/automation/dispatch.go:338-390 | A failed attempt is made again 1, 5, 15, 60, 180, 360 or 720 minutes after the first to seventh of its round, and never after the eighth or after another outcome |
| `DeliveryOutcomes.FinishedRow` | internal/automation/dispatch.go:338-390 | What finishing makes of delivery and attempt, by the outcome; nothing else of the delivery moves |
| `DeliveryOutcomes.FinishMovesOneRow` | internal/automation/dispatch.go:338-396 | Finishing moves the claimed delivery and the claim, and no other row |
| `DeliveryOutcomes.ActiveIsCounted` | internal/automation/deliveries_store.go:32-69 | The active deliveries are counted by their rows |
| `DeliveryOutcomes.PruningStopsInTime` | internal/automation/deliveries_store.go:70-87 | Pruning takes nothing from a table below the limit, and no more than it must from a full one |
| `DeliveryOutcomes.CreationIsExact` | internal/automation/deliveries_store.go:32-117 | What creating answers, each exactly when; the new row carries its intent and pins what the webhook has now, waiting if there is room and failed without payload otherwise; only ended rows leave |
| `DeliveryOutcomes.ClaimingIsExact` | internal/automation/dispatch.go:92-160 | A worker takes the delivery next in line, by creation and ordinal; it is cancelled without its secret, or without its webhook if no test, and otherwise runs its next attempt |
| `DeliveryOutcomes.LineHasAHead` | internal/automation/dispatch.go:107-116 | Where something waits, something is next in line |
| `DeliveryOutcomes.RedriveIsExact` | internal/automation/deliveries.go:169-238 | When a delivery may be sent again by hand, the reason that comes first when not, and the round it then waits in |
| `DeliveryOutcomes.WebhookEditsAreExact` | internal/automation/webhooks.go:13-119 | What creating, replacing, enabling and disabling a webhook move, and nothing else |
| `DeliveryOutcomes.DeletionIsExact` | internal/automation/webhooks.go:121-128 | Deleting a secret turns off the webhooks that sign with it and ends what waits for them, and nothing else |
| `DeliveryOutcomes.RecoveryIsExact` | internal/automation/recovery.go:12-92 | What startup makes of every row: a running one by its secret, its webhook and the attempts of its round, a waiting one by its secret and webhook, an ended one nothing |
| `JobOutcomes.PlansAreExact` | internal/automation/jobs.go:16-105 | A job is stored off with the first run of its schedule, or not at all; replacing it plans it anew and keeps whether it is on, and its last run |
| `JobOutcomes.ManualRunIsExact` | internal/automation/job_run.go:21-67 | A manual run creates a delivery of the job for its webhook, without a slot, if the webhook is on and has its secret |
| `JobOutcomes.TurnIsExact` | internal/automation/jobs.go:239-267 | One turn of a tick: if its webhook is on the delivery of the slot is created for it; the slot becomes the last run, and the next is the first after the tick |
| `JobOutcomes.TickMovesExactly` | internal/automation/jobs.go:215-272 | A tick moves exactly the jobs that are on and whose time has come, this instant included: each has its first run after the tick to come |
| `JobOutcomes.EveryDueSlotIsFilled` | internal/automation/jobs.go:215-272 | After a tick the slot of every due job with an enabled webhook is filled, although the table may be full and later turns prune it |
| `SchemaOutcomes.ReviewIsExact` | internal/backendmodel/changes.go:913-923 | An unblocked change must be reviewed if and only if some field of the model is gone from the replayed one, or differs there in type, name, required, unique, validation or relation |
| `SchemaOutcomes.UnconfirmedReviewIsRefused` | internal/backendmodel/apply.go:60-78 | An unconfirmed apply of such a change asks for confirmation and changes nothing |
| `SchemaOutcomes.BlockedIsExact` | internal/backendmodel/changes.go:481-560 | A change is blocked if and only if it does not replay, a field of the target does not fit, or two records repeat a unique field or index |
| `SchemaOutcomes.KeysAreCompared` | internal/backendmodel/changes.go:648-693 | When two records repeat a key: every part is the same and none is null, numbers compared as numbers, a part of a new field being its default |
| `SchemaOutcomes.BeginIsExact` | internal/backendmodel/apply.go:42-84 | What the first transaction answers, in the order of its tests, and the attempt it leaves |
| `SchemaOutcomes.CommittingIsExact` | internal/backendmodel/apply.go:91-164 | What the second transaction leaves in every table, or the mark of failure alone |
| `SchemaOutcomes.ItemIsExact` | internal/backendmodel/changes.go:880-911 | An item of a diff has its operation, the definition on either side, and the name after or before |
| `SchemaOutcomes.OperationAppliesExactly` | internal/backendmodel/changes.go:695-781 | When an operation applies to a model, and what it answers when it does not |
| `SchemaOutcomes.OperationKeepsPlaces` | internal/backendmodel/changes.go:695-781 | What is added comes last, what is changed keeps its place, what is removed leaves the others in order |
| `SchemaOutcomes.NormalizeIsExact` | internal/backendmodel/changes.go:200-325 | Which operations are stored, if and only if, and exactly as what |
| `SchemaOutcomes.SavingIsExact` | internal/backendmodel/changes.go:42-88 | A saved operation comes last in the pending change, or first in a new one, if it still replays and no attempt is in progress |
| `SchemaOutcomes.UpdatingIsExact` | internal/backendmodel/changes.go:90-144 | An edited operation keeps its place |
| `SchemaOutcomes.RemovingIsExact` | internal/backendmodel/changes.go:146-198 | A removed operation leaves the others in order, and with the last one the change is discarded |
| `SchemaOutcomes.DiscardingIsExact` | internal/backendmodel/apply.go:243-276 | A change is discarded at the version expected, with its operations, while no attempt is in progress |
| `SchemaOutcomes.FailingIsExact` | internal/backendmodel/apply.go:186-224 | A failed apply marks its attempt and its active change, or, unrecorded, nothing |
| `SchemaOutcomes.RecoveringIsExact` | internal/backendmodel/service.go:116-162 | Recovery marks exactly the attempts in progress and their active changes |
| `SchemaOutcomes.CollectionIsCreatedExactly` | internal/backendmodel/service.go:226-268 | A built collection is stored unless its name is taken whatever the case, or a relation points nowhere |
| `SchemaOutcomes.InitialFieldsAreExact` | internal/backendmodel/service.go:190-295 | The fields a collection starts with, in order: the kept system fields, the given ones under new IDs, and for an Auth collection its email |
| `SchemaOutcomes.SystemFieldsAreExact` | internal/backendmodel/service.go:190-199 | The system fields that are kept |
| `SchemaOutcomes.ValuesAreExact` | internal/backendmodel/model.go:402-493 | What a field of each type accepts, as plain data |
| `SchemaOutcomes.FieldIsValidExactly` | internal/backendmodel/model.go:329-400 | Which field definitions are valid, if and only if |
| `SchemaOutcomes.FileRulesAreExact` | internal/backendmodel/file_fields.go:39-169 | Which rules a field of files may give |
| `SchemaOutcomes.IndexIsValidExactly` | internal/backendmodel/changes.go:338-365 | Which indexes are valid by themselves |
| `ExtensionOutcomes.StartupMovesExactly` | internal/extensions/hooks.go:506-541 | A service that starts has interrupted what was pending or running, and nothing else |
| `ExtensionOutcomes.ReplacementStoresItsSource` | internal/extensions/service.go:404-425 | A replacement stores the new source under the active revision, a new one exactly if the source has changed; earlier revisions are as they were |
| `ExtensionOutcomes.ActiveRevisionStoresTheSource` | internal/extensions/service.go:404-425 | In every reachable state the active revision stores the source of its extension, and every intent pins a stored revision |
| `ExtensionOutcomes.PinnedSourceStays` | internal/extensions/hooks.go:399-412 | Over any run the source an intent pins never changes |
| `ExtensionOutcomes.ReplacementRows` | internal/extensions/service.go:713-793 | The slots, aliases and origins a replacement leaves, and their IDs |
| `ExtensionOutcomes.ReplacementIsRefusedExactly` | internal/extensions/service.go:393-440 | What stands against a replacement, in the order it is looked at |
| `ExtensionOutcomes.ConfigIsValidExactly` | internal/extensions/service.go:589-668 | Which configurations are well formed: the numbers, and nothing given twice |
| `ExtensionOutcomes.EnablingIsExact` | internal/extensions/service.go:442-470 | When an extension can be turned on, and what moves |
| `ExtensionOutcomes.DisablingIsExact` | internal/extensions/service.go:472-496 | Turning an extension off cancels what is pending of it, and nothing else |
| `ExtensionOutcomes.NewValueIsExact` | internal/extensions/secrets.go:177-223 | A new value of a secret counts one version and cancels what waits for it, and nothing else |
| `ExtensionOutcomes.SecretLeavesExactly` | internal/extensions/secrets.go:225-256 | A deleted secret leaves every extension with its aliases, and what waits for it is cancelled, and nothing else |
| `ExtensionOutcomes.AppendingIsExact` | internal/extensions/hooks.go:149-235 | A new intent pins the active revision, the slot, the secrets and the grants of the holder of its slot, once for each event |
| `ExtensionOutcomes.StartingIsExact` | internal/extensions/hooks.go:399-449 | A pending intent starts, and nothing else does |
| `ExtensionOutcomes.EndingIsExact` | internal/extensions/hooks.go:467-491 | A running intent ends in the status given, a pending one may fail, and every other stays |
| `AuthOutcomes.LoginIsExact` | internal/appauth/sessions.go:40-79 | A login is recorded if and only if it presents the email and the password of its user, in a collection that lets users in, verified where it must be |
| `AuthOutcomes.SessionIsExact` | internal/appauth/sessions.go:93-136 | When the transaction opens a session, and which one |
| `AuthOutcomes.SessionsComeFromLogins` | internal/appauth/sessions.go:40-136 | In every reachable state each session goes back to a login of its user at a moment when the password presented was the user's |
| `AuthOutcomes.AuthenticationIsExact` | internal/appauth/sessions.go:183-194 | Which session may ask for a password change |
| `AuthOutcomes.CheckedChangeIsExact` | internal/appauth/sessions.go:195-207 | The present password must be the credential's own |
| `AuthOutcomes.ChangeIsExact` | internal/appauth/sessions.go:209-225 | A change that stands stores the new password under the new salt, keeps email and verification, revokes the sessions of the user and moves no other row; otherwise nothing moves |
| `AuthOutcomes.AssignmentIsExact` | internal/appauth/users.go:256-319 | An assigned password, for a user with a credential and for one without, and when it is refused |
| `AuthOutcomes.RegistrationIsExact` | internal/appauth/users.go:36-171 | Who may register, and the rows of a new user |
| `AuthOutcomes.IssueIsExact` | internal/appauth/recovery.go:116-157 | A token stands for half an hour, and is issued unless 16 were within the last hour |
| `AuthOutcomes.IssuingIsExact` | internal/appauth/recovery.go:180-224 | Whom a token is issued to |
| `AuthOutcomes.ConfirmationIsExact` | internal/appauth/recovery.go:273-343 | When a token confirms, and the rows after it |
| `AuthOutcomes.RevocationIsExact` | internal/appauth/sessions.go:304-352 | Revoking ends one session, or all of a user, and nothing else |
| `AuthOutcomes.TokensAreRead` | internal/appauth/recovery.go:247-260 | A text gives a token exactly if it is one, with white space around it |

## Left out

- HTTP handlers, the command line, the admin interface, paging, audits, activity feeds, drift reports and summaries: no deep property.
- Sending requests, address safety, signatures, encryption, key derivation and the script engine: the outcome of an attempt or a run is arbitrary, so it is what the methods about it are given.
- SQL text. The program compares instants as RFC 3339 text with trailing zeros trimmed, whose order can differ from time order within a second; the model compares times.
- A commit whose result the caller does not learn. The guarded updates of finishing an attempt then differ, because the delivery is guarded by its status alone.
- The retry loop around recording an outcome: its waits and log lines; its effect is the finishing step, or dropping the claim once the service is closed.
- The in-memory registries that cancel a delivery or an extension call already in flight when its configuration changes.
- Deleting a collection, which drops rows of several parts at once.
- Event hooks and test deliveries are deliveries with their source; the hooks' own rows and the forming of payloads are not modelled.
- Names and descriptions of webhooks, jobs, extensions and secrets, with their length rules and unique names; target addresses are texts.
- Deliveries.Delivery: the last HTTP status, the durations and the timestamps of rounds and attempts, which decide nothing.
- Cron.Next: the zero time that means none is an option here.
- Jobs.JobStep: an edit reads its clock and writes in one step; the earlier reading is treated by `Jobs.StaleReplaceKeeps`. A stored expression is kept parsed, which `Cron.FieldIsDetermined` justifies.
- Jobs.SlotIntent: the payload of a scheduled or manual run names the job only.
- SchemaModel.Raw: the text of a rule or a default is taken without white space, as it is stored.
- SchemaModel.FileRulesOk: whole numbers spelled with a fraction or an exponent are taken as whole.
- SchemaModel.Lower: case folding is ASCII, as in every name the validator accepts; a collection's own name folds as the database does.
- SchemaChanges.Recover: recovery happens at startup only. Called during an apply it would interrupt an attempt whose second transaction does not look again.
- SchemaChanges.Change: the status `needsReview` is read but never written by the program, so the model has no such status; operation kinds other than field, relation and index are not values here.
- SchemaValues.UnblockedChangeFits: the stored value is the column before the records are copied into the new table, which can convert it to the new column's affinity.
- SchemaValues.StoreDefault: what the database driver does with a value it accepts.
- Extensions.Append: the record values an intent is about. An intent keeps its run's status under the intent's ID; the runs of Before hooks are kept apart, under their own.
- Extensions.ValidConfig: patterns for names, aliases and origins, and whether the source compiles.
- AppAuth.Token: a row is named by the text of its token, where the program keeps an ID and a digest of the text, taken to be one to one; rows of one instant are ordered by that name.
- AppAuth.Issue: the mail that carries the token, and the audit; mail is taken to be configured.
- AppAuth.Authenticate: the session is read once, where the program reads it twice; the earlier reading looks for no more than the later one.
- AppAuth.Register: what registering looks up before its transaction is looked up in it again, and only there here. Addresses are taken as normalised.
- AppAuth.BeginLogin: the projection of the collection is read with the snapshot instead of just after it.
