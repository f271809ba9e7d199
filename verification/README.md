# A verified model of the datastore

The datastore is event-sourced: write requests become events, events are folded into models, and
migrations rewrite the history of events. This project models its three cores and their composition
in Dafny, and proves what they promise each other.

* **The migration engine** rewrites the history position by position and index by index, between
  keyframes. The unstated invariant that makes its order of creating, moving and deleting keyframes
  work is `Staircase.IsStaircase`: with effective indices counted by position and the base index after
  the last one, the keyframes stored are exactly the stairs between neighbouring positions
  (`Staircase.EngineOk` has the rest of the invariant). `EventMigrations.Evs` and `ModelsAt` define
  the events and models at every index from the base events alone; the engine is proved against them.
* **The write path** keeps the `models` table equal to the replay of `events`, the lock index equal to
  the relation "this event modifies this field", and the id sequences above all ids
  (`Backend.StoreOk`).
* **Optimistic locking** decides from the lock index whether what a request read is still current
  (`OccLockers.LocksHold`). Filters are compiled to text with positional arguments; the text is parsed
  and evaluated in three-valued logic to prove that it means what the filter means.
* `Datastores.DatastoreOk` is the conjunction. `States.Effect` says what each command does to the state
  of all tables, `Systems.Datastore.Run` that any sequence of commands is a chain of such effects that
  keeps the invariants, and `Runs` what follows for ids, positions, reads and locks.
* `Readers` proves that reads at a position, reads without one and the replay agree.

## Reading guide

Tables are fields of the class `Tables.Database`, each query is what it means on that field, and a
transaction is a method that puts the fields back on an error. Ghost fields record the history of
events, the migrations the tables were made with, and the position from which the lock index is
complete. Rows of `events` and `migration_events` are keyed by their serial id, so that the in-place
diff of a migrated position is modelled as it is. Keyframes are keyed by position and index, links by
event id and collectionfield, which are unique in the schema.

Migrations are deterministic functions of the event, its position, the status of the models, the
events before it and the contents of the two accessors; they may raise. Model migrations are functions
of the models. How the database compares two values is a parameter.

| file | contents |
|---|---|
| `Types`, `ListFields`, `Replay` | values and events, list updates, the replay of events |
| `Tables`, `Keyframes`, `EventMigrations`, `EventMigrationRun` | tables, keyframes, one migration on one position |
| `Staircase`, `EventMigraters` | the invariant of the engine, the engine |
| `Simulations`, `FieldMigrations`, `DroppedEvents` | event-wise migrations: no change, renaming, removing fields; the dropping of empty events |
| `DbEvents`, `WriteLaws`, `RequestLaws`, `Batches`, `LockIndex`, `Backend` | translation of requests, inserting events, the lock index, ids |
| `Filters`, `WriteRequests`, `LockQueries`, `LockLaws`, `OccLockers`, `Trimming`, `LockLimits`, `IndexedHistories`, `FilteredLocks` | filter compiler, locks, lock queries, trimming, where verdicts differ from what was locked |
| `Datastores`, `ReadDatabases`, `PositionFree`, `Writers` | the joint invariant, the writer service |
| `Registration`, `Finalizing`, `MigrationHandlers`, `MemoryMigration` | the migration commands, imports in memory |
| `History`, `MappedFieldsRequests`, `Readers` | reading, now and at earlier positions |
| `Reservations`, `States`, `Systems`, `Runs`, `ReusedIds` | reserved ids, the effect of each command, the datastore, what holds of all runs |

## Where the code falls short of its description

* The lock query for fields of models checks every lock on a model with the smallest of its positions,
  so a lock that holds may be reported. The verdict is the one at the field's own position, whatever
  the datastore, if and only if that is the smallest (`LockLimits.OwnVerdictAtSmallest`).
* Below the positions that were trimmed, or cleared by finalising, a lock on a field may pass although
  the field was changed: exactly if it was last modified between the lock and the start of the index
  (`LockLimits.ExpiredPassesWhen`, with a case in `ExpiredLockPasses`). From there on verdicts are exact.
* A filtered lock looks at the models that match its filter now, so a model that was changed out of the
  filter goes unreported. A request is safe from that, in every datastore, if and only if no model can
  leave the filter without a change to a field that is locked on the whole collection too
  (`FilteredLocks.ProtectsUnlessLeft`); it is enough to lock all fields the filter names.
* An all-empty list update is dropped by every migration although it may create an empty list or turn
  a text into a list, so a migration that is to change nothing can lose a field
  (`DroppedEvents.EmptyListIsLost`). It does not, throughout a history, if and only if every dropped
  update finds the fields of its addition and lists in those of its removal
  (`DroppedEvents.NoopKeepsExactly`).
* A filter with an empty list of parts compiles to text that the database cannot read
  (`Filters.CompiledMeans`), so a lock with it fails instead of being checked.
* Finalising rebuilds the id sequences from the models, so ids that were reserved but not used may be
  handed out again (`ReusedIds.HandOutTwice`). Reservations survive if and only if a model of the
  collection has their last id or a higher one (`Reservations.ReservationsSurvive`); `Systems` keeps
  those, and proves all later ones disjoint from them.

## Model

| member | source | states |
|---|---|---|
| ListFields.ApplyFields | datastore/shared/postgresql_backend/apply_list_updates.py:9-34 | the two loops compute, for each named field that the model has or that is added to, additions first and removals on the result; an error exactly when a value is no list where one is needed |
| ListFields.AppliedDependsOnNamedFields | datastore/shared/postgresql_backend/apply_list_updates.py:9-34 | a list update gives the same on any two models that agree on the fields it names: why it may be precomputed |
| ListFields.ListUpdateMeans | datastore/shared/postgresql_backend/apply_list_updates.py:9-34 | the old list stays in front of the new elements, which are those of the addition that were not in it; a removal then takes out of both, unless the model did not have the field |
| ListFields.WithoutInOrder | datastore/shared/postgresql_backend/apply_list_updates.py:9-34 | what is kept of a list keeps its order and its repetitions |
| ListFields.ListUpdateFails | datastore/shared/postgresql_backend/apply_list_updates.py:9-34 | a list update fails exactly where the model holds no list in a field that is added to, or neither a list nor a text in one that is only removed from |
| ListFields.TextUpdateMeans | datastore/shared/postgresql_backend/apply_list_updates.py:22-34 | removing from a text leaves the list of its other characters |
| Replay.StepKeepsRowOk | datastore/migrations/core/migration_keyframes.py:131-191 | every event leaves a row whose meta fields are the position and the deleted flag, and the row is deleted exactly after a delete event |
| Replay.StepIsTimeless | datastore/migrations/core/migration_keyframes.py:131-191 | the meta position aside, the outcome of an event depends on the visible fields only |
| Replay.FieldAfterStep | datastore/migrations/core/migration_keyframes.py:131-191 | which rows each kind of event needs, and what every non-reserved field of the model holds after it |
| Replay.StepAccepts | datastore/migrations/core/migration_keyframes.py:131-191 | an event can be applied exactly if it names no reserved field and gives no null, its model is missing, deleted or neither as it needs it, and lists are where it needs them |
| Replay.CreatesFirstKeepsReplay | datastore/migrations/core/base_migrations/base_event_migration.py:104-117 | bringing the create events of a position to the front does not change what it replays to, whenever it replays at all |
| Replay.CreatesInOrder | datastore/migrations/core/base_migrations/base_event_migration.py:104-117 | create events keep their order |
| Replay.OthersInOrder | datastore/migrations/core/base_migrations/base_event_migration.py:104-117 | and so do all others |
| Replay.HistoryHasModel | datastore/writer/postgresql_backend/sql_database_backend_service.py:162-175 | whatever had an event keeps a row for ever, so joins of events with models lose nothing |
| EventMigrations.MigrateEventsReplays | datastore/migrations/core/base_migrations/base_event_migration.py:42-90 | after a migration the old accessor holds the replay of the given events and the new one that of the returned events |
| EventMigrations.MigratesAsAsked | datastore/migrations/core/base_migrations/base_event_migration.py:42-90 | a position is migrated exactly if every event of the queue gets an answer from the migration when that sees the events before it, the old models as they left them and the new models as the answers before left them, and in the end additional events when it sees all old and all new models; the result is what is kept of the answers, in order, and then the additional events |
| EventMigrations.FailsAsAsked | datastore/migrations/core/base_migrations/base_event_migration.py:42-90 | otherwise the error is that of the first event that is malformed, makes the migration raise, or cannot be applied with its answer, or of the additional events |
| EventMigrations.ChainAsks | datastore/migrations/core/migraters/event_migrater.py:129-179 | in a chain of migrations each one is asked like that about the events of the index below, with the models of both indices before the position |
| EventMigrations.SourceFrame | datastore/migrations/core/migraters/event_migrater.py:45-127 | events and models at an index up to a position are unaffected by later positions and by other migrations above that index |
| EventMigrations.StepUp | datastore/migrations/core/migraters/event_migrater.py:129-179 | one index step of one position yields the events, the old and the new models that the chain from the base events prescribes, or its error |
| EventMigrationRun.OrderEvents | datastore/migrations/core/base_migrations/base_event_migration.py:104-117 | the ordered events are the creates in order, then all others in order |
| EventMigrationRun.SetModelStatus | datastore/migrations/core/base_migrations/base_event_migration.py:92-102 | a model has the delete status exactly if one of the events deletes it, and the create status exactly if one creates it and none deletes it |
| EventMigrations.StatusMeans | datastore/migrations/core/base_migrations/base_event_migration.py:92-102 | the same for the status as it is used in the chain of migrations: a delete is never overwritten |
| EventMigrationRun.ApplyAll | datastore/migrations/core/base_migrations/base_event_migration.py:66-90 | events applied to an accessor of any kind do to its contents what the replay does, up to the first error |
| EventMigrationRun.MigrateEvent | datastore/migrations/core/base_migrations/base_event_migration.py:66-80 | one event is translated, cleared of empty events, and applied to both accessors, with the first error |
| EventMigrationRun.RunMigration | datastore/migrations/core/base_migrations/base_event_migration.py:42-90 | the whole migration of a position through two accessors of any kind has the outcome of its function on the two contents, so that on success the events are what the migration answered when asked with the old and new models of each moment |
| Keyframes.KeyframeModifier.FetchModel | datastore/migrations/core/migration_keyframes.py:342-354 | initial, persistent and overlay keyframes all answer a lookup with their contents |
| Keyframes.KeyframeModifier.PutModel | datastore/migrations/core/migration_keyframes.py:356-387 | a write changes the contents by that row; only a persistent keyframe writes to the table |
| Keyframes.KeyframeModifier.ApplyEvent | datastore/migrations/core/migration_keyframes.py:131-191 | on any kind of keyframe an event does to the contents what the replay does, with the same errors; the overlay leaves the stored keyframe untouched |
| Keyframes.KeyframeModifier.MoveToNextPosition | datastore/migrations/core/migration_keyframes.py:389-406 | the contents go to the next position unless a keyframe is there, the old copy goes, and an overlay refuses |
| Staircase.AppendKeepsEngine | datastore/migrations/core/migraters/event_migrater.py:57-66 | a position appended between runs leaves staircase, keyframe contents and migrated events right |
| Staircase.OtherMigrationsKeepEngine | datastore/migrations/core/migration_handler.py:128-136 | so does registering other migrations, as long as used ones stay at their indices |
| Staircase.CascadeEqualsOneShot | datastore/migrations/core/migraters/event_migrater.py:45-127 | two runs over one base, however interrupted, resumed or extended, hold the same events and the same keyframes wherever they reached the same index |
| EventMigraters.SteppedFramesAreMid | datastore/migrations/core/migration_keyframes.py:389-406 | an index step consumes the stair before the position from below and grows the one after it, and every keyframe is the replay at its index |
| EventMigraters.StepPlan | datastore/migrations/core/migraters/event_migrater.py:140-179 | the keyframes an index step needs are there; what the step yields is the next index of the chain |
| EventMigraters.PositionDone | datastore/migrations/core/migraters/event_migrater.py:181-186 | with the target index set, a migrated position satisfies the invariant of the engine again |
| EventMigraters.MinMigratedBelow | datastore/migrations/core/migraters/event_migrater.py:53-56 | the least migrated position with an index below the target |
| EventMigraters.MaxMigrated | datastore/migrations/core/migraters/event_migrater.py:57-62 | the greatest migrated position |
| EventMigraters.EventMigrater.OverwriteRows | datastore/migrations/core/migraters/event_migrater.py:247-260 | the common part of the old rows becomes the new events with weights 1, 2, ...; other rows stay |
| EventMigraters.EventMigrater.WriteNewEvents | datastore/migrations/core/migraters/event_migrater.py:236-284 | after the diff the position holds exactly the new events in order, whatever order the old ids came in; no other position is touched |
| EventMigraters.EventMigrater.GetAccessors | datastore/migrations/core/migraters/event_migrater.py:197-234 | initial accessors before the first position, else the stored keyframes, the new one as an overlay below the target; an error exactly if a keyframe is missing |
| EventMigraters.EventMigrater.MoveKeyframes | datastore/migrations/core/migraters/event_migrater.py:176-179 | the old accessor moves on, the new one only at the last index |
| EventMigraters.EventMigrater.MigrateIndex | datastore/migrations/core/migraters/event_migrater.py:140-179 | one index step: events of the position, keyframes and error are those of the migration on the two keyframes before it |
| EventMigraters.EventMigrater.MigrateToNextIndex | datastore/migrations/core/migraters/event_migrater.py:136-179 | the same within the invariant: events are read from the right table, and those of the next index of the chain are left behind |
| EventMigraters.EventMigrater.MigratePosition | datastore/migrations/core/migraters/event_migrater.py:129-186 | a position is brought to the target exactly if the chain from its base events has models there; then the engine invariant holds |
| EventMigraters.EventMigrater.FirstToMigrate | datastore/migrations/core/migraters/event_migrater.py:49-66 | everything before the chosen start is at the target, and the start is below it unless nothing is left |
| EventMigraters.EventMigrater.CheckIndices | datastore/migrations/core/migraters/event_migrater.py:98-103 | the check for invalid indices cannot fail |
| EventMigraters.EventMigrater.MigrateInTransaction | datastore/migrations/core/migraters/event_migrater.py:105-127 | a position gets to the target, or keyframes, migration events and migrated positions are as they were and the error is that of the chain; the engine invariant holds either way |
| EventMigraters.EventMigrater.Migrate | datastore/migrations/core/migraters/event_migrater.py:45-127 | a run, stopped anywhere, keeps the engine invariant, brings a prefix of the positions to the target and leaves the others at their indices; it fails only with the error of the chain at the next position, or by an interruption after exactly the given number of transactions from the first position below the target, so the missing-keyframe, invalid-index and rising-index errors cannot occur |
| Simulations.MigrationSimulates | datastore/migrations/core/base_migrations/base_event_migration.py:42-90 | a migration that translates events one by one keeps its relation between original and migrated models at every position, if each single step does |
| FieldMigrations.NoopKeepsModels | datastore/migrations/core/base_migrations/base_event_migration.py:42-134 | without empty events, any migration that answers None, or the event itself, to everything leaves every model at every position unchanged |
| FieldMigrations.NoopsKeepModels | datastore/migrations/core/base_migrations/base_event_migration.py:42-134 | so does any number of them in a row |
| FieldMigrations.DroppedListUpdate | datastore/migrations/core/base_migrations/base_event_migration.py:119-134 | an all-empty list update, which the engine drops, leaves a row the same up to its meta position exactly if the model has all fields of the addition and no field of the removal holds a text |
| DroppedEvents.NoopKeepsExactly | datastore/migrations/core/base_migrations/base_event_migration.py:42-134 | a migration that answers None, or the event itself, to everything leaves the models the same after every event of a history, up to meta positions, if and only if every empty event it drops goes unnoticed on the model as it was |
| DroppedEvents.NoopsKeepExactly | datastore/migrations/core/base_migrations/base_event_migration.py:42-134 | so does any number of them in a row, the later ones having nothing left to drop |
| DroppedEvents.NoopMeans | datastore/migrations/core/base_migrations/base_event_migration.py:119-134 | an event is dropped as empty exactly if it changes no model at all that has lists where it needs them; creates, deletes and restores never are |
| DroppedEvents.EmptyListIsLost | datastore/migrations/core/base_migrations/base_event_migration.py:119-134 | that condition can fail: an empty list is in the model before the migration and missing after it |
| FieldMigrations.Modify | datastore/migrations/migrations/rename_field_migration.py:24-27 | the value of the old field is under the new one, the old one is gone, all other fields read as before; without the old field nothing changes |
| FieldMigrations.RenamedBack | datastore/migrations/migrations/rename_field_migration.py:24-27 | renaming back restores the dictionary exactly if it had no field with the new name |
| FieldMigrations.RenameEvent | datastore/migrations/migrations/rename_field_migration.py:29-49 | the renamed event for every event of the collection, no answer for other collections or events without fields |
| FieldMigrations.RenamedFieldsMean | datastore/migrations/migrations/rename_field_migration.py:29-49 | in a deletion of fields, one occurrence of the old name goes and the new one comes last |
| FieldMigrations.RenameCommutes | datastore/migrations/migrations/rename_field_migration.py:24-49 | if the new name is unused in the collection and the original history has no empty event, in any collection, the models of the renamed events are the renamed models, at every position |
| FieldMigrations.RemoveFields | datastore/migrations/migrations/remove_fields_migration.py:22-25 | the listed fields are gone from a dictionary, others stay |
| FieldMigrations.TrimEvent | datastore/migrations/migrations/remove_fields_migration.py:27-48 | the event without the listed fields, for each kind of event of a listed collection |
| FieldMigrations.RemoveEachMeans | datastore/migrations/migrations/remove_fields_migration.py:27-48 | each of the listed fields goes once from a list of fields |
| FieldMigrations.RemoveCommutes | datastore/migrations/migrations/remove_fields_migration.py:22-48 | the models of the trimmed events are the models without the fields, with the same deleted flag, and a meta position that never exceeds the original |
| DbEvents.MakeCreate | datastore/writer/core/write_request.py:51-63 | accepted exactly if no kept field is reserved; the request then holds exactly the non-null values given |
| DbEvents.MakeUpdate | datastore/writer/core/write_request.py:66-91 | accepted exactly if some field is given, none both as a value and in a list update, and none reserved, with the error of the check that fails |
| DbEvents.CreateUpdateEvents | datastore/writer/postgresql_backend/event_translator.py:83-117 | values, then deleted fields, then the list update, all against one model; fails on lists that cannot be updated |
| WriteLaws.UpdateFaithful | datastore/writer/postgresql_backend/event_translator.py:83-117 | although the list update is computed on the model before the values of the same request are applied, every event does to the row what its replay does and names just the fields it modifies; this rests on the disjointness check |
| WriteLaws.TranslateFaithful | datastore/writer/postgresql_backend/event_translator.py:46-81 | a request event is translated exactly if it is legal on the row it is about, into at least one event, a create, delete or restore into just that, and the events replay as the writer predicts |
| WriteLaws.WriteMirrors | datastore/writer/postgresql_backend/db_events.py:120-133 | the fetched models stay the data of the replayed rows |
| WriteLaws.WrittenBack | datastore/writer/postgresql_backend/sql_database_backend_service.py:162-175 | writing the fetched models back gives the replayed table |
| WriteLaws.UpdateMeans | datastore/writer/core/write_request.py:81-86 | after an update request each field reads its value, nothing if it was null, the changed list computed from the model before, or what it read before |
| WriteLaws.FaithfulReplay | datastore/writer/postgresql_backend/db_events.py:120-133 | replaying the events of a request event changes the row of its model alone, as the writer predicts |
| WriteLaws.UpdateRequestMeans | datastore/writer/postgresql_backend/event_translator.py:83-117 | the two together, in terms of all models |
| RequestLaws.RefusalMeans | datastore/writer/postgresql_backend/event_translator.py:46-81 | which request events are refused, and with which error: a create of an existing model, an update or delete of a missing or deleted one, a restore of one that is not deleted, a list update of a field that holds something else than a list of texts and numbers |
| RequestLaws.CreateRequestMeans | datastore/writer/postgresql_backend/event_translator.py:46-50 | after a create the model holds exactly the values given and is not deleted; no other model changes |
| RequestLaws.DeleteRequestMeans | datastore/writer/postgresql_backend/event_translator.py:57-60 | after a delete the model is deleted and holds what it held; no other model changes |
| RequestLaws.RestoreRequestMeans | datastore/writer/postgresql_backend/event_translator.py:62-65 | after a restore the model is there again with what it held; no other model changes |
| RequestLaws.UpdatedValue | datastore/writer/postgresql_backend/event_translator.py:83-117 | after an update each field given a value has it, or is gone if that is null |
| RequestLaws.UpdatedList | datastore/writer/postgresql_backend/event_translator.py:83-117 | each updated list has the new elements behind those the model had before the request, and none of those to be removed |
| RequestLaws.UnnamedStays | datastore/writer/postgresql_backend/event_translator.py:83-117 | every other field reads as before |
| RequestLaws.UpdateEventsMean | datastore/writer/postgresql_backend/event_translator.py:83-117 | the events of an update in their order: the non-null values, the fields given as null, the list update as it was given |
| Batches.RecordFields | datastore/writer/postgresql_backend/sql_database_backend_service.py:98-104 | the index of the event is appended to each collectionfield it modifies |
| Batches.AddEvent | datastore/writer/postgresql_backend/sql_database_backend_service.py:82-111 | models, greatest ids and event indices gathered so far are those of the replayed events; an index is recorded exactly for the fields an event modifies, each once |
| Backend.DatabaseBackend.CreatePosition | datastore/writer/postgresql_backend/sql_database_backend_service.py:128-139 | a greater position than any before, with the index; gaps are allowed |
| Backend.DatabaseBackend.TranslateOne | datastore/writer/postgresql_backend/sql_database_backend_service.py:79-111 | a request event is taken over exactly if it is legal on the models so far, or refused with its error |
| Backend.DatabaseBackend.TranslateAll | datastore/writer/postgresql_backend/sql_database_backend_service.py:76-111 | succeeds exactly if every request event is legal on the replay of those before it; otherwise with the error of the first that is not |
| Backend.DatabaseBackend.UpdateIdSequences | datastore/writer/postgresql_backend/sql_database_backend_service.py:197-205 | each sequence becomes the greatest of its old and its new value, and is above every id of its collection |
| Backend.DatabaseBackend.WriteModelUpdates | datastore/writer/postgresql_backend/sql_database_backend_service.py:162-175 | the fetched models replace their rows, with the deleted flag of their data |
| Backend.DatabaseBackend.WriteEvents | datastore/writer/postgresql_backend/sql_database_backend_service.py:207-212 | the events get new ids in their order, and weights from 1 |
| Backend.DatabaseBackend.InsertModifiedCollectionfields | datastore/writer/postgresql_backend/sql_database_backend_service.py:220-245 | each modified collectionfield gets the position |
| Backend.DatabaseBackend.ConnectEvents | datastore/writer/postgresql_backend/sql_database_backend_service.py:247-266 | an event is linked to a collectionfield exactly if it was recorded for it; no pair twice |
| Backend.DatabaseBackend.WriteBatch | datastore/writer/postgresql_backend/sql_database_backend_service.py:113-126 | models table, events, sequences and lock index are again what the longer history says |
| Backend.DatabaseBackend.InsertEvents | datastore/writer/postgresql_backend/sql_database_backend_service.py:52-126 | succeeds exactly on legal requests, appends one position with their events, and keeps: models equal the replay, every link right and none missing, positions of collectionfields maximal, sequences above ids |
| Backend.DatabaseBackend.ReserveNextIds | datastore/writer/postgresql_backend/sql_database_backend_service.py:271-288 | consecutive ids from the old sequence on, or from 1, of the asked number and above every id of an existing model; the sequence goes on behind them; refused exactly for a bad amount or collection length |
| LockIndex.AppendKeepsIndex | datastore/writer/postgresql_backend/sql_database_backend_service.py:98-125 | after a write, links and collectionfield positions describe the longer history: a link iff the event modifies the field, the position maximal |
| LockIndex.TouchedMeans | datastore/writer/postgresql_backend/db_events.py:25-117 | which fields an event counts as modifying: those it names, removals only where the model has the field, and all fields of a model that is deleted or restored |
| LockIndex.EmptyIndex | datastore/migrations/core/migration_handler.py:335-339 | cleared tables are right, and complete from the last position on |
| LockLaws.UntouchedAcross | datastore/writer/postgresql_backend/db_events.py:25-117 | a non-reserved field that no event modifies between two positions reads the same at both, deleted or absent reading as nothing |
| LockLaws.FqfieldVerdict | datastore/writer/postgresql_backend/sql_occ_locker_backend_service.py:70-101 | from the start of the lock index on, the verdict on a field of a model is whether the history modified it later |
| LockLaws.CollectionFieldVerdict | datastore/writer/postgresql_backend/sql_occ_locker_backend_service.py:114-123 | likewise for a plain lock on a collectionfield |
| LockLaws.FqidLockHolds | datastore/writer/postgresql_backend/sql_occ_locker_backend_service.py:42-58 | an unbroken lock on a model: its row is what it was at the position |
| LockLaws.FqfieldLockHolds | datastore/writer/postgresql_backend/sql_occ_locker_backend_service.py:60-103 | an unbroken lock on a field of a model: the field reads what it read |
| LockLaws.CollectionFieldLockHolds | datastore/writer/postgresql_backend/sql_occ_locker_backend_service.py:105-123 | an unbroken plain lock on a collectionfield: the field reads the same on every model of the collection |
| LockLaws.FilteredLockHolds | datastore/writer/postgresql_backend/sql_occ_locker_backend_service.py:123-143 | an unbroken filtered lock: the same on every model that matches the filter now |
| FilteredLocks.ProtectsUnlessLeft | datastore/writer/postgresql_backend/sql_occ_locker_backend_service.py:123-143 | for every request with a filtered lock beside plain ones: in every datastore that accepts it, the locked field is unmodified on all models that matched when the lock was taken, if and only if no data can be changed from matching to not matching without changing a field that is locked on the whole collection too |
| FilteredLocks.ProtectedReadsSame | datastore/writer/postgresql_backend/sql_occ_locker_backend_service.py:123-143 | in that case the field of each of them reads what it read |
| FilteredLocks.LockedNamesProtect | datastore/writer/postgresql_backend/sql_occ_locker_backend_service.py:123-143 | locking every field that the filter names on the whole collection as well is enough for that |
| FilteredLocks.ComparisonIsLeft | datastore/writer/postgresql_backend/sql_occ_locker_backend_service.py:123-143 | for a filter that is a single comparison it is also necessary, unless no value fulfils the comparison |
| FilteredLocks.LeavingIsMissed | datastore/writer/postgresql_backend/sql_occ_locker_backend_service.py:123-143 | otherwise there is a datastore that accepts the request although the field was modified on a model that matched |
| IndexedHistories.Indexable | datastore/writer/postgresql_backend/sql_database_backend_service.py:98-126 | every history that replays is that of a datastore whose lock index covers all of it |
| Filters.BuildFilterStr | datastore/shared/postgresql_backend/sql_query_helper.py:108-147 | text and appended arguments are those of the recursive compilation; an error exactly if None is compared with something other than = or != |
| Filters.ParseCompiled | datastore/shared/postgresql_backend/sql_query_helper.py:108-147 | the text parses back to the tree of the filter and takes exactly its own arguments, also in front of further text and arguments |
| Filters.EmptyListFails | datastore/shared/postgresql_backend/sql_query_helper.py:116-125 | a filter with an empty and/or list becomes text that is no condition |
| Filters.TreeMeans | datastore/shared/postgresql_backend/sql_query_helper.py:108-147 | the parsed tree has the three-valued meaning of the filter: all parts, some part, or the contrary |
| Filters.CompiledMeans | datastore/shared/postgresql_backend/sql_query_helper.py:108-147 | the database can read the compiled text exactly if no list is empty; it then has the meaning of the filter and uses up just the appended arguments |
| Filters.SaysIsMeaning | datastore/shared/postgresql_backend/sql_query_helper.py:126-147 | on the data of a model, a comparison with None asks whether the field has a value, any other one is unknown without a value and else compares it by its operator; the compiled conditions say just that, for whole filters |
| Filters.ComparisonMeans | datastore/shared/postgresql_backend/sql_query_helper.py:126-147 | what each single comparison says once compiled: with None whether the field has a value, = and != a comparison of texts, < > <= >= one of numbers, and ~= and %= their own; unknown without a value |
| Filters.SaysReads | datastore/shared/postgresql_backend/sql_query_helper.py:108-147 | a filter reads nothing but the fields it names |
| Filters.DecidableIsKnown | datastore/shared/postgresql_backend/sql_query_helper.py:126-147 | a filter whose comparisons are all with None or with fields that have a value is never unknown, so that its contrary selects just the other models |
| WriteRequests.HandleSingleKey | datastore/writer/core/write_request.py:129-161 | each kind of lock goes to its dictionary, with all locks of a list; positions must be positive, filters are for collectionfields; an empty list of locks leaves no entry |
| WriteRequests.Make | datastore/writer/core/write_request.py:105-127 | accepted exactly if there are events, all positions are positive and only collectionfields have filtered locks; every lock given is in its dictionary as it was given, all of a list and in its order, and nothing else is |
| LockQueries.ParseCondition | datastore/writer/postgresql_backend/sql_occ_locker_backend_service.py:124-142 | a lock condition with a spliced filter parses to position, collectionfield and filter, taking just its own arguments; it cannot be read iff the filter has an empty list |
| LockQueries.LocksMean | datastore/writer/postgresql_backend/sql_occ_locker_backend_service.py:144-155 | the joined condition is true of a row exactly if one of the locks demands the row |
| LockQueries.LocksSelect | datastore/writer/postgresql_backend/sql_occ_locker_backend_service.py:111-156 | the where clause as written can be read exactly if all filters can, and selects just the rows one of the locks demands |
| OccLockers.OccLocker.GetLockedFqids | datastore/writer/postgresql_backend/sql_occ_locker_backend_service.py:42-58 | exactly the locked models with an event after their position |
| OccLockers.OccLocker.GetLockedFqfields | datastore/writer/postgresql_backend/sql_occ_locker_backend_service.py:60-103 | exactly the locked fields modified by an event on their model after some position locked for that model |
| OccLockers.OccLocker.GetLockedCollectionfields | datastore/writer/postgresql_backend/sql_occ_locker_backend_service.py:105-156 | exactly the broken locks, plain ones unaffected by the joins for filtered ones; an error exactly if a filter cannot be compiled or read |
| OccLockers.OccLocker.AssertLockedFields | datastore/writer/postgresql_backend/sql_occ_locker_backend_service.py:31-40 | passes exactly if no lock is broken; otherwise the error names exactly the broken ones, or says that a filter cannot be compiled or read |
| OccLockers.VerdictMeans | datastore/writer/postgresql_backend/sql_occ_locker_backend_service.py:31-40 | a filter that cannot be compiled or read decides before all locks, with its error; otherwise no lock is broken, or the error names exactly the broken ones |
| OccLockers.AcceptedLocksHold | datastore/writer/postgresql_backend/sql_occ_locker_backend_service.py:31-40 | no stale lock is accepted: what was read at the locked positions is what is there now, on models, fields, collections and filtered collections, for field locks not older than the lock index |
| LockLimits.ReportedAtSmallest | datastore/writer/postgresql_backend/sql_occ_locker_backend_service.py:70-101 | a locked field is reported exactly if it was modified after the smallest position locked for its model, so no broken lock is missed |
| LockLimits.OwnVerdictAtSmallest | datastore/writer/postgresql_backend/sql_occ_locker_backend_service.py:70-101 | the verdict on a locked field is the one at its own position, in every datastore, if and only if that position is the smallest locked for the model |
| LockLimits.ReportedTooEarly | datastore/writer/postgresql_backend/sql_occ_locker_backend_service.py:70-101 | otherwise there is such a datastore, with one created model: the lock holds and is reported |
| LockLimits.CurrentLocksPass | datastore/writer/postgresql_backend/sql_occ_locker_backend_service.py:31-40 | a request whose locks are all at the last position passes the lock check, in every datastore |
| LockLimits.CurrentIsTaken | datastore/writer/core/writer_service.py:74-102 | so that, unless it gives an index to a datastore in use, only its events decide whether it is written |
| LockLimits.BrokenIsRefused | datastore/writer/core/writer_service.py:74-102 | a broken lock refuses a request whatever its events are; the error names it, and broken locks only |
| Trimming.TrimmedIndex | cli/trim_collectionfield_tables.py:21-43 | trimming leaves the index right, and complete from the last trimmed position on |
| Trimming.Trim | cli/trim_collectionfield_tables.py:21-43 | exactly the rows of expired positions go, links of a deleted collectionfield by cascade, and all invariants stay |
| Trimming.TrimKeepsVerdicts | datastore/writer/postgresql_backend/sql_occ_locker_backend_service.py:31-40 | two datastores with one history give the same verdict on every kind of lock at or after all trimmed positions, whenever they were trimmed |
| LockLimits.ExpiredVerdicts | cli/trim_collectionfield_tables.py:21-43 | a lock older than a trimmed index is judged as one at the start of the index, for fields of models, collectionfields and filtered locks |
| LockLimits.ExpiredPassesWhen | cli/trim_collectionfield_tables.py:21-43 | so it passes although the field was modified exactly if the last modification is after the lock, but not after the start of the index |
| LockLimits.TrimmedLinksAfter | cli/trim_collectionfield_tables.py:21-43 | trimming all positions up to some point leaves no link at or before it, which is the state these laws are about |
| LockLimits.InsertKeepsLinksAfter | datastore/writer/postgresql_backend/sql_database_backend_service.py:247-266 | later writes keep that state |
| LockLimits.ExpiredLockPasses | cli/trim_collectionfield_tables.py:21-43 | that case occurs, for a model of any collection |
| Datastores.AppendKeepsMigration | datastore/writer/core/writer_service.py:91-100 | a write between migration runs leaves the migration tables right |
| Datastores.AdoptMigrations | datastore/migrations/core/migration_handler.py:88-126 | registering further migrations leaves them right, too |
| ReadDatabases.ReadDatabase.GetCurrentMigrationIndex | datastore/shared/postgresql_backend/sql_read_database_backend_service.py:373-382 | the index all positions share, -1 for an empty datastore, an error if they differ |
| Writers.WriterService.WriteInContext | datastore/writer/core/writer_service.py:74-102 | succeeds exactly if the index may be given, no lock is broken and all events are legal, and otherwise fails with the error of the first of these checks, the first illegal event deciding among events; then one position more holds the events |
| Writers.WriterService.Insert | datastore/writer/core/writer_service.py:91-102 | succeeds exactly if every event is legal on those before it, else with the error of the first that is not; keeps all invariants of the datastore |
| Writers.WriterService.WriteAll | datastore/writer/core/writer_service.py:37-44 | succeeds exactly if no request is refused by what those before it leave, at the positions the database hands out in this transaction; otherwise the error is that of the first refused one. Each request finds what it had locked unchanged, including by the requests before it in the batch |
| Writers.WriterService.Write | datastore/writer/core/writer_service.py:29-44 | all requests or none, by the same condition and with the same error: on an error every table is as before, and the invariants hold either way |
| Writers.FirstDecides | datastore/writer/core/writer_service.py:37-44 | if the first request is refused by the datastore as it is, that is the error of the batch; a single request that is not refused is written |
| PositionFree.AnyPosition | datastore/writer/postgresql_backend/sql_database_backend_service.py:52-111 | whether request events are legal, what they become and how they are refused does not depend on the position they get |
| Registration.SortSorts | datastore/migrations/core/migration_handler.py:92-93 | registered migrations are sorted by target, none lost |
| MigrationHandlers.MigrationHandler.RegisterMigrations | datastore/migrations/core/migration_handler.py:88-126 | accepted once, exactly if the targets are 2, 3, ... and no event migration follows a model migration |
| MigrationHandlers.MigrationHandler.GetMigrationState | datastore/migrations/core/migration_handler.py:138-193 | a migration is required exactly if some position is below the last event migration; none is exactly if the target is reached |
| MigrationHandlers.MigrationHandler.AssertValidMigrationIndex | datastore/migrations/core/migration_handler.py:212-232 | an error exactly if the datastore or its migration tables are above the registered migrations |
| MigrationHandlers.MigrationHandler.CheckForLatest | datastore/migrations/core/migration_handler.py:234-250 | a datastore at index -1 goes straight to the target and has no migration data; others are left alone |
| MigrationHandlers.MigrationHandler.RunChecks | datastore/migrations/core/migration_handler.py:195-204 | the checks in their order, keeping all invariants |
| MigrationHandlers.MigrationHandler.MigrateEvents | datastore/migrations/core/migration_handler.py:128-136 | the event migrations, interrupted or not, keep all invariants; uninterrupted they succeed exactly if the chain has models for all positions at the last one, and fail with the error of the chain; which positions were brought there is known in every case |
| MigrationHandlers.MigrationHandler.Migrate | datastore/migrations/core/migration_handler.py:128-136 | fails exactly if the datastore is too new, the chain of event migrations fails on some position, or the run is interrupted, each with its error, and it is known which positions it has brought to the target; on success all are; where there is nothing to run no migration data changes |
| MigrationHandlers.MigrationHandler.FillHelperTables | datastore/migrations/core/migration_handler.py:341-368 | the models become those of the keyframe at the last position, each sequence the greatest id plus one |
| MigrationHandlers.MigrationHandler.SwapTables | datastore/migrations/core/migration_handler.py:276-284 | events and migration events change places, with their sequences |
| MigrationHandlers.MigrationHandler.FinalizeEvents | datastore/migrations/core/migration_handler.py:266-288 | the history becomes the migrated one and the models table its replay; no keyframe, migration row or link is left, and all invariants hold |
| MigrationHandlers.MigrationHandler.MigrateModel | datastore/migrations/core/migraters/model_migrater.py:19-33 | one model migration fails exactly if its code raises or one of its request events is refused, with that error and nothing written; else it has written at most one position with its events |
| MigrationHandlers.MigrationHandler.MigrateModels | datastore/migrations/core/migraters/model_migrater.py:19-33 | each model migration runs on the models the ones before it left behind; the first that fails gives the error, and those before it stay written |
| MigrationHandlers.MigrationHandler.FinalizeModels | datastore/migrations/core/migration_handler.py:290-295 | fails exactly if a model migration does; otherwise all positions have the target index, and all invariants hold |
| MigrationHandlers.MigrationHandler.Finalize | datastore/migrations/core/migration_handler.py:252-295 | too new: refused, nothing changed. Else it succeeds exactly if the chain of event migrations has models for all positions and no model migration fails, with the error of the first that does; history and sequences are those the chain prescribes. If the chain fails, only migration data has changed; otherwise none is left, and on success all positions are at the target and the lock index is empty from the last position on; at the target already, nothing changes |
| MigrationHandlers.MigrationHandler.Reset | datastore/migrations/core/migration_handler.py:297-306 | refused exactly if the datastore is too new; nothing but the migration data goes |
| Finalizing.MigratedStore | datastore/migrations/core/migration_handler.py:341-355 | with all positions at the target, the migration events are a complete history and the last keyframe its replay |
| Finalizing.FillIdSequences | datastore/migrations/core/migration_handler.py:357-368 | sequences above every id, each one more than an id that exists |
| Finalizing.RebuiltFromModels | datastore/migrations/core/migration_handler.py:252-295 | after finalising event migrations, the sequences are exactly those of the models it leaves |
| Finalizing.AllMigrated | datastore/migrations/core/migration_handler.py:164-169 | lowest index at the target and equally many rows, just when every position is at the target |
| Finalizing.NoopsFinalised | datastore/migrations/core/migration_handler.py:252-295 | after finalising migrations that answer None, or the event itself, to everything, every model at every position is what it was, if no event is empty |
| Finalizing.NoopsFinalisedApart | datastore/migrations/core/migration_handler.py:252-295 | and it is so up to meta positions if every empty event goes unnoticed |
| History.BuiltIsReplayed | datastore/shared/postgresql_backend/sql_read_database_backend_service.py:236-265 | building a model from its events gives its replayed row, at every position |
| History.StatusIsReplayed | datastore/shared/postgresql_backend/sql_read_database_backend_service.py:287-304 | the last event of a model in the last position with a create, delete or restore tells whether it is deleted, at every position of every history that replays |
| Readers.BuildModelFromEvents | datastore/shared/postgresql_backend/sql_read_database_backend_service.py:236-265 | the loop computes the model of the events; no events, or no create first, is an error |
| Readers.ReaderService.SelectOwnEvents | datastore/shared/postgresql_backend/sql_read_database_backend_service.py:216-228 | the events of a model up to a position, by position and weight |
| Readers.ReaderService.BuildModelIgnoreDeleted | datastore/shared/postgresql_backend/sql_read_database_backend_service.py:192-234 | the data the model had at the position, or an error if it did not exist |
| Readers.ReaderService.GetDeletedStatusFromEvents | datastore/shared/postgresql_backend/sql_read_database_backend_service.py:287-304 | for exactly the models that existed at the position, the flag they had |
| Readers.ReaderService.FilterFqidsByDeletedStatus | datastore/reader/core/reader_service.py:179-195 | without deleted models: those that exist and are not deleted; only deleted ones: those that are; all: every given one, existing or not |
| Readers.ReaderService.ResolveRow | datastore/shared/postgresql_backend/sql_read_database_backend_service.py:170-190 | the fields asked for, without null values, whether whole models or columns were selected |
| Readers.ReaderService.SelectModels | datastore/shared/postgresql_backend/sql_read_database_backend_service.py:53-80 | without deleted models, only deleted ones, or all, as the flag says, with the fields asked for per model |
| Readers.ReaderService.ApplyMappedFields | datastore/reader/core/reader_service.py:197-204 | the same fields as a selection gives |
| Readers.ReaderService.Get | datastore/reader/core/reader_service.py:50-77 | with a position or without, read off the models of that moment: an answer exactly if the model exists and is not deleted, is deleted, or exists, as the flag asks; all its data, or exactly the named non-null fields; else the error that fits the flag |
| Readers.ReaderService.GetMany | datastore/reader/core/reader_service.py:80-117 | the same for many models; at a position it fails exactly if none passes the filter |
| Readers.AnswersMean | datastore/reader/core/reader_service.py:80-117 | what is answered for a model: all its data if no field is asked for on it, else exactly the non-null values of those fields |
| Readers.CurrentPosition | datastore/reader/core/reader_service.py:50-77 | a read at the current position sees what a read without one sees |
| Readers.LaterWrites | datastore/shared/postgresql_backend/sql_read_database_backend_service.py:201-234 | later writes do not change what is read at a position |
| MappedFieldsRequests.BuildForGet | datastore/reader/core/requests.py:27-34 | exactly the fields of the request, each once; whole models are selected exactly for no field or too many |
| MappedFieldsRequests.BuildForGetMany | datastore/reader/core/requests.py:51-77 | each model named gets the fields of its parts and of the request, and only those; every such field is selected unless whole models are, and no column twice |
| MemoryMigration.MigrateImport | datastore/migrations/core/migraters/event_migrater_memory.py:41-78 | the models of the chain of migrations on one position of create events |
| MemoryMigration.ImportedData | datastore/migrations/core/migraters/event_migrater_memory.py:51-61 | it starts from one create event per model with exactly its non-null values that are not reserved, all of them well-formed |
| MemoryMigration.ImportIsWritten | datastore/migrations/core/migraters/event_migrater_memory.py:51-61 | writing an import without null values yields just those create events |
| MemoryMigration.MemoryEqualsDatabase | datastore/migrations/core/migraters/event_migrater_memory.py:41-78 | migrating in memory gives the models that writing the import as first position and finalising gives |
| Reservations.ReservationsSurvive | datastore/migrations/core/migration_handler.py:357-368 | after sequences are rebuilt, no reserved id is handed out again if and only if each reserved range is covered by a model of its collection with its last id or a higher one |
| Reservations.KeptOk | datastore/writer/postgresql_backend/sql_database_backend_service.py:271-288 | the reservations not covered are exactly those to be forgotten; the others stay disjoint and below the sequences |
| Reservations.OneRangeMore | datastore/writer/postgresql_backend/sql_database_backend_service.py:271-288 | a reservation that starts at the sequence and raises it keeps all ranges of a collection disjoint |
| ReusedIds.HandOutTwice | datastore/migrations/core/migration_handler.py:357-368 | a run of a write, a reservation, a finalisation that changes no event, and another reservation hands out one id twice |
| Systems.Datastore.Execute | datastore/writer/core/writer_service.py:29-44 | every command succeeds exactly when its service promises, with the promised error otherwise and the promised effect on the state of all tables, and keeps all invariants, except after a model migration that fails in the middle of finalize; a trim deletes just the entries of expired positions, a finalisation empties the lock index |
| Systems.Datastore.ExecuteWrite | datastore/writer/core/writer_service.py:29-44 | all requests were written one after the other, each on what those before it left, or none, with the error of the first that is refused |
| Systems.Datastore.ExecuteMigrate | datastore/migrations/core/migration_handler.py:128-136 | history, models, ids and lock index stay; the outcome is that of the chain of event migrations, or the interruption |
| Systems.Datastore.ExecuteFinalize | datastore/migrations/core/migration_handler.py:252-295 | outcome, history, sequences, migration data and lock index are those the chain of migrations prescribes; after event migrations the reservations that remain are exactly those a model covers |
| Systems.Datastore.Reserve | datastore/writer/postgresql_backend/sql_database_backend_service.py:271-288 | the ids handed out are the next ones of the collection, above every existing id, and disjoint from all reservations that remain; exactly their range is recorded |
| Systems.Datastore.Run | datastore/migrations/core/migration_handler.py:128-306 | any sequence of writes, reservations, trims, interrupted migrations, finalisations and resets, by backends of any version: every answer is that of its command on the state the ones before it left, every state satisfies all invariants, and only a failing model migration ends it early |
| Runs.LaterIdsAreGreater | datastore/writer/postgresql_backend/sql_database_backend_service.py:271-288 | in any run, ids handed out later for a collection are greater than all handed out before, as long as the earlier reservation is not forgotten, which takes a finalisation in between |
| Runs.PositionsStay | datastore/writer/postgresql_backend/sql_database_backend_service.py:128-139 | in any run, no position is ever taken away or renumbered |
| Runs.HistoryStays | datastore/writer/postgresql_backend/sql_database_backend_service.py:113-126 | between finalisations a history only grows |
| Runs.ReadsStay | datastore/shared/postgresql_backend/sql_read_database_backend_service.py:201-234 | so that a read at a position gives the same models at any later point before a finalisation |
| Runs.IndexStarts | cli/trim_collectionfield_tables.py:21-43 | in any run, the lock index starts no later than the last position that was trimmed, or present at a finalisation |
| Runs.AcceptedIsCurrent | datastore/writer/postgresql_backend/sql_occ_locker_backend_service.py:31-40 | in any run, what an accepted request had locked was unchanged at its check, for locks of every kind, if no lock on a field is older than that |
| Runs.ReadThenWrite | datastore/writer/core/writer_service.py:74-102 | a request that locks what was read at the then last position, and is accepted later without a finalisation in between, is checked while all of it reads as it did |

## Left out

- Postgres, connections, retries, caching: tables are values, transactions atomic, and `returning` keeps the order of rows.
- `user_id`, `information` and timestamps of positions; trimming is given the set of positions that are too old.
- Limits on the length of fqids and collectionfields; the limit on a reserved collection is modelled.
- Values of lists: Python also takes `True` for `1`, and iterates over the keys of an object when removing from one; here values compare as values, and an object is an error like any other value that is no list or text.
- Redis messages and the models they carry, logging, statistics.
- `write_without_events`, `delete_history_information`, `truncate_db`: rows of `models` without events are not modelled, and deleting everything is not a step of a run.
- `filter`, `aggregate`, `get_all`, `get_everything` of the reader, and the evaluation of filters in Python by the in-memory migration reader.
- `get_all_ids_for_collection` of the keyframes: a migration sees the whole contents of its accessors instead, and the two kinds of keyframes are not claimed to agree on deleted models.
- `will_exist` as a call: a migration is given the status it looks at, which ignores restores as the code does.
- The class hierarchy of keyframes: one class with a kind, since the three differ in where a write goes.
- Surrogate ids of keyframes and collectionfields; their cascades are modelled.
- A crash inside `finalize`, or a model migration that raises after others were written: no invariant of the migration indices is claimed then, only those of the writer's tables.
- Migrations as Python objects that keep state between calls: they are functions of what they are given.
- Model migrations in memory, and stripping reserved fields from migrated imports.
- The regrouping of read models by collection and the empty collections added back; a mapped field whose name is that of a selected column.
- The error a numeric comparison raises in the database when the field holds a text.
- LockLaws.FilteredLockHolds: is about the models that match the filter now, because the code looks at no others; FilteredLocks.ProtectsUnlessLeft is about those that matched when the lock was taken.
- MemoryMigration.MemoryEqualsDatabase: is about an import at position 1, because the meta position and the position a migration sees are those of the import.
- Systems.Datastore.Run: takes all registered migrations from one list in the order of their targets, because code that has been migrated with must stay at its index.
