/** Registering, running, finalising and resetting migrations. */
module MigrationHandlers {
  import opened Types
  import opened Replay
  import opened Tables
  import opened EventMigrations
  import opened Staircase
  import opened EventMigraters
  import opened LockIndex
  import opened WriteLaws
  import opened PositionFree
  import opened Backend
  import opened ReadDatabases
  import opened Datastores
  import opened Registration
  import opened Finalizing

  datatype MigrationState = NoMigrationRequired | FinalizationRequired | MigrationRequired

  lemma CountIs(ms: seq<Migration>, n: nat)
    requires n <= |ms| && forall i | 0 <= i < |ms| :: ms[i].EventKind? <==> i < n
    ensures EventCount(ms) == n
  {
    var count := EventCount(ms);
    assert count < |ms| ==> !ms[count].EventKind?;
    assert n < |ms| ==> !ms[n].EventKind?;
  }

  class MigrationHandler {
    const db: Database
    const backend: DatabaseBackend
    const readDatabase: ReadDatabase
    var migrations: seq<Migration>    // migrations_by_target_migration_index
    var targetIndex: int
    var lastEventTarget: int

    constructor (db: Database)
      ensures this.db == db && Wired() && Registered() && migrations == []
    {
      this.db := db;
      backend := new DatabaseBackend(db);
      readDatabase := new ReadDatabase(db);
      migrations, targetIndex, lastEventTarget := [], 1, 1;
    }

    ghost predicate Wired() { backend.db == db && readDatabase.db == db }

    ghost predicate Registered()
      reads this
    {
      && Sequential(migrations)
      && targetIndex == |migrations| + 1 && lastEventTarget == LastEventTarget(migrations)
      && forall i | 0 <= i < |migrations| :: migrations[i].EventKind? <==> i < lastEventTarget - 1
    }

    /** The migrations the event migrater is initialised with. */
    function EventMigrationsOf(): (es: seq<EventMigration>)
      requires Registered()
      reads this
      ensures |es| == lastEventTarget - 1
    {
      EventsIn(migrations)
    }

    method RegisterMigrations(given: seq<Migration>) returns (r: Result<()>)
      requires Registered()
      modifies this
      ensures r.Ok? <==> old(migrations == []) && Sequential(SortByTarget(given))
      ensures r.Err? ==> r.error == MigrationSetup
      ensures r.Ok? ==> Registered() && migrations == SortByTarget(given)
    {
      hide SortByTarget, EventCount;
      if |migrations| > 0 {
        return Err(MigrationSetup);
      }
      var sorted := SortByTarget(given);
      for i := 0 to |sorted|
        invariant migrations == sorted[..i] && Sequential(migrations) && 1 <= lastEventTarget <= i + 1
        invariant forall j | 0 <= j < i :: migrations[j].EventKind? <==> j < lastEventTarget - 1
      {
        var migration := sorted[i];
        if migration.target != i + 2 {
          return Err(MigrationSetup);
        }
        if migration.EventKind? {
          if lastEventTarget < migration.target - 1 {
            assert !sorted[lastEventTarget - 1].EventKind?;
            return Err(MigrationSetup);
          }
          lastEventTarget := migration.target;
        }
        migrations := migrations + [migration];
      }
      assert sorted[..|sorted|] == sorted;
      targetIndex := |sorted| + 1;
      CountIs(sorted, lastEventTarget - 1);
      r := Ok(());
    }

    /** The datastore has seen migrations that are not registered. */
    ghost predicate TooNew()
      reads this, db
    {
      || BaseIndex(db.positions) > targetIndex
      || exists p | p in db.migrationPositions :: db.migrationPositions[p] > targetIndex
    }

    /**
     * Migrations that have left data behind stay what they were at their indices: an index that was
     * reached by event migrations either is one of theirs now, or is not registered at all.
     */
    ghost predicate Compatible()
      requires Registered()
      reads this, db
    {
      db.migrationPositions == map[] ||
      (Agreeing(db.migrations, EventMigrationsOf()) &&
       (TooNew() || forall p | p in db.migrationPositions :: db.migrationPositions[p] <= lastEventTarget))
    }

    ghost predicate MigrationNeeded()
      reads this, db
    {
      && 1 <= BaseIndex(db.positions) < lastEventTarget
      && !AllAt(SourceOf(db), db.migrationPositions, lastEventTarget)
    }

    method GetMigrationState() returns (r: Result<MigrationState>)
      requires Wired() && Registered() && DatastoreOk(db) && Compatible() && !TooNew()
      ensures r.Ok?
      ensures r.value.MigrationRequired? <==> MigrationNeeded()
      ensures r.value.NoMigrationRequired? <==> !MigrationNeeded() && BaseIndex(db.positions) >= targetIndex
    {
      hide StoreOk, EngineOk, Sequential, AllAt, SourceOk;
      var indices := readDatabase.GetCurrentMigrationIndex();
      if indices.Err? {
        return Err(MismatchingMigrationIndices);
      }
      var current := indices.value;
      var min := MinIndex(db.migrationPositions);
      var minMigrated := if min.Some? && min.value != 0 then min.value else current;
      StateParts(db);
      var state := NoMigrationRequired;
      if current >= lastEventTarget {
        // at or above the last event migration
      } else if (minMigrated == lastEventTarget && |db.positions| == |db.migrationPositions|) || current == -1 {
        state := FinalizationRequired;
      } else {
        state := MigrationRequired;
      }
      if 1 <= current < lastEventTarget {
        AllMigrated(SourceOf(db), db.migrationPositions, minMigrated, lastEventTarget);
      }
      var start := if current > lastEventTarget then current else lastEventTarget;
      if current > -1 && start < targetIndex && state == NoMigrationRequired {
        state := FinalizationRequired;
      }
      r := Ok(state);
    }

    lemma StateParts(db: Database)
      requires DatastoreOk(db)
      ensures SourceOk(SourceOf(db)) && Ascending(SourceOf(db).ps)
      ensures IndicesOk(SourceOf(db), db.migrationPositions)
      ensures forall p | p in db.migrationPositions ::
        1 <= BaseIndex(db.positions) < db.migrationPositions[p] <= |db.migrations| + 1
      ensures db.migrationPositions != map[] ==> 1 <= BaseIndex(db.positions)
    {
      hide StoreOk, IsStaircase, FramesReplay, EventsMigrated, Falling;
      StoreSource(db);
      if BaseIndex(db.positions) < 1 {
        assert forall p :: p !in db.migrationPositions;
        assert db.migrationPositions == map[];
      }
    }

    method AssertValidMigrationIndex() returns (r: Result<()>)
      requires Wired() && Registered() && DatastoreOk(db) && Compatible()
      ensures r == if TooNew() then Err(MismatchingMigrationIndices) else Ok(())
    {
      hide StoreOk, EngineOk, Sequential;
      var current := readDatabase.GetCurrentMigrationIndex();
      if current.Err? {
        return Err(MismatchingMigrationIndices);
      }
      StateParts(db);
      var max := MaxIndex(db.migrationPositions);
      var maxMigrated := if max.Some? && max.value != 0 then max.value else 1;
      if (if current.value > maxMigrated then current.value else maxMigrated) > targetIndex {
        return Err(MismatchingMigrationIndices);
      }
      r := Ok(());
    }

    method UpdateMigrationIndex(index: int)
      modifies db`positions
      ensures db.positions == WithIndex(old(db.positions), index)
    {
      db.positions := WithIndex(db.positions, index);
    }

    method DeleteMigrationKeyframes()
      modifies db`keyframes
      ensures db.keyframes == map[]
    {
      db.keyframes := map[];
    }

    method CleanMigrationData()
      modifies db`migrationPositions, db`migrationEvents, db`migrationEventSeq
      ensures db.migrationPositions == map[] && db.migrationEvents == map[] && db.migrationEventSeq == 1
    {
      db.migrationPositions := map[];
      db.migrationEvents := map[];
      db.migrationEventSeq := 1;
    }

    /** `delete_collectionfield_aux_tables`. */
    method DeleteCollectionfieldAuxTables()
      requires StoreOk(db)
      modifies db`collectionfields, db`links, db`indexedFrom
      ensures StoreOk(db) && IndexCleared(db)
    {
      hide HistoryOk, CacheOk, SequencesOk, IndexOk;
      db.links := {};
      db.collectionfields := map[];
      db.indexedFrom := LastPosition(db.positions);
      ghost var log := Log(PositionsOf(db.positions), db.history);
      LastIsGreatest(log.ps, db.positionSeq, log.hist, db.events, db.eventSeq);
      EmptyIndex(log, db.events, db.indexedFrom);
    }

    /** The checks before a run; `true` means that nothing is left to do. */
    method RunChecks() returns (r: Result<bool>)
      requires Wired() && Registered() && DatastoreOk(db) && Compatible()
      modifies db`positions, db`keyframes, db`migrationPositions, db`migrationEvents
      ensures DatastoreOk(db) && Compatible()
      ensures PositionsOf(db.positions) == PositionsOf(old(db.positions))
      ensures r == if old(TooNew()) then Err(MismatchingMigrationIndices) else Ok(BaseIndex(old(db.positions)) == -1)
      ensures r.Ok? ==> !TooNew()
      ensures r.Err? ==> unchanged(db)
      ensures old(db.positions) != [] && BaseIndex(old(db.positions)) == -1 ==> BaseIndex(db.positions) == targetIndex
      ensures BaseIndex(old(db.positions)) != -1 ==> db.positions == old(db.positions)
      ensures db.migrationPositions == old(db.migrationPositions) && db.migrationEvents == old(db.migrationEvents)
      ensures db.keyframes == old(db.keyframes)
    {
      hide StoreOk, EngineOk, Sequential;
      StateParts(db);
      if readDatabase.IsEmpty() {
        EmptyIsClean(SourceOf(db), db.migrationPositions, db.migrationEvents, db.keyframes);
        return Ok(true);
      }
      var valid := AssertValidMigrationIndex();
      if valid.Err? {
        return Err(valid.error);
      }
      r := CheckForLatest();
    }

    method CheckForLatest() returns (r: Result<bool>)
      requires Registered() && DatastoreOk(db) && Compatible() && !TooNew() && db.positions != []
      modifies db`positions, db`keyframes, db`migrationPositions, db`migrationEvents
      ensures DatastoreOk(db) && Compatible()
      ensures PositionsOf(db.positions) == PositionsOf(old(db.positions))
      ensures r == Ok(BaseIndex(old(db.positions)) == -1) && !TooNew()
      ensures BaseIndex(old(db.positions)) == -1 ==> BaseIndex(db.positions) == targetIndex
      ensures BaseIndex(old(db.positions)) != -1 ==> db.positions == old(db.positions)
      ensures db.migrationPositions == old(db.migrationPositions) && db.migrationEvents == old(db.migrationEvents)
      ensures db.keyframes == old(db.keyframes)
    {
      hide HistoryOk, CacheOk, IndexOk, SequencesOk, EngineOk, Sequential;
      var min := db.positions[0].migrationIndex;
      for i := 0 to |db.positions|
        invariant min == BaseIndex(db.positions)
      {
        if db.positions[i].migrationIndex < min {
          min := db.positions[i].migrationIndex;
        }
      }
      if min != -1 {
        return Ok(false);
      }
      UnindexedIsClean(SourceOf(db), db.migrationPositions, db.migrationEvents, db.keyframes);
      UpdateMigrationIndex(targetIndex);
      db.migrationEvents, db.migrationPositions, db.keyframes := map[], map[], map[];
      StoreSource(db);
      CleanEngine(SourceOf(db));
      r := Ok(true);
    }

    /** `event_migrater.migrate()`, with the registered event migrations. */
    method MigrateEvents(stopAfter: nat) returns (r: Result<()>)
      requires Registered() && DatastoreOk(db) && Compatible() && !TooNew()
      requires 1 <= BaseIndex(db.positions) < lastEventTarget
      modifies db`keyframes, db`migrationEvents, db`migrationEventSeq, db`migrationPositions, db`migrations
      ensures DatastoreOk(db) && Compatible() && !TooNew() && db.migrations == EventMigrationsOf()
      ensures r.Ok? ==> AllAt(SourceOf(db), db.migrationPositions, lastEventTarget)
      ensures RunOutcome(SourceOf(db), old(db.migrationPositions), db.migrationPositions, lastEventTarget, stopAfter, r)
    {
      hide CacheOk, IndexOk, SequencesOk, EngineOk, Sequential, ReplayHistory, HoldsHistory, Ascending, ModelsAt;
      StateParts(db);
      AdoptMigrations(SourceOf(db), SourceOf(db).(migs := EventMigrationsOf()),
        db.migrationPositions, db.migrationEvents, db.keyframes);
      db.migrations := EventMigrationsOf();
      ghost var s := SourceOf(db);
      var migrater := new EventMigrater(db, EventMigrationsOf());
      ghost var mp0, reached := db.migrationPositions, 0;
      r, reached := migrater.Migrate(stopAfter, s);
      StateParts(db);
      RunIs(s, mp0, db.migrationPositions, db.migrationEvents, db.keyframes, lastEventTarget, stopAfter, reached, r);
    }

    /**
     * `migrate`: interrupted or not, the datastore can be used, and the run resumed. It fails exactly if
     * the datastore is too new, some position cannot be migrated, or it is interrupted.
     */
    method Migrate(stopAfter: nat) returns (r: Result<()>)
      requires Wired() && Registered() && DatastoreOk(db) && Compatible()
      modifies db`positions, db`keyframes, db`migrationEvents, db`migrationEventSeq, db`migrationPositions
      modifies db`migrations
      ensures DatastoreOk(db) && Compatible()
      ensures PositionsOf(db.positions) == PositionsOf(old(db.positions))
      ensures db.migrations == old(db.migrations) || db.migrations == EventMigrationsOf()
      ensures old(TooNew()) ==> r == Err(MismatchingMigrationIndices) && unchanged(db)
      ensures old(TooNew()) || !(1 <= BaseIndex(old(db.positions)) < lastEventTarget) ==>
        unchanged(db`migrations, db`migrationPositions, db`migrationEvents, db`migrationEventSeq, db`keyframes)
      ensures !old(TooNew()) && !(1 <= BaseIndex(old(db.positions)) < lastEventTarget) ==> r.Ok?
      ensures !old(TooNew()) && 1 <= BaseIndex(old(db.positions)) < lastEventTarget ==>
        RunOutcome(old(SourceOf(db)).(migs := EventMigrationsOf()), old(db.migrationPositions), db.migrationPositions,
          lastEventTarget, stopAfter, r)
      ensures r.Ok? && 1 <= BaseIndex(old(db.positions)) < lastEventTarget ==>
        AllAt(SourceOf(db), db.migrationPositions, lastEventTarget)
      ensures BaseIndex(old(db.positions)) != -1 ==> db.positions == old(db.positions)
      ensures old(db.positions) != [] && BaseIndex(old(db.positions)) == -1 ==> BaseIndex(db.positions) == targetIndex
    {
      hide StoreOk, EngineOk, Sequential, AllAt, MigrationOk, RunOutcome;
      StateParts(db);
      var checked := RunChecks();
      if checked.Err? {
        return Err(checked.error);
      }
      if checked.value {
        return Ok(());
      }
      var state := GetMigrationState();
      r := Ok(());
      if state.value == MigrationRequired {
        r := MigrateEvents(stopAfter);
      } else if 1 <= BaseIndex(db.positions) < lastEventTarget {
        NothingToRun(stopAfter);
      }
    }

    /** Where all positions are at the target already, the chain has models there. */
    lemma NothingToRun(stopAfter: nat)
      requires Registered() && DatastoreOk(db) && Compatible() && !TooNew()
      requires 1 <= BaseIndex(db.positions) < lastEventTarget
      requires AllAt(SourceOf(db), db.migrationPositions, lastEventTarget)
      ensures var s := SourceOf(db).(migs := EventMigrationsOf());
        && RunOutcome(s, db.migrationPositions, db.migrationPositions, lastEventTarget, stopAfter, Ok(()))
        && s.Has(lastEventTarget, |s.ps|) && ModelsAt(s, lastEventTarget, |s.ps|).Ok?
    {
      hide StoreOk, EngineOk, Sequential, ModelsAt;
      var s := SourceOf(db).(migs := EventMigrationsOf());
      AdoptMigrations(SourceOf(db), s, db.migrationPositions, db.migrationEvents, db.keyframes);
      assert forall i: nat | i < |s.ps| ::
        Effective(s, db.migrationPositions, i) == Effective(SourceOf(db), db.migrationPositions, i);
      AllAtIsOk(s, db.migrationPositions, db.migrationEvents, db.keyframes, lastEventTarget);
      assert RanTo(s, db.migrationPositions, db.migrationPositions, lastEventTarget, stopAfter, |s.ps|, Ok(()));
    }

    /** The part of `finalize` that makes the migrated events the events. */
    method FinalizeEvents() returns (r: Result<()>)
      requires Registered() && DatastoreOk(db) && Compatible() && !TooNew()
      requires 1 <= BaseIndex(db.positions) < lastEventTarget
      requires AllAt(SourceOf(db), db.migrationPositions, lastEventTarget)
      modifies db
      ensures r.Ok? && DatastoreOk(db) && Compatible() && db.migrations == EventMigrationsOf()
      ensures PositionsOf(db.positions) == PositionsOf(old(db.positions)) && BaseIndex(db.positions) == lastEventTarget
      ensures db.migrationPositions == map[] && db.migrationEvents == map[] && db.keyframes == map[]
      ensures IndexCleared(db)
      ensures MigratedTo(old(SourceOf(db)).(migs := EventMigrationsOf()), lastEventTarget, db.history, db.models)
      ensures Rebuilt(db.models, db.idSequences)
    {
      hide StoreOk, EngineOk, Sequential, HoldsHistory, MigratedTo, Uniform, CacheOk, Rebuilt, IdsBelow;
      ghost var s := SourceOf(db).(migs := EventMigrationsOf());
      ghost var hist := FinalPlan(s);
      StoreReady(db);
      DeleteCollectionfieldAuxTables();
      var filled := FillHelperTables();
      if filled.Err? {
        return filled;
      }
      MakeEvents(s.ps, hist);
      r := Ok(());
    }

    /** The rest of it: swap the tables, set the index, clean up. */
    method MakeEvents(ghost ps: seq<Position>, ghost hist: seq<seq<Event>>)
      requires Registered() && lastEventTarget > 1 && db.positions != [] && ps == PositionsOf(db.positions)
      requires HistoryOk(ps, db.positionSeq, db.history, db.events, db.eventSeq)
      requires HoldsHistory(db.migrationEvents, ps, hist) && IdsBelow(db.migrationEvents, db.migrationEventSeq)
      requires CacheOk(ps, hist, db.models) && Rebuilt(db.models, db.idSequences)
      requires db.collectionfields == map[] && db.links == {} && db.indexedFrom == ps[|ps| - 1]
      modifies db`keyframes, db`migrationEvents, db`migrationEventSeq, db`migrationPositions, db`migrations
      modifies db`events, db`eventSeq, db`history, db`positions
      ensures DatastoreOk(db) && db.positions == WithIndex(old(db.positions), lastEventTarget) && db.history == hist
      ensures db.migrations == EventMigrationsOf()
      ensures db.migrationPositions == map[] && db.migrationEvents == map[] && db.keyframes == map[]
    {
      hide StoreOk, EngineOk, Registered, HoldsHistory, HistoryOk, CacheOk, Rebuilt, IdsBelow, MigrationOk, WithIndex;
      hide PositionsOf;
      SwapAndClean(hist);
      db.migrations := EventMigrationsOf();
      SwappedStore(db, ps, db.positionSeq, old(db.history), old(db.events), old(db.eventSeq));
      CleanMigration(db, old(db.positions), lastEventTarget);
    }

    method SwapAndClean(ghost hist: seq<seq<Event>>)
      modifies db`keyframes, db`migrationEvents, db`migrationEventSeq, db`migrationPositions
      modifies db`events, db`eventSeq, db`history, db`positions
      ensures db.events == old(db.migrationEvents) && db.eventSeq == old(db.migrationEventSeq) && db.history == hist
      ensures db.positions == WithIndex(old(db.positions), lastEventTarget)
      ensures db.migrationPositions == map[] && db.migrationEvents == map[] && db.keyframes == map[]
    {
      DeleteMigrationKeyframes();
      SwapTables(hist);
      UpdateMigrationIndex(lastEventTarget);
      CleanMigrationData();
    }

    /** What the migration tables hold before they become the events. */
    lemma FinalPlan(s: Source) returns (hist: seq<seq<Event>>)
      requires Registered() && DatastoreOk(db) && Compatible() && !TooNew()
      requires 1 <= BaseIndex(db.positions) < lastEventTarget
      requires AllAt(SourceOf(db), db.migrationPositions, lastEventTarget)
      requires s == SourceOf(db).(migs := EventMigrationsOf())
      ensures |s.ps| == |db.positions| > 0 && forall i | 0 <= i < |s.ps| :: s.ps[i] == db.positions[i].position
      ensures IdsBelow(db.migrationEvents, db.migrationEventSeq)
      ensures var last := s.ps[|s.ps| - 1];
        && (last, lastEventTarget) in db.keyframes
        && MigratedTo(s, lastEventTarget, hist, db.keyframes[(last, lastEventTarget)])
        && HoldsHistory(db.migrationEvents, s.ps, hist) && CacheOk(s.ps, hist, db.keyframes[(last, lastEventTarget)])
    {
      hide StoreOk, EngineOk, Sequential, HoldsHistory, MigratedTo, Uniform, CacheOk, IdsBelow;
      AdoptMigrations(SourceOf(db), s, db.migrationPositions, db.migrationEvents, db.keyframes);
      assert forall i: nat | i < |s.ps| ::
        Effective(s, db.migrationPositions, i) == Effective(SourceOf(db), db.migrationPositions, i);
      hist := MigratedStore(s, db.migrationPositions, db.migrationEvents, db.keyframes, lastEventTarget);
    }

    /** `fill_models_aux_tables` and `fill_id_sequences_table`; the keyframe must be there. */
    method FillHelperTables() returns (r: Result<()>)
      requires db.positions != []
      modifies db`models, db`idSequences
      ensures var key := (db.positions[|db.positions| - 1].position, lastEventTarget);
        && (r.Ok? <==> key in db.keyframes)
        && (r.Ok? ==> db.models == db.keyframes[key] && Rebuilt(db.models, db.idSequences))
    {
      hide SequencesOk;
      var maxPosition := db.positions[|db.positions| - 1].position;
      if (maxPosition, lastEventTarget) !in db.keyframes {
        return Err(BadCoding);
      }
      db.models := db.keyframes[(maxPosition, lastEventTarget)];
      db.idSequences := FillIdSequences(db.models);
      r := Ok(());
    }

    method SwapTables(ghost hist: seq<seq<Event>>)
      modifies db`events, db`eventSeq, db`migrationEvents, db`migrationEventSeq, db`history
      ensures db.events == old(db.migrationEvents) && db.eventSeq == old(db.migrationEventSeq)
      ensures db.migrationEvents == old(db.events) && db.migrationEventSeq == old(db.eventSeq)
      ensures db.history == hist
    {
      db.events, db.migrationEvents := db.migrationEvents, db.events;
      db.eventSeq, db.migrationEventSeq := db.migrationEventSeq, db.eventSeq;
      db.history := hist;
    }

    /**
     * `model_migrater.migrate()`: each migration reads the models and writes a position of its own. The
     * first one that fails ends it.
     */
    method MigrateModels() returns (r: Result<()>)
      requires Wired() && Registered() && StoreOk(db) && db.positions != []
      requires Uniform(db.positions, BaseIndex(db.positions))
      requires lastEventTarget <= BaseIndex(db.positions) <= targetIndex
      modifies db`positions, db`positionSeq, db`history, db`events, db`eventSeq, db`models, db`idSequences
      modifies db`collectionfields, db`links
      ensures StoreOk(db) && LogPrefix(old(LogOf(db)), LogOf(db))
      ensures SequencesGrow(old(db.idSequences), db.idSequences)
      ensures ModelsOutcome(ModelsFrom(migrations, BaseIndex(old(db.positions))), old(LogOf(db)), LogOf(db), r)
    {
      hide StoreOk, Sequential, ModelsMigrated, LogPrefix, Added, ModelRefusal, ReplayHistory;
      var current := readDatabase.GetCurrentMigrationIndex();
      if current.Err? {
        return Err(MismatchingMigrationIndices);
      }
      var start := current.value;
      ghost var log, ms := LogOf(db), ModelsFrom(migrations, start);
      NoModelMigration(ms, log);
      SameLog(db);
      for source := start to targetIndex
        invariant StoreOk(db) && LogPrefix(log, LogOf(db)) && db.positions != []
        invariant SequencesGrow(old(db.idSequences), db.idSequences)
        invariant ModelsMigrated(ms[..source - start], log, LogOf(db))
      {
        ghost var before := LogOf(db);
        assert ms[source - start] == migrations[source - 1].model;
        var step := MigrateModel(migrations[source - 1].model, source + 1);
        PrefixesJoin(log, before, LogOf(db));
        if step.Err? {
          assert ModelsStoppedAt(ms, log, LogOf(db), source - start, step.error);
          return step;
        }
        OneModelMigrationMore(ms, source - start, log, before, LogOf(db));
      }
      assert ms[..targetIndex - start] == ms;
      r := Ok(());
    }

    /** One model migration in a transaction of its own: it writes what it answers, or nothing at all. */
    method MigrateModel(m: ModelMigration, target: int) returns (r: Result<()>)
      requires Wired() && StoreOk(db) && db.positions != []
      modifies db`positions, db`positionSeq, db`history, db`events, db`eventSeq, db`models, db`idSequences
      modifies db`collectionfields, db`links
      ensures StoreOk(db) && LogPrefix(old(LogOf(db)), LogOf(db)) && db.positions != []
      ensures |db.positions| == |db.history| && CacheOk(LogOf(db).ps, db.history, db.models)
      ensures SequencesGrow(old(db.idSequences), db.idSequences)
      ensures match ModelRefusal(m, old(db.models))
        case Some(error) => r == Err(error) && Restored(db) && LogOf(db) == old(LogOf(db))
        case None => r.Ok? && Added(m, LogOf(db), |old(db.positions)|)
    {
      hide HistoryOk, IndexOk, SequencesOk, LegalAll, AllEvents, RefusedWith, RowOk;
      StoreParts(db);
      ghost var log, models := LogOf(db), db.models;
      var answer := m.migrate(db.models);
      if answer.Err? {
        return Err(answer.error);
      }
      if answer.value.None? || answer.value.value == [] {
        return Ok(());
      }
      var inserted := backend.InsertInTransaction(answer.value.value, target);
      AnyPosition(models, answer.value.value, db.positionSeq, 0);
      if inserted.Err? {
        return Err(inserted.error);
      }
      HistoryFrame(log.ps, log.hist, LogOf(db).ps, LogOf(db).hist, |log.ps|);
      r := Ok(());
    }

    /** The last part of `finalize`: model migrations, then one index for all positions. */
    method FinalizeModels() returns (r: Result<()>)
      requires Wired() && Registered() && DatastoreOk(db) && Compatible() && !TooNew() && db.positions != []
      requires lastEventTarget <= BaseIndex(db.positions) <= targetIndex
      modifies db`positions, db`positionSeq, db`history, db`events, db`eventSeq, db`models, db`idSequences
      modifies db`collectionfields, db`links, db`indexedFrom
      ensures StoreOk(db) && SequencesGrow(old(db.idSequences), db.idSequences)
      ensures ModelsOutcome(ModelsFrom(migrations, BaseIndex(old(db.positions))), old(LogOf(db)), LogOf(db), r)
      ensures r.Ok? ==> DatastoreOk(db) && Compatible() && BaseIndex(db.positions) == targetIndex && db.positions != []
      ensures if r.Ok? then IndexCleared(db) else db.indexedFrom == old(db.indexedFrom)
      ensures db.migrationPositions == map[] && db.migrationEvents == map[] && db.keyframes == map[]
    {
      hide StoreOk, EngineOk, Sequential, ModelsOutcome, WithIndex, LogPrefix;
      NoneLeft();
      r := MigrateModels();
      if r.Err? {
        return;
      }
      GrownLog(old(LogOf(db)), LogOf(db));
      CloseModels();
    }

    /** The lock index starts anew, and all positions get the target index. */
    method CloseModels()
      requires StoreOk(db) && db.positions != [] && targetIndex >= 1
      requires db.migrationPositions == map[] && db.migrationEvents == map[] && db.keyframes == map[]
      requires IdsBelow(db.migrationEvents, db.migrationEventSeq)
      modifies db`positions, db`collectionfields, db`links, db`indexedFrom
      ensures DatastoreOk(db) && BaseIndex(db.positions) == targetIndex && LogOf(db) == old(LogOf(db))
      ensures IndexCleared(db) && db.positions != []
    {
      hide StoreOk, EngineOk, WithIndex;
      DeleteCollectionfieldAuxTables();
      ghost var rows := db.positions;
      label Written:
      UpdateMigrationIndex(targetIndex);
      Reindexed@Written(db);
      CleanMigration(db, rows, targetIndex);
    }

    /** At or above the last event migration there is no migration data. */
    lemma NoneLeft()
      requires Registered() && DatastoreOk(db) && Compatible() && !TooNew()
      requires lastEventTarget <= BaseIndex(db.positions)
      ensures db.migrationPositions == map[] && db.migrationEvents == map[] && db.keyframes == map[]
    {
      hide StoreOk, EngineOk, Sequential;
      StateParts(db);
      assert forall p :: p !in db.migrationPositions;
      assert db.migrationPositions == map[];
      NothingMigrated(SourceOf(db), db.migrationPositions, db.migrationEvents, db.keyframes);
    }

    /**
     * `finalize`, uninterrupted: its outcome and history are those of the chain of migrations. If it
     * succeeds, the tables hold no migration data, and all invariants.
     */
    method Finalize() returns (r: Result<()>)
      requires Wired() && Registered() && DatastoreOk(db) && Compatible()
      modifies db
      ensures StoreOk(db)
      ensures old(TooNew()) ==> r == Err(MismatchingMigrationIndices) && unchanged(db)
      ensures |old(db.positions)| == |old(db.history)|
      ensures !old(TooNew()) ==> Finalised(migrations, old(SourceOf(db)).(migs := EventMigrationsOf()), LogOf(db), r)
      ensures !old(TooNew()) ==> SequencesFinal(
        migrations, old(SourceOf(db)).(migs := EventMigrationsOf()), old(db.idSequences), db.idSequences)
      ensures r.Ok? ==> DatastoreOk(db) && Compatible()
      ensures r.Ok? ==> db.migrationPositions == map[] && db.migrationEvents == map[] && db.keyframes == map[]
      ensures r.Ok? && old(db.positions) != [] ==> BaseIndex(db.positions) == targetIndex
      ensures db.migrations == old(db.migrations) || db.migrations == EventMigrationsOf()
      ensures r.Err? && lastEventTarget == targetIndex ==> DatastoreOk(db) && Compatible()
      ensures BaseIndex(old(db.positions)) == targetIndex && !old(TooNew()) ==> r.Ok? && unchanged(db)
      ensures !old(TooNew()) && BaseIndex(old(db.positions)) != targetIndex ==>
        TablesFinal(db, old(SourceOf(db)).(migs := EventMigrationsOf()), lastEventTarget, r)
    {
      hide StoreOk, EngineOk, Sequential, WithIndex, AllAt, MigratedTo, ReplayHistory, ModelsAt, ModelsOutcome;
      StateParts(db);
      var checked := RunChecks();
      if checked.Err? {
        return Err(checked.error);
      }
      NoModelsLeft(migrations, targetIndex, LogOf(db));
      if checked.value {
        NothingToFinalise();
        DeleteCollectionfieldAuxTables();
        return Ok(());
      }
      var state := GetMigrationState();
      if state.value == NoMigrationRequired {
        NothingToFinalise();
        return Ok(());
      }
      r := FinalizeRequired(state.value);
    }

    lemma NothingToFinalise()
      requires Registered() && DatastoreOk(db) && Compatible() && !TooNew()
      requires BaseIndex(db.positions) < 1 || BaseIndex(db.positions) >= targetIndex
      ensures db.migrationPositions == map[] && db.migrationEvents == map[] && db.keyframes == map[]
    {
      hide StoreOk, EngineOk, Sequential;
      if BaseIndex(db.positions) < 1 {
        UnindexedIsClean(SourceOf(db), db.migrationPositions, db.migrationEvents, db.keyframes);
      } else {
        NoneLeft();
      }
    }

    /** The part of `finalize` after its checks. */
    method FinalizeRequired(state: MigrationState) returns (r: Result<()>)
      requires Wired() && Registered() && DatastoreOk(db) && Compatible()
      requires !TooNew() && 1 <= BaseIndex(db.positions) < targetIndex
      requires state.MigrationRequired? <==> MigrationNeeded()
      modifies db
      ensures StoreOk(db)
      ensures |old(db.positions)| == |old(db.history)|
      ensures Finalised(migrations, old(SourceOf(db)).(migs := EventMigrationsOf()), LogOf(db), r)
      ensures SequencesFinal(
        migrations, old(SourceOf(db)).(migs := EventMigrationsOf()), old(db.idSequences), db.idSequences)
      ensures r.Ok? ==> DatastoreOk(db) && Compatible() && BaseIndex(db.positions) == targetIndex
      ensures r.Ok? ==> db.migrationPositions == map[] && db.migrationEvents == map[] && db.keyframes == map[]
      ensures db.migrations == old(db.migrations) || db.migrations == EventMigrationsOf()
      ensures r.Err? && lastEventTarget == targetIndex ==> DatastoreOk(db) && Compatible()
      ensures TablesFinal(db, old(SourceOf(db)).(migs := EventMigrationsOf()), lastEventTarget, r)
    {
      hide StoreOk, EngineOk, Sequential, AllAt, WithIndex, MigratedTo, ReplayHistory, ModelsAt, ModelsOutcome, Rebuilt;
      hide RunOutcome;
      StateParts(db);
      ghost var s, sequences := SourceOf(db).(migs := EventMigrationsOf()), db.idSequences;
      r := MigrateFirst(state);
      if r.Err? {
        return r;
      }
      var current := readDatabase.GetCurrentMigrationIndex();
      if current.Err? {
        return Err(MismatchingMigrationIndices);
      }
      ghost var log, models := Log(s.ps, s.hist), db.models;
      if current.value < lastEventTarget {
        r := FinalizeEvents();
        if r.Err? {
          return r;
        }
        log, models, sequences := LogOf(db), db.models, db.idSequences;
      } else {
        NoneLeft();
      }
      NoModelsLeft(migrations, BaseIndex(db.positions), log);
      r := Ok(());
      if lastEventTarget < targetIndex {
        r := FinalizeModels();
      }
      if s.base < lastEventTarget {
        FinalisedByEvents(
          migrations, s, log.hist, models, LogOf(db), r, old(db.idSequences), sequences, db.idSequences);
      }
    }

    /** The event migrations, if there are any left to run. */
    method MigrateFirst(state: MigrationState) returns (r: Result<()>)
      requires Wired() && Registered() && DatastoreOk(db) && Compatible()
      requires !TooNew() && 1 <= BaseIndex(db.positions) < targetIndex
      requires state.MigrationRequired? <==> MigrationNeeded()
      modifies db`keyframes, db`migrationEvents, db`migrationEventSeq, db`migrationPositions, db`migrations
      ensures DatastoreOk(db) && Compatible() && !TooNew() && (r.Ok? ==> r == Ok(()))
      ensures db.migrations == old(db.migrations) || db.migrations == EventMigrationsOf()
      ensures BaseIndex(db.positions) >= lastEventTarget ==> r.Ok?
      ensures BaseIndex(db.positions) < lastEventTarget ==>
        var s := old(SourceOf(db)).(migs := EventMigrationsOf());
        && s.Has(lastEventTarget, |s.ps|) && r == ChainOutcome(s, lastEventTarget)
        && RunOutcome(s, old(db.migrationPositions), db.migrationPositions, lastEventTarget, |s.ps|, r)
        && (r.Ok? ==> AllAt(SourceOf(db), db.migrationPositions, lastEventTarget))
    {
      hide StoreOk, EngineOk, Sequential, AllAt, ReplayHistory, ModelsAt, RanTo;
      StateParts(db);
      ghost var s, mp := SourceOf(db).(migs := EventMigrationsOf()), db.migrationPositions;
      r := Ok(());
      if state == MigrationRequired {
        r := MigrateEvents(|db.positions|);
        Uninterrupted(s, mp, db.migrationPositions, lastEventTarget, |s.ps|, r);
      } else if BaseIndex(db.positions) < lastEventTarget {
        NothingToRun(|s.ps|);
      }
    }

    /** `reset`: nothing but the migration data goes. */
    method Reset() returns (r: Result<()>)
      requires Wired() && Registered() && DatastoreOk(db) && Compatible()
      modifies db`keyframes, db`migrationPositions, db`migrationEvents, db`migrationEventSeq
      ensures DatastoreOk(db) && Compatible()
      ensures r == if old(TooNew()) then Err(MismatchingMigrationIndices) else Ok(())
      ensures r.Err? ==> unchanged(db)
      ensures r.Ok? ==> db.keyframes == map[] && db.migrationPositions == map[] && db.migrationEvents == map[]
    {
      hide StoreOk, EngineOk, Sequential, SourceOk;
      if readDatabase.IsEmpty() {
        EmptyIsClean(SourceOf(db), db.migrationPositions, db.migrationEvents, db.keyframes);
        return Ok(());
      }
      var valid := AssertValidMigrationIndex();
      if valid.Err? {
        return valid;
      }
      DeleteMigrationKeyframes();
      CleanMigrationData();
      Reindexed(db);
      StoreSource(db);
      CleanEngine(SourceOf(db));
      r := Ok(());
    }
  }

  /**
   * What `finalize` leaves in the other tables. If it fails in the chain of event migrations, nothing but
   * the migration data has changed, as in a run. Otherwise there is no migration data left, and the lock
   * index is empty; if a model migration fails, what was written before that is in the index, which starts
   * where it did, or after the last position that the event migrations rewrote.
   */
  twostate predicate TablesFinal(db: Database, s: Source, target: int, new r: Result<()>)
    reads db
  {
    if 1 <= s.base < target && s.Has(target, |s.ps|) && ModelsAt(s, target, |s.ps|).Err? then
      && unchanged(db`positions, db`positionSeq, db`history, db`events, db`eventSeq, db`models, db`idSequences)
      && unchanged(db`collectionfields, db`links, db`indexedFrom)
      && RunOutcome(s, old(db.migrationPositions), db.migrationPositions, target, |s.ps|, r)
    else
      && db.migrationPositions == map[] && db.migrationEvents == map[] && db.keyframes == map[]
      && if r.Ok? then IndexCleared(db)
         else db.indexedFrom == if 1 <= s.base < target then LastPosition(old(db.positions)) else old(db.indexedFrom)
  }

  lemma StoreSource(db: Database)
    requires StoreOk(db)
    ensures SourceOk(SourceOf(db))
  {}

  /**
   * A run comes to what the chain of migrations comes to, unless it is interrupted after as many
   * positions as it was given. Either way it is known which positions it has brought to the target.
   */
  ghost predicate RunOutcome(
    s: Source, mp0: MigrationPositions, mp: MigrationPositions, target: int, stopAfter: nat, r: Result<()>)
  {
    && s.Has(target, |s.ps|) && (r == ChainOutcome(s, target) || r == Err(Interrupted))
    && exists reached: nat :: RanTo(s, mp0, mp, target, stopAfter, reached, r)
  }

  ghost predicate RanTo(
    s: Source, mp0: MigrationPositions, mp: MigrationPositions, target: int, stopAfter: nat, reached: nat,
    r: Result<()>)
  {
    && Reached(s, mp0, mp, reached, target)
    && match r
       case Ok(_) => reached == |s.ps| <= Leading(s, mp0, target) + stopAfter
       case Err(error) => Failed(s, mp0, target, reached, stopAfter, error)
  }

  lemma RunIs(
    s: Source, mp0: MigrationPositions, mp: MigrationPositions, mev: EventTable, frames: Frames,
    target: int, stopAfter: nat, reached: nat, r: Result<()>)
    requires EngineOk(s, mp, mev, frames) && |s.ps| > 0 && 1 <= s.base < target == |s.migs| + 1
    requires RanTo(s, mp0, mp, target, stopAfter, reached, r)
    ensures RunOutcome(s, mp0, mp, target, stopAfter, r)
  {
    hide ModelsAt, EngineOk, ReplayHistory, Leading;
    EngineSource(s, mp, mev, frames);
    if r.Ok? {
      assert AllAt(s, mp, target);
      AllAtIsOk(s, mp, mev, frames, target);
      assert r.value == ();
    } else if reached < |s.ps| && ModelsAt(s, target, reached + 1) == Err(r.error) {
      ErrorStays(s, target, reached + 1, |s.ps|);
    }
  }

  lemma Uninterrupted(
    s: Source, mp0: MigrationPositions, mp: MigrationPositions, target: int, stopAfter: nat, r: Result<()>)
    requires RunOutcome(s, mp0, mp, target, stopAfter, r) && |s.ps| <= stopAfter
    ensures r == ChainOutcome(s, target)
  {
    hide ModelsAt, Reached, Leading;
    var reached: nat :| RanTo(s, mp0, mp, target, stopAfter, reached, r);
    if r.Err? { ErrorStays(s, target, reached + 1, |s.ps|); }
  }

  /** All positions at one index, and no migration data. */
  lemma CleanMigration(db: Database, rows: seq<PositionRow>, mi: int)
    requires StoreOk(db) && db.positions == WithIndex(rows, mi) && rows != [] && IndexAllowed(mi)
    requires db.migrationPositions == map[] && db.migrationEvents == map[] && db.keyframes == map[]
    ensures MigrationOk(db) && BaseIndex(db.positions) == mi
  {
    hide StoreOk, EngineOk;
    StoreSource(db);
    assert |WithIndex(rows, mi)| == |PositionsOf(WithIndex(rows, mi))| == |rows|;
    CleanEngine(SourceOf(db));
  }

  lemma NoModelsLeft(ms: seq<Migration>, base: int, log: Log)
    requires Sequential(ms) && LastEventTarget(ms) <= base <= |ms| + 1
    ensures base == |ms| + 1 ==> ModelsOutcome(ModelsFrom(ms, base), log, log, Ok(()))
  {}

  lemma NoModelMigration(ms: seq<ModelMigration>, log: Log)
    ensures ModelsMigrated(ms[..0], log, log)
  {}

  lemma SameLog(db: Database)
    requires StoreOk(db)
    ensures LogPrefix(LogOf(db), LogOf(db))
  {}

  lemma PrefixesJoin(a: Log, b: Log, c: Log)
    requires LogPrefix(a, b) && LogPrefix(b, c)
    ensures LogPrefix(a, c)
  {
    assert c.ps[..|a.ps|] == c.ps[..|b.ps|][..|a.ps|] && c.hist[..|a.ps|] == c.hist[..|b.ps|][..|a.ps|];
  }

  lemma GrownLog(log: Log, log': Log)
    requires LogPrefix(log, log')
    ensures |log.ps| <= |log'.ps|
  {}

  /** The index of the positions plays no part in what the writer's tables satisfy. */
  twostate lemma Reindexed(db: Database)
    requires old(StoreOk(db)) && PositionsOf(db.positions) == PositionsOf(old(db.positions))
    requires db.positionSeq == old(db.positionSeq) && db.history == old(db.history)
    requires db.events == old(db.events) && db.eventSeq == old(db.eventSeq)
    requires db.models == old(db.models) && db.idSequences == old(db.idSequences)
    requires db.collectionfields == old(db.collectionfields) && db.links == old(db.links)
    requires db.indexedFrom == old(db.indexedFrom)
    ensures StoreOk(db)
  {
    hide HistoryOk, CacheOk, IndexOk, SequencesOk;
  }

  lemma StoreReady(db: Database)
    requires StoreOk(db)
    ensures HistoryOk(PositionsOf(db.positions), db.positionSeq, db.history, db.events, db.eventSeq)
  {}

  lemma SwappedStore(
    db: Database, ps: seq<Position>, last: nat, hist: seq<seq<Event>>, t: EventTable, next: nat)
    requires HistoryOk(ps, last, hist, t, next) && ps == PositionsOf(db.positions) && last == db.positionSeq
    requires HoldsHistory(db.events, ps, db.history) && IdsBelow(db.events, db.eventSeq)
    requires CacheOk(ps, db.history, db.models) && Rebuilt(db.models, db.idSequences)
    requires db.collectionfields == map[] && db.links == {}
    requires ps != [] && db.indexedFrom == ps[|ps| - 1]
    ensures StoreOk(db)
  {
    hide HoldsHistory, IndexOk, CacheOk, SequencesOk;
    LastIsGreatest(ps, last, hist, t, next);
    EmptyIndex(Log(ps, db.history), db.events, db.indexedFrom);
  }

  lemma LastIsGreatest(ps: seq<Position>, last: nat, hist: seq<seq<Event>>, t: EventTable, next: nat)
    requires HistoryOk(ps, last, hist, t, next)
    ensures forall i | 0 <= i < |ps| :: ps[i] <= ps[|ps| - 1]
  {}
}
