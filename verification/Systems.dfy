/** All of it as one state machine: any sequence of writes, reservations, trims and migrations. */
module Systems {
  import opened Types
  import opened Tables
  import opened EventMigrations
  import opened EventMigraters
  import opened Staircase
  import opened Backend
  import opened WriteRequests
  import opened LockQueries
  import opened Datastores
  import opened Writers
  import opened Trimming
  import opened Registration
  import opened Finalizing
  import opened MigrationHandlers
  import opened Reservations
  import opened States

  class Datastore {
    const db: Database
    const code: Catalogue
    const holds: ModelSemantics
    const writer: WriterService
    ghost var reservations: seq<Reservation>    // those whose ids no later one may share

    constructor (code: Catalogue, holds: ModelSemantics)
      requires CatalogueOk(code)
      ensures Valid() && fresh(db) && this.code == code && this.holds == holds
      ensures db.positions == [] && db.indexedFrom == 0 && Clean(State()) && reservations == []
    {
      var tables := new Database();
      this.db := tables;
      this.code, this.holds := code, holds;
      writer := new WriterService(tables, holds);
      reservations := [];
      new;
      NewDatastore(db);
    }

    ghost predicate Valid()
      reads this, db
    {
      && DatastoreOk(db) && writer.db == db && writer.Wired() && writer.occLocker.holds == holds && CatalogueOk(code)
      && FromCatalogue(code, db.migrations) && ReservationsOk(reservations, db.idSequences)
    }

    ghost function State(): State
      reads this, db
    {
      StateOf(db, reservations)
    }

    predicate RunsModelMigrations(c: Command) { c.Finalize? && c.count > 0 && code(c.count - 1).ModelKind? }

    /** A handler with the first `count` migrations. */
    method HandlerFor(count: nat) returns (handler: MigrationHandler)
      requires Valid()
      ensures fresh(handler) && handler.db == db && handler.Wired() && handler.Registered() && handler.Compatible()
      ensures handler.migrations == Known(code, count)
      ensures handler.targetIndex == count + 1 && handler.lastEventTarget == LastTarget(code, count)
    {
      hide DatastoreOk, SortByTarget, Sequential, ReservationsOk, CatalogueOk;
      handler := new MigrationHandler(db);
      KnownIsSequential(code, count);
      var registered := handler.RegisterMigrations(Known(code, count));
      KnownIsCompatible(handler, count);
    }

    lemma KnownIsCompatible(handler: MigrationHandler, count: nat)
      requires Valid() && handler.db == db && handler.Registered() && handler.migrations == Known(code, count)
      ensures handler.Compatible()
    {
      hide StoreOk, EngineOk, Sequential, ReservationsOk;
      handler.StateParts(db);
      var mp := db.migrationPositions;
      forall j | 0 <= j < |db.migrations| && j < |handler.EventMigrationsOf()|
        ensures db.migrations[j] == handler.EventMigrationsOf()[j]
      {
        assert code(j) == EventKind(j + 2, db.migrations[j]);
      }
      if !handler.TooNew() {
        forall p | p in mp
          ensures mp[p] <= handler.lastEventTarget
        {
          var i: nat := mp[p] - 2;
          assert code(i) == EventKind(i + 2, db.migrations[i]);
          assert handler.migrations[i].EventKind?;
        }
      }
    }

    /** What a handler has run with stands in the catalogue. */
    lemma StaysInCatalogue(handler: MigrationHandler, count: nat)
      requires CatalogueOk(code) && handler.Registered() && handler.migrations == Known(code, count)
      ensures FromCatalogue(code, handler.EventMigrationsOf())
    {
      hide Sequential;
      forall i: nat | i < |handler.EventMigrationsOf()|
        ensures code(i) == EventKind(i + 2, handler.EventMigrationsOf()[i])
      {
        assert handler.migrations[i] == code(i) && handler.migrations[i].EventKind?;
      }
    }

    method Execute(c: Command) returns (a: Answer)
      requires Valid() && CommandOk(c)
      modifies this`reservations, db
      ensures StoreHolds(State())
      ensures (Valid() && StateOk(code, State())) || (a.r.Err? && RunsModelMigrations(c))
      ensures Effect(code, holds, c, old(State()), a, State())
    {
      hide Valid, StoreOk, StoreHolds, StateOk, Wrote, Reserved, Trimmed, MigratedWith, FinalisedWith, WasReset;
      a := Answer(Ok(()), []);
      match c {
        case WriteAll(requests) =>
          var r := ExecuteWrite(requests);
          a := Answer(r, []);
        case ReserveIds(collection, amount) => a := Reserve(collection, amount);
        case TrimTables(expired) => TrimExpired(expired);
        case Migrate(count, stopAfter) =>
          var r := ExecuteMigrate(count, stopAfter);
          a := Answer(r, []);
        case Finalize(count) =>
          var r := ExecuteFinalize(count);
          a := Answer(r, []);
        case Reset(count) =>
          var r := ExecuteReset(count);
          a := Answer(r, []);
      }
      StatesAgree();
    }

    /** The invariants of the tables are those of their value. */
    lemma StatesAgree()
      ensures StoreOk(db) <==> StoreHolds(State())
      ensures Valid() ==> StateOk(code, State()) && StoreHolds(State())
    {
      hide StoreOk, StoreHolds, MigrationOk, StateOk, FromCatalogue, ReservationsOk;
      StateIs(db, code, reservations);
    }

    method ExecuteWrite(requests: seq<WriteRequest>) returns (r: Result<()>)
      requires Valid() && forall q | q in requests :: WellMade(q)
      modifies db
      ensures Valid() && StoreOk(db) && Wrote(holds, requests, old(State()), r, State())
    {
      hide StoreOk, MigrationOk, CatalogueOk, FromCatalogue, ReservationsOk, WrittenAt, Continues, WellMade;
      hide Ran, Stopped, SequencesGrow, Numbered;
      r := writer.Write(requests);
      GrownSequences(reservations, old(db.idSequences), db.idSequences);
    }

    method ExecuteMigrate(count: nat, stopAfter: nat) returns (r: Result<()>)
      requires Valid()
      modifies db
      ensures Valid() && StoreOk(db) && MigratedWith(code, count, stopAfter, old(State()), r, State())
    {
      hide StoreOk, MigrationOk, CatalogueOk, FromCatalogue, ReservationsOk, AllAt, RunOutcome, Sequential;
      var handler := HandlerFor(count);
      r := handler.Migrate(stopAfter);
      StaysInCatalogue(handler, count);
    }

    /** Reserved ids that the rebuilt sequences fall below again are forgotten. */
    method ExecuteFinalize(count: nat) returns (r: Result<()>)
      requires Valid()
      modifies this`reservations, db
      ensures StoreOk(db)
      ensures Valid() || (r.Err? && count > 0 && code(count - 1).ModelKind?)
      ensures FinalisedWith(code, count, old(State()), r, State())
      ensures r.Ok? && 1 <= BaseIndex(old(db.positions)) < LastTarget(code, count) == count + 1 ==>
        forall x | x in old(reservations) :: x in reservations <==> Covered(x, db.models)
    {
      hide DatastoreOk, StoreOk, FromCatalogue, ReservationsOk, Finalised, SequencesFinal, SequencesGrow, Sequential;
      hide RunOutcome, ModelsAt;
      r := FinalizeTables(count);
      KeepReservations(old(db.idSequences), db.idSequences);
      if r.Ok? && 1 <= BaseIndex(old(db.positions)) < LastTarget(code, count) == count + 1 {
        KeptIfCovered(count, SourceWith(code, old(State()), count), old(db.idSequences), r);
      }
      reservations := Kept(reservations, db.idSequences);
    }

    method FinalizeTables(count: nat) returns (r: Result<()>)
      requires Valid()
      modifies db
      ensures StoreOk(db)
      ensures (DatastoreOk(db) && FromCatalogue(code, db.migrations))
        || (r.Err? && count > 0 && code(count - 1).ModelKind?)
      ensures FinalisedWith(code, count, old(State()), r, StateOf(db, Kept(reservations, db.idSequences)))
    {
      hide Valid, DatastoreOk, StoreOk, FromCatalogue, FinalisedWith, Sequential;
      var handler := HandlerFor(count);
      r := FinalizeWith(handler, count);
    }

    method FinalizeWith(handler: MigrationHandler, count: nat) returns (r: Result<()>)
      requires Valid() && handler.db == db && handler.Wired() && handler.Registered() && handler.Compatible()
      requires handler.migrations == Known(code, count)
      requires handler.targetIndex == count + 1 && handler.lastEventTarget == LastTarget(code, count)
      modifies db
      ensures StoreOk(db)
      ensures (DatastoreOk(db) && FromCatalogue(code, db.migrations))
        || (r.Err? && count > 0 && code(count - 1).ModelKind?)
      ensures FinalisedWith(code, count, old(State()), r, StateOf(db, Kept(reservations, db.idSequences)))
    {
      hide StoreOk, MigrationOk, CatalogueOk, FromCatalogue, Finalised, SequencesFinal, ReservationsOk;
      hide Sequential, FinalisedWith, SequencesGrow, TablesFinal;
      r := handler.Finalize();
      StaysInCatalogue(handler, count);
      KeepReservations(old(db.idSequences), db.idSequences);
      FinalIs(count, r);
      assert count > 0 ==> handler.migrations[count - 1] == code(count - 1);
    }

    /** The outcome of the handler, on the state of the datastore. */
    twostate lemma FinalIs(count: nat, new r: Result<()>)
      requires |old(db.positions)| == |old(db.history)| && Sequential(Known(code, count))
      requires reservations == old(reservations)
      requires old(TooNew(State(), count)) ==> r == Err(MismatchingMigrationIndices) && unchanged(db)
      requires !old(TooNew(State(), count)) ==>
        && Finalised(Known(code, count), SourceWith(code, old(State()), count), LogOf(db), r)
        && SequencesFinal(
             Known(code, count), SourceWith(code, old(State()), count), old(db.idSequences), db.idSequences)
        && (if BaseIndex(old(db.positions)) == count + 1 then r.Ok? && unchanged(db)
            else TablesFinal(db, SourceWith(code, old(State()), count), LastTarget(code, count), r))
        && (r.Ok? && old(db.positions) != [] ==> BaseIndex(db.positions) == count + 1)
      requires Kept(reservations, old(db.idSequences)) == reservations
      requires SequencesGrow(old(db.idSequences), db.idSequences) ==> Kept(reservations, db.idSequences) == reservations
      ensures FinalisedWith(code, count, old(State()), r, StateOf(db, Kept(reservations, db.idSequences)))
    {
      hide Finalised, SequencesFinal, Sequential, RunOutcome, ModelsAt, SequencesGrow, EventsIn, Kept, TooNew;
    }

    /** After event migrations only, the reservations left are those a model covers. */
    lemma KeptIfCovered(count: nat, s: Source, before: IdSequences, r: Result<()>)
      requires StoreOk(db) && ReservationsOk(reservations, before)
      requires Sequential(Known(code, count)) && |s.ps| == |s.hist| && s.migs == EventsIn(Known(code, count))
      requires r.Ok? && 1 <= s.base < LastTarget(code, count) == count + 1
      requires Finalised(Known(code, count), s, LogOf(db), r)
      requires SequencesFinal(Known(code, count), s, before, db.idSequences)
      ensures forall x | x in reservations :: x in Kept(reservations, db.idSequences) <==> Covered(x, db.models)
    {
      hide StoreOk, ReservationsOk, Finalised, SequencesFinal, Sequential, Rebuilt, CacheOk;
      StoreParts(db);
      assert r.value == ();
      RebuiltFromModels(Known(code, count), s, LogOf(db), db.models, before, db.idSequences);
      ReservationsSurvive(reservations, before, db.models, db.idSequences);
    }

    lemma KeepReservations(before: IdSequences, after: IdSequences)
      requires ReservationsOk(reservations, before)
      ensures ReservationsOk(Kept(reservations, after), after) && Kept(reservations, before) == reservations
      ensures SequencesGrow(before, after) ==> Kept(reservations, after) == reservations
    {
      KeptOk(reservations, before, after);
      AllKept(reservations, before);
      if SequencesGrow(before, after) { AllKept(reservations, after); }
    }

    method ExecuteReset(count: nat) returns (r: Result<()>)
      requires Valid()
      modifies db
      ensures Valid() && StoreOk(db) && WasReset(count, old(State()), r, State())
    {
      hide StoreOk, MigrationOk, CatalogueOk, FromCatalogue, ReservationsOk;
      var handler := HandlerFor(count);
      r := handler.Reset();
    }

    method Reserve(collection: Collection, amount: int) returns (a: Answer)
      requires Valid()
      modifies this`reservations, db`idSequences
      ensures Valid() && StoreOk(db) && Reserved(collection, amount, old(State()), a, State())
    {
      hide StoreOk, EngineOk, CatalogueOk, FromCatalogue, ReservationsOk;
      PositiveSequences();
      var reserved := writer.backend.ReserveNextIds(collection, amount);
      if reserved.Err? {
        return Answer(Err(reserved.error), []);
      }
      a := Answer(Ok(()), reserved.value);
      var x := Reservation(collection, a.ids[0], |a.ids|);
      OneRangeMore(reservations, x, old(db.idSequences), db.idSequences);
      reservations := reservations + [x];
    }

    lemma PositiveSequences()
      requires StoreOk(db)
      ensures forall c | c in db.idSequences :: 1 <= db.idSequences[c]
    {}

    /** Only the timestamps of positions matter. */
    method TrimExpired(expired: set<Position>)
      requires Valid()
      modifies db`collectionfields, db`links, db`indexedFrom
      ensures Valid() && StoreOk(db) && Trimmed(expired, old(State()), Ok(()), State())
    {
      hide StoreOk, EngineOk, CatalogueOk, FromCatalogue, ReservationsOk, KeptFields, KeptLinks;
      var gone := set p | p in expired && p in PositionsOf(db.positions);
      assert gone == Expired(expired, State());
      Trim(db, gone);
    }

    /**
     * Any sequence of commands, by backends of any version, with interrupted migrations in between: every
     * command has its effect on what the ones before it left, and keeps all invariants. Only a model
     * migration that fails halfway through `finalize` ends the run.
     */
    method Run(commands: seq<Command>) returns (answers: seq<Answer>, ghost states: seq<State>)
      requires Valid() && forall c | c in commands :: CommandOk(c)
      modifies this`reservations, db
      ensures Happened(Trace(code, holds, commands, answers, states))
      ensures states[0] == old(State()) && states[|answers|] == State() && StoreHolds(State())
      ensures |answers| < |commands| || !Valid() ==> Stuck(commands, answers)
    {
      hide Valid, StateOk, Effect, CommandOk, StoreHolds;
      StatesAgree();
      answers, states := [], [State()];
      for i := 0 to |commands|
        invariant |answers| == i && Valid() && Happened(Trace(code, holds, commands, answers, states))
        invariant states[0] == old(State()) && states[i] == State()
        invariant StateOk(code, State()) && StoreHolds(State())
      {
        assert commands[i] in commands;
        var a := Execute(commands[i]);
        OneStepMore(Trace(code, holds, commands, answers, states), a, State());
        answers, states := answers + [a], states + [State()];
        if a.r.Err? && RunsModelMigrations(commands[i]) {
          return;
        }
      }
    }

    /** The last command was a finalisation whose model migrations failed. */
    predicate Stuck(commands: seq<Command>, answers: seq<Answer>)
      requires |answers| <= |commands|
    {
      answers != [] && answers[|answers| - 1].r.Err? && RunsModelMigrations(commands[|answers| - 1])
    }
  }
}
