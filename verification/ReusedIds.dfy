/** An id that is handed out twice: reserved, not used, and forgotten when the datastore is finalised. */
module ReusedIds {
  import opened Types
  import opened Replay
  import opened Tables
  import opened EventMigrations
  import opened Simulations
  import opened FieldMigrations
  import opened LockIndex
  import opened DbEvents
  import opened WriteLaws
  import opened Backend
  import opened WriteRequests
  import opened OccLockers
  import opened LockQueries
  import opened Staircase
  import opened Datastores
  import opened Writers
  import opened Registration
  import opened Finalizing
  import opened Reservations
  import opened States
  import opened Systems

  const MODEL := Fqid("a", 1)

  function FirstWrite(): WriteRequest { WriteRequest([RequestCreate(MODEL, map[])], map[], map[], map[], Some(1)) }

  /** Event migrations that change nothing. */
  function Noops(): Catalogue { (i: nat) => EventKind(i + 2, NoopMigration()) }

  lemma FirstWriteIsTaken(s: Snapshot, holds: ModelSemantics)
    requires SnapshotOk(s) && s.log == Log([], [])
    ensures Refusal(s, holds, FirstWrite()).None? && WellMade(FirstWrite())
  {
    assert s.tables.models == map[];
    assert BrokenKeys(s.tables, holds, FirstWrite()) == {};
    Translated(s.tables.models, 0);
  }

  lemma Translated(models: Models, pos: Position)
    requires models == map[]
    ensures AllEvents(models, FirstWrite().events, pos) == [Create(MODEL, map[])]
    ensures RefusedWith(models, FirstWrite().events, pos).None?
  {
    var rs := FirstWrite().events;
    assert EventsFor(models, rs[0]) == Ok([DbCreate(MODEL, map[])]);
    assert StoredEvents([DbCreate(MODEL, map[])]) == [Create(MODEL, map[])];
    assert [Create(MODEL, map[])][..0] == [] && rs[1..] == [];
    assert ReplayEvents(models, [Create(MODEL, map[])], pos).Ok?;
  }

  /** The only model after the first write. */
  lemma OneModel(log: Log, models: Models, from: Position, holds: ModelSemantics)
    requires |log.ps| == |log.hist| == 1 && CacheOk(log.ps, log.hist, models)
    requires WrittenAt(log, 0, from, FirstWrite(), holds)
    ensures log.hist[0] == [Create(MODEL, map[])] && models.Keys == {MODEL}
  {
    hide LocksHold;
    Translated(map[], log.ps[0]);
    assert ReplayHistory(log.ps, log.hist, 0) == Ok(map[]);
    assert ReplayEvents(map[], log.hist[0], log.ps[0]) == Ok(models);
    assert log.hist[0][..0] == [];
  }

  lemma NoopsKeepIt(s: Source, models: Models)
    requires s.base == 1 && |s.ps| == |s.hist| == 1 && s.hist[0] == [Create(MODEL, map[])]
    requires CacheOk(s.ps, s.hist, models) && SourceOk(s) && s.migs == [NoopMigration()]
    ensures ModelsAt(s, 2, 1) == Ok(models)
  {
    hide ReplayEvents, Implements;
    NoopSound();
    BaseModels(s, 1);
    NoopsKeepModels(s, 1, 2, 1);
  }

  /** The only sequence a finalised datastore with that model can have. */
  lemma NextIsTwo(models: Models, sequences: IdSequences)
    requires models.Keys == {MODEL} && Rebuilt(models, sequences)
    ensures sequences == map[MODEL.collection := 2]
  {
    assert MODEL in models;
    forall c | c in sequences
      ensures c == MODEL.collection && sequences[c] == 2
    {
      var f :| f in models && f.collection == c && sequences[c] == f.id + 1;
      assert f in models.Keys;
    }
  }

  lemma OneNoop()
    ensures EventCount(Known(Noops(), 1)) == 1 && EventsIn(Known(Noops(), 1)) == [NoopMigration()]
  {
    assert Known(Noops(), 1)[0] == Noops()(0);
  }

  lemma SequenceFallsBack(s: Source, models: Models, log: Log, r: Result<()>, before: IdSequences, after: IdSequences)
    requires s.base == 1 && |s.ps| == |s.hist| == 1 && s.hist[0] == [Create(MODEL, map[])] && models.Keys == {MODEL}
    requires CacheOk(s.ps, s.hist, models) && SourceOk(s) && s.migs == EventsIn(Known(Noops(), 1))
    requires Sequential(Known(Noops(), 1)) && Finalised(Known(Noops(), 1), s, log, r)
    requires SequencesFinal(Known(Noops(), 1), s, before, after)
    ensures r.Ok? && after == map[MODEL.collection := 2]
  {
    hide ModelsAt, Rebuilt, CacheOk, SourceOk, Sequential, MigratedTo;
    OneNoop();
    NoopsKeepIt(s, models);
    assert RebuiltThenGrown(models, after, true);
    NextIsTwo(models, after);
  }

  /** A datastore with this one model, at index 1. */
  ghost predicate Started(s: State) {
    && StateOk(Noops(), s) && Clean(s) && BaseIndex(s.positions) == 1
    && |s.positions| == |s.history| == 1 && s.history[0] == [Create(MODEL, map[])] && s.models.Keys == {MODEL}
  }

  lemma StartedParts(s: State)
    requires Started(s)
    ensures CacheOk(PositionsOf(s.positions), s.history, s.models)
    ensures SourceOk(SourceWith(Noops(), s, 1)) && !TooNew(s, 1)
  {
    hide CacheOk, IndexOk, HoldsHistory, ReservationsOk, SequencesOk, FromCatalogue;
  }

  lemma FirstWritten(holds: ModelSemantics, s: State, a: Answer, t: State)
    requires StateOk(Noops(), s) && s.positions == [] && Clean(s) && StateOk(Noops(), t)
    requires Effect(Noops(), holds, WriteAll([FirstWrite()]), s, a, t)
    ensures a.r.Ok? && Started(t)
  {
    hide IndexOk, HoldsHistory, EngineOk, FromCatalogue, ReservationsOk, WrittenAt, Ran, Stopped, SequencesOk;
    FirstWriteIsTaken(Met(s), holds);
    FirstDecides(Met(s), [FirstWrite()], holds, Numbers(s.positionSeq, t.positionSeq), a.r, Met(t));
    OneModel(Past(t), t.models, s.indexedFrom, holds);
  }

  lemma OneReserved(holds: ModelSemantics, s: State, a: Answer, t: State)
    requires Started(s) && StateOk(Noops(), t) && Effect(Noops(), holds, ReserveIds(MODEL.collection, 1), s, a, t)
    ensures Started(t) && |a.ids| == 1 && a.ids[0] >= 2
  {
    hide StateOk;
    assert MODEL in s.models;
  }

  lemma StartedIsFinalised(holds: ModelSemantics, s: State, a: Answer, t: State)
    requires Started(s) && Effect(Noops(), holds, Finalize(1), s, a, t)
    ensures a.r.Ok? && t.idSequences == map[MODEL.collection := 2]
  {
    hide StateOk, Finalised, SequencesFinal, Sequential, CacheOk, SourceOk, Kept, ModelsAt;
    OneNoop();
    StartedParts(s);
    SequenceFallsBack(SourceWith(Noops(), s, 1), s.models, Past(t), a.r, s.idSequences, t.idSequences);
  }

  lemma ReservedAgain(holds: ModelSemantics, s: State, a: Answer, t: State, id: int)
    requires s.idSequences == map[MODEL.collection := 2] && id >= 2
    requires Effect(Noops(), holds, ReserveIds(MODEL.collection, id), s, a, t)
    ensures id in a.ids
  {
    assert a.ids[id - 2] == id;
  }

  method WriteReserveFinalize(store: Datastore) returns (ids: seq<int>)
    requires store.Valid() && store.code == Noops() && store.db.positions == [] && Clean(store.State())
    modifies store, store.db
    ensures store.Valid() && |ids| == 1 && ids[0] >= 2 && store.db.idSequences == map[MODEL.collection := 2]
  {
    hide DatastoreOk, ReservationsOk, FromCatalogue, Started, StateOk, Effect, StoreHolds, CatalogueOk;
    var commands := [WriteAll([FirstWrite()]), ReserveIds(MODEL.collection, 1), Finalize(1)];
    FirstIsWellMade();
    store.StatesAgree();
    var answers, states := store.Run(commands);
    ghost var x := Trace(Noops(), store.holds, commands, answers, states);
    assert StepOk(x, 0) && StepOk(x, 1) && StepOk(x, 2);
    FirstWritten(x.holds, states[0], answers[0], states[1]);
    OneReserved(x.holds, states[1], answers[1], states[2]);
    StartedIsFinalised(x.holds, states[2], answers[2], states[3]);
    ids := answers[1].ids;
  }

  lemma FirstIsWellMade()
    ensures CommandOk(WriteAll([FirstWrite()]))
  {}

  /** All commands succeed, and the first id of the first answer is in the second as well. */
  method HandOutTwice(holds: ModelSemantics) returns (first: seq<int>, second: seq<int>)
    ensures first != [] && first[0] in second
  {
    hide DatastoreOk, ReservationsOk, FromCatalogue, StateOk, Effect, StoreHolds;
    assert CatalogueOk(Noops());
    var store := new Datastore(Noops(), holds);
    first := WriteReserveFinalize(store);
    ghost var s := store.State();
    var answer := store.Execute(ReserveIds(MODEL.collection, first[0]));
    second := answer.ids;
    ReservedAgain(store.holds, s, answer, store.State(), first[0]);
  }
}
