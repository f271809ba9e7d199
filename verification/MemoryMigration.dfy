/** Migrating an import in memory: the same models as writing it to a database and migrating that. */
module MemoryMigration {
  import opened Types
  import opened Replay
  import opened Tables
  import opened EventMigrations
  import opened Keyframes
  import opened EventMigrationRun
  import EventMigraters
  import opened Finalizing
  import opened DbEvents
  import opened WriteLaws

  type Import = seq<(Fqid, Model)>    // a dictionary, in its order

  const IMPORT_POSITION: Position := 1

  function Pruned(model: Model): Model { map f | f in model && !IsReserved(f) && model[f] != Null :: model[f] }

  /** The create events an import starts with. */
  function ImportEvents(models: Import): (es: seq<Event>)
    ensures |es| == |models| && forall i | 0 <= i < |es| :: es[i] == Create(models[i].0, Pruned(models[i].1))
  {
    seq(|models|, i requires 0 <= i < |models| => Create(models[i].0, Pruned(models[i].1)))
  }

  /** An import starts with all that can be written: reserved fields and nulls are left out. */
  lemma ImportedData(models: Import, i: nat, f: Field)
    requires i < |models|
    ensures ImportEvents(models)[i].Create? && ImportEvents(models)[i].fqid == models[i].0
    ensures ImportEvents(models)[i].WellFormed()
    ensures !IsReserved(f) ==>
      var model := models[i].1;
      Get(ImportEvents(models)[i].data, f) == if f in model && model[f] != Null then Some(model[f]) else None
  {}

  ghost function ImportSource(start: int, models: Import, migs: seq<EventMigration>): Source {
    Source(start, [IMPORT_POSITION], [ImportEvents(models)], migs)
  }

  lemma ImportStep(s: Source, mi: int, events: seq<Event>)
    requires |s.ps| == 1 && s.Has(mi + 1, 1) && s.Has(mi, 1) && Evs(s, mi, 1) == Ok(events)
    ensures match MigrateEvents(s.migs[mi - 1], s.ps[0], events, map[], map[])
      case Err(error) => Evs(s, mi + 1, 1) == Err(error)
      case Ok(done) => Evs(s, mi + 1, 1) == Ok(done.events) && ModelsAt(s, mi + 1, 1) == Ok(done.dst)
  {
    hide MigrateEvents;
    var done := MigrateEvents(s.migs[mi - 1], s.ps[0], events, map[], map[]);
    assert ModelsAt(s, mi, 0) == ModelsAt(s, mi + 1, 0) == Ok(map[]);
    if done.Ok? {
      MigrateEventsReplays(s.migs[mi - 1], s.ps[0], events, map[], map[]);
    }
  }

  lemma ImportFails(s: Source, mi: int, target: int)
    requires |s.ps| == 1 && s.Has(mi, 1) && s.Has(target, 1) && mi <= target && Evs(s, mi, 1).Err?
    ensures ModelsAt(s, target, 1) == Err(Evs(s, mi, 1).error)
  {
    hide Evs;
    assert ModelsAt(s, target, 0) == Ok(map[]);
    EventMigraters.PositionFails(s, mi, target, 1);
  }

  /** `migrate_position` in memory: every step starts from two empty keyframes. */
  method MigrateImport(db: Database, models: Import, start: int, migrations: seq<EventMigration>)
    returns (r: Result<Models>)
    requires 1 <= start < |migrations| + 1
    modifies db`keyframes
    ensures db.keyframes == old(db.keyframes)
    ensures r == ModelsAt(ImportSource(start, models, migrations), |migrations| + 1, 1)
  {
    hide Evs, ModelsAt, MigrateEvents;
    ghost var s, frames := ImportSource(start, models, migrations), db.keyframes;
    var events := ImportEvents(models);
    var migrated: Models := map[];
    ImportStart(s);
    for mi := start to |migrations| + 1
      invariant db.keyframes == frames && Evs(s, mi, 1) == Ok(events)
      invariant mi > start ==> ModelsAt(s, mi, 1) == Ok(migrated)
    {
      var src := new KeyframeModifier.Create(db, 0, mi, IMPORT_POSITION, Initial);
      var dst := new KeyframeModifier.Create(db, 0, mi + 1, IMPORT_POSITION, Initial);
      ImportStep(s, mi, events);
      var written := RunMigration(migrations[mi - 1], events, src, dst, frames);
      if written.Err? {
        ImportFails(s, mi + 1, |migrations| + 1);
        return Err(written.error);
      }
      events := written.value;
      migrated := dst.Snapshot();
    }
    r := Ok(migrated);
  }

  lemma ImportStart(s: Source)
    requires |s.ps| == 1 && s.Has(s.base, 1)
    ensures Evs(s, s.base, 1) == Ok(s.hist[0])
  {}

  // ---------------------------------------------------------------- the way through the database

  predicate Importable(models: Import) {
    && (forall i, f | 0 <= i < |models| && f in models[i].1 :: !IsReserved(f) && models[i].1[f] != Null)
    && (forall i, j | 0 <= i < j < |models| :: models[i].0 != models[j].0)
  }

  function ImportRequests(models: Import): (rs: seq<RequestEvent>)
    ensures |rs| == |models| && forall i | 0 <= i < |rs| :: rs[i] == RequestCreate(models[i].0, models[i].1)
  {
    seq(|models|, i requires 0 <= i < |models| => RequestCreate(models[i].0, models[i].1))
  }

  lemma CreateEvents(table: Models, f: Fqid, data: Model, pos: Position)
    requires f !in table && WellFormedData(data)
    ensures EventsFor(table, RequestCreate(f, data)) == Ok([DbCreate(f, data)])
    ensures StoredEvents([DbCreate(f, data)]) == [Create(f, data)]
    ensures ReplayEvents(table, [Create(f, data)], pos).Ok?
    ensures ReplayEvents(table, [Create(f, data)], pos).value.Keys == table.Keys + {f}
  {
    ReplayOne(table, Create(f, data), pos);
    assert StoredEvents([DbCreate(f, data)])[0] == Create(f, data);
  }

  lemma RestImportable(models: Import)
    requires models != [] && Importable(models)
    ensures Importable(models[1..]) && WellFormedData(models[0].1) && Pruned(models[0].1) == models[0].1
    ensures forall i | 0 < i < |models| :: models[i].0 != models[0].0
  {
    var rest := models[1..];
    forall i, f | 0 <= i < |rest| && f in rest[i].1
      ensures !IsReserved(f) && rest[i].1[f] != Null
    {
      assert rest[i] == models[i + 1];
    }
  }

  /** Writing an import yields the events the migration in memory starts with. */
  lemma {:induction false} ImportIsWritten(table: Models, models: Import, pos: Position)
    requires Importable(models) && forall i | 0 <= i < |models| :: models[i].0 !in table
    ensures LegalAll(table, ImportRequests(models), pos)
    ensures AllEvents(table, ImportRequests(models), pos) == ImportEvents(models)
    decreases |models|
  {
    hide EventsFor, ReplayEvents, Importable;
    var rs := ImportRequests(models);
    if models == [] {
      NoRequests(table, rs, pos);
    } else {
      var f, data, rest := models[0].0, models[0].1, models[1..];
      RestImportable(models);
      CreateEvents(table, f, data, pos);
      var after := ReplayEvents(table, [Create(f, data)], pos).value;
      FirstRequest(table, rs, pos);
      assert forall i | 0 <= i < |rest| :: rest[i] == models[i + 1] && models[i + 1].0 != f;
      ImportIsWritten(after, rest, pos);
      assert rs[1..] == ImportRequests(rest);
      assert ImportEvents(models) == [Create(f, data)] + ImportEvents(rest);
    }
  }

  /**
   * An import without null values, written as the first position and finalised, gives the models that
   * its migration in memory gives.
   */
  lemma MemoryEqualsDatabase(
    models: Import, start: int, migs: seq<EventMigration>, hist: seq<seq<Event>>, finalised: Models)
    requires Importable(models) && 1 <= start < |migs| + 1
    requires MigratedTo(
      Source(start, [IMPORT_POSITION], [AllEvents(map[], ImportRequests(models), IMPORT_POSITION)], migs),
      |migs| + 1, hist, finalised)
    ensures ModelsAt(ImportSource(start, models, migs), |migs| + 1, 1) == Ok(finalised)
  {
    hide ModelsAt;
    ImportIsWritten(map[], models, IMPORT_POSITION);
  }
}
