/** The tables as a value, and what each command does to them. */
module States {
  import opened Types
  import opened Tables
  import opened EventMigrations
  import opened Staircase
  import opened EventMigraters
  import opened LockIndex
  import opened Backend
  import opened WriteRequests
  import opened LockQueries
  import opened OccLockers
  import opened Datastores
  import opened Writers
  import opened Trimming
  import opened Registration
  import opened Finalizing
  import opened MigrationHandlers
  import opened Reservations

  /** `count` is how many migrations of the catalogue the running backend knows. */
  datatype Command =
    | WriteAll(requests: seq<WriteRequest>)
    | ReserveIds(collection: Collection, amount: int)
    | TrimTables(expired: set<Position>)
    | Migrate(count: nat, stopAfter: nat)
    | Finalize(count: nat)
    | Reset(count: nat)

  /** The ids are those handed out, if any. */
  datatype Answer = Answer(r: Result<()>, ids: seq<int>)

  ghost predicate CommandOk(c: Command) { c.WriteAll? ==> forall q | q in c.requests :: WellMade(q) }

  /** All migrations there will ever be, in the order of their targets: event migrations come first. */
  type Catalogue = nat -> Migration

  ghost predicate CatalogueOk(code: Catalogue) {
    && (forall i: nat :: code(i).target == i + 2)
    && (forall i: nat, j: nat | i < j && code(j).EventKind? :: code(i).EventKind?)
  }

  function Known(code: Catalogue, count: nat): (ms: seq<Migration>)
    ensures |ms| == count && forall i | 0 <= i < count :: ms[i] == code(i)
  {
    seq(count, i requires 0 <= i < count => code(i))
  }

  /** The index of the last event migration among the first `count` migrations. */
  function LastTarget(code: Catalogue, count: nat): int { LastEventTarget(Known(code, count)) }

  /** The migration tables were made with migrations of the catalogue. */
  ghost predicate FromCatalogue(code: Catalogue, migs: seq<EventMigration>) {
    forall i: nat | i < |migs| :: code(i) == EventKind(i + 2, migs[i])
  }

  lemma KnownIsSequential(code: Catalogue, count: nat)
    requires CatalogueOk(code)
    ensures SortByTarget(Known(code, count)) == Known(code, count) && Sequential(Known(code, count))
  {
    var ms := Known(code, count);
    forall i: nat | i < count
      ensures ms[i].target == i + 2
    {
      assert code(i).target == i + 2;
    }
    assert SortedByTarget(ms);
    SortedAlready(ms);
  }

  // ---------------------------------------------------------------- states

  datatype State = State(
    positions: seq<PositionRow>, positionSeq: nat, events: EventTable, eventSeq: nat, models: Models,
    idSequences: IdSequences, collectionfields: CollectionFields, links: Links,
    migrationPositions: MigrationPositions, migrationEvents: EventTable, migrationEventSeq: nat, keyframes: Frames,
    history: seq<seq<Event>>, migrations: seq<EventMigration>, indexedFrom: Position,
    reservations: seq<Reservation>)

  ghost function StateOf(db: Database, reservations: seq<Reservation>): State
    reads db
  {
    State(
      db.positions, db.positionSeq, db.events, db.eventSeq, db.models, db.idSequences, db.collectionfields, db.links,
      db.migrationPositions, db.migrationEvents, db.migrationEventSeq, db.keyframes,
      db.history, db.migrations, db.indexedFrom, reservations)
  }

  function Past(s: State): Log { Log(PositionsOf(s.positions), s.history) }

  function Met(s: State): Snapshot {
    Snapshot(Past(s), LockTables(s.events, s.collectionfields, s.links, s.models), s.indexedFrom)
  }

  function SourceIn(s: State): Source {
    Source(BaseIndex(s.positions), PositionsOf(s.positions), s.history, s.migrations)
  }

  /** The history as the first `count` migrations are run on it. */
  function SourceWith(code: Catalogue, s: State, count: nat): Source {
    SourceIn(s).(migs := EventsIn(Known(code, count)))
  }

  predicate Clean(s: State) { s.migrationPositions == map[] && s.migrationEvents == map[] && s.keyframes == map[] }

  /** What the tables of the writer satisfy. */
  ghost predicate StoreHolds(s: State) {
    var ps := PositionsOf(s.positions);
    && HistoryOk(ps, s.positionSeq, s.history, s.events, s.eventSeq) && CacheOk(ps, s.history, s.models)
    && IndexOk(Past(s), s.events, s.collectionfields, s.links, s.indexedFrom)
    && SequencesOk(s.models, s.idSequences) && StartsWithin(ps, s.indexedFrom)
  }

  /** The invariant of all runs. */
  ghost predicate StateOk(code: Catalogue, s: State) {
    && StoreHolds(s) && FromCatalogue(code, s.migrations) && ReservationsOk(s.reservations, s.idSequences)
    && Uniform(s.positions, BaseIndex(s.positions)) && IndexAllowed(BaseIndex(s.positions))
    && EngineOk(SourceIn(s), s.migrationPositions, s.migrationEvents, s.keyframes)
    && IdsBelow(s.migrationEvents, s.migrationEventSeq)
  }

  /** The state is that of the datastore, and so are its invariants. */
  lemma StateIs(db: Database, code: Catalogue, reservations: seq<Reservation>)
    ensures StoreHolds(StateOf(db, reservations)) <==> StoreOk(db)
    ensures StateOk(code, StateOf(db, reservations)) <==>
      DatastoreOk(db) && FromCatalogue(code, db.migrations) && ReservationsOk(reservations, db.idSequences)
  {
    hide HistoryOk, CacheOk, IndexOk, SequencesOk, StartsWithin, FromCatalogue, ReservationsOk, Uniform, EngineOk;
  }

  // ---------------------------------------------------------------- effects

  /** The datastore has seen migrations beyond the first `count`. */
  ghost predicate TooNew(s: State, count: nat) {
    || BaseIndex(s.positions) > count + 1
    || exists p | p in s.migrationPositions :: s.migrationPositions[p] > count + 1
  }

  /** All requests were taken one after the other, or none because of the first that is refused. */
  ghost predicate Wrote(holds: ModelSemantics, requests: seq<WriteRequest>, s: State, r: Result<()>, t: State) {
    var n, numbers := |s.positions|, Numbers(s.positionSeq, t.positionSeq);
    && s.positionSeq <= t.positionSeq && s.eventSeq <= t.eventSeq
    && match r
       case Ok(_) =>
         && t == t.(
              migrationPositions := s.migrationPositions, migrationEvents := s.migrationEvents,
              migrationEventSeq := s.migrationEventSeq, keyframes := s.keyframes, migrations := s.migrations,
              indexedFrom := s.indexedFrom, reservations := s.reservations)
         && BaseIndex(t.positions) == (if requests != [] && requests[0].migrationIndex.Some?
              then requests[0].migrationIndex.value else BaseIndex(s.positions))
         && SequencesGrow(s.idSequences, t.idSequences)
         && Ran(Met(s), requests, holds, Met(t)) && Continues(Past(s), Past(t), |requests|)
         && Numbered(Past(t).ps, n, numbers)
         && forall i: nat | i < |requests| :: WrittenAt(Past(t), n + i, s.indexedFrom, requests[i], holds)
       case Err(error) =>
         && t == s.(positionSeq := t.positionSeq, eventSeq := t.eventSeq)
         && Stopped(Met(s), requests, holds, numbers, error)
  }

  /** The ids are the next ones of the collection, and no later reservation shares them. */
  ghost predicate Reserved(collection: Collection, amount: int, s: State, a: Answer, t: State) {
    && (a.r.Ok? <==> amount >= 1 && 1 <= |collection| <= COLLECTION_MAX_LEN)
    && match a.r
       case Err(error) => error == InvalidFormat && a.ids == [] && t == s
       case Ok(_) =>
         && |a.ids| == amount && (forall i | 0 <= i < |a.ids| :: a.ids[i] == a.ids[0] + i)
         && a.ids[0] == (if collection in s.idSequences then s.idSequences[collection] else 1)
         && (forall f | f in s.models && f.collection == collection :: f.id < a.ids[0])
         && t == s.(
              idSequences := s.idSequences[collection := a.ids[0] + |a.ids|],
              reservations := s.reservations + [Reservation(collection, a.ids[0], |a.ids|)])
  }

  /** Of the expired positions, those that exist. */
  function Expired(expired: set<Position>, s: State): set<Position> {
    set p | p in expired && p in PositionsOf(s.positions)
  }

  /** Exactly the entries of expired positions are gone; the index starts after the last of them. */
  ghost predicate Trimmed(expired: set<Position>, s: State, r: Result<()>, t: State) {
    var gone, kept := Expired(expired, s), KeptFields(s.collectionfields, Expired(expired, s));
    && r.Ok?
    && t == s.(
         collectionfields := kept, links := KeptLinks(s.events, kept, s.links, gone), indexedFrom := t.indexedFrom)
    && (t.indexedFrom == s.indexedFrom || t.indexedFrom in gone) && s.indexedFrom <= t.indexedFrom
    && forall p | p in gone :: p <= t.indexedFrom
  }

  /** The same but for the migration tables. */
  ghost predicate OnlyMigrated(s: State, t: State) {
    t == s.(
      migrationPositions := t.migrationPositions, migrationEvents := t.migrationEvents,
      migrationEventSeq := t.migrationEventSeq, keyframes := t.keyframes, migrations := t.migrations)
  }

  /** A run of the event migrations; only a datastore below the last of them has anything to run. */
  ghost predicate MigratedWith(code: Catalogue, count: nat, stopAfter: nat, s: State, r: Result<()>, t: State) {
    var base, last := BaseIndex(s.positions), LastTarget(code, count);
    if TooNew(s, count) then r == Err(MismatchingMigrationIndices) && t == s
    else if 1 <= base < last then
      && OnlyMigrated(s, t)
      && RunOutcome(SourceWith(code, s, count), s.migrationPositions, t.migrationPositions, last, stopAfter, r)
      && (r.Ok? ==> AllAt(SourceIn(t), t.migrationPositions, last))
    else
      && r.Ok? && t == s.(positions := t.positions)
      && (if base != -1 then t.positions == s.positions else PositionsOf(t.positions) == PositionsOf(s.positions))
      && (base == -1 && s.positions != [] ==> BaseIndex(t.positions) == count + 1)
  }

  /**
   * The history, the sequences and the outcome are those of the chain of migrations. If the event
   * migrations fail, nothing else has changed. Otherwise no migration data is left, and if all succeeds,
   * the lock index is empty and starts after the last position.
   */
  ghost predicate FinalisedWith(code: Catalogue, count: nat, s: State, r: Result<()>, t: State) {
    var base, last, ms, source := BaseIndex(s.positions), LastTarget(code, count), Known(code, count),
      SourceWith(code, s, count);
    && t.reservations == Kept(s.reservations, t.idSequences)
    && (SequencesGrow(s.idSequences, t.idSequences) ==> t.reservations == s.reservations)
    && if TooNew(s, count) then r == Err(MismatchingMigrationIndices) && t == s
       else if base == count + 1 then r.Ok? && t == s
       else
         && Sequential(ms) && |source.ps| == |source.hist|
         && Finalised(ms, source, Past(t), r) && SequencesFinal(ms, source, s.idSequences, t.idSequences)
         && if 1 <= base < last && ModelsAt(source, last, |source.ps|).Err? then
              && OnlyMigrated(s, t.(reservations := s.reservations))
              && RunOutcome(source, s.migrationPositions, t.migrationPositions, last, |source.ps|, r)
            else
              && Clean(t)
              && (r.Err? ==> t.indexedFrom == if 1 <= base < last then LastPosition(s.positions) else s.indexedFrom)
              && (r.Ok? ==>
                    && t.collectionfields == map[] && t.links == {} && t.indexedFrom == LastPosition(t.positions)
                    && (s.positions != [] ==> BaseIndex(t.positions) == count + 1))
  }

  /** Nothing but the migration data goes. */
  ghost predicate WasReset(count: nat, s: State, r: Result<()>, t: State) {
    if TooNew(s, count) then r == Err(MismatchingMigrationIndices) && t == s
    else r.Ok? && OnlyMigrated(s, t) && t.migrations == s.migrations && Clean(t)
  }

  /** What a command has done, when it succeeds, and with which error it fails. */
  ghost predicate Effect(code: Catalogue, holds: ModelSemantics, c: Command, s: State, a: Answer, t: State) {
    match c
    case WriteAll(requests) => Wrote(holds, requests, s, a.r, t)
    case ReserveIds(collection, amount) => Reserved(collection, amount, s, a, t)
    case TrimTables(expired) => Trimmed(expired, s, a.r, t)
    case Migrate(count, stopAfter) => MigratedWith(code, count, stopAfter, s, a.r, t)
    case Finalize(count) => FinalisedWith(code, count, s, a.r, t)
    case Reset(count) => WasReset(count, s, a.r, t)
  }

  // ---------------------------------------------------------------- runs

  /** A run, or what there has been of it: each answer has led from a state to the next. */
  datatype Trace = Trace(
    code: Catalogue, holds: ModelSemantics, commands: seq<Command>, answers: seq<Answer>, states: seq<State>)

  /** Each command has had its effect on the state that the ones before it left, with all invariants. */
  ghost predicate Happened(x: Trace) {
    && |x.answers| <= |x.commands| && |x.states| == |x.answers| + 1
    && forall i: nat | i < |x.answers| :: StepOk(x, i)
  }

  ghost predicate StepOk(x: Trace, i: nat)
    requires i < |x.answers| <= |x.commands| && |x.states| == |x.answers| + 1
  {
    && StateOk(x.code, x.states[i])
    && Effect(x.code, x.holds, x.commands[i], x.states[i], x.answers[i], x.states[i + 1])
  }
  lemma OneStepMore(x: Trace, a: Answer, t: State)
    requires Happened(x) && |x.answers| < |x.commands| && StateOk(x.code, x.states[|x.answers|])
    requires Effect(x.code, x.holds, x.commands[|x.answers|], x.states[|x.answers|], a, t)
    ensures Happened(x.(answers := x.answers + [a], states := x.states + [t]))
  {
    hide StateOk, Effect;
    var y := x.(answers := x.answers + [a], states := x.states + [t]);
    forall i: nat | i < |y.answers|
      ensures StepOk(y, i)
    {
      if i < |x.answers| { assert StepOk(x, i); }
    }
  }
}
