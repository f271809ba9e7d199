/** The writer service: a batch of write requests in one transaction, each behind its lock check. */
module Writers {
  import opened Types
  import opened Replay
  import opened Tables
  import opened Staircase
  import opened DbEvents
  import opened WriteLaws
  import opened PositionFree
  import opened LockIndex
  import opened Backend
  import opened WriteRequests
  import opened LockQueries
  import opened OccLockers
  import opened ReadDatabases
  import opened Datastores

  /**
   * The `k`-th position holds the events of the request, translated on the models before it, and what
   * the request had locked was still as it had been read.
   */
  ghost predicate WrittenAt(log: Log, k: nat, from: Position, request: WriteRequest, holds: ModelSemantics) {
    && k < |log.ps| == |log.hist| && ReplayHistory(log.ps, log.hist, k).Ok?
    && FiltersOk(request.lockedCollectionFields)
    && var models := ReplayHistory(log.ps, log.hist, k).value;
      && LocksHold(Log(log.ps[..k], log.hist[..k]), models, from, request, holds)
      && LegalAll(models, request.events, log.ps[k])
      && log.hist[k] == AllEvents(models, request.events, log.ps[k])
  }

  /** The log has grown by some positions. */
  ghost predicate Continues(log: Log, log': Log, count: nat) {
    LogPrefix(log, log') && |log'.ps| == |log.ps| + count
  }

  lemma ContinuesFurther(log: Log, log': Log, log'': Log, count: nat)
    requires Continues(log, log', count) && Continues(log', log'', 1)
    ensures Continues(log, log'', count + 1) && |log''.ps| == |log.ps| + count + 1
  {
    assert log''.ps[..|log.ps|] == log''.ps[..|log'.ps|][..|log.ps|];
    assert log''.hist[..|log.ps|] == log''.hist[..|log'.ps|][..|log.ps|];
  }

  lemma WrittenStays(log: Log, log': Log, k: nat, from: Position, request: WriteRequest, holds: ModelSemantics)
    requires WrittenAt(log, k, from, request, holds)
    requires Continues(log, log', 1)
    ensures WrittenAt(log', k, from, request, holds)
  {
    hide LocksHold, LegalAll, AllEvents, FiltersOk;
    assert log.ps[..k] == log'.ps[..|log.ps|][..k] == log'.ps[..k];
    assert log.hist[..k] == log'.hist[..|log.ps|][..k] == log'.hist[..k];
    assert log.ps[k] == log'.ps[..|log.ps|][k] && log.hist[k] == log'.hist[..|log.ps|][k];
    HistoryFrame(log.ps, log.hist, log'.ps, log'.hist, k);
  }

  /** What has to hold of a request before it gets to the events. */
  ghost predicate WellMade(request: WriteRequest) {
    && ListsGiven(request) && request.events != []
    && (forall e | e in request.events :: ValidRequest(e))
    && (request.migrationIndex.Some? ==> request.migrationIndex.value >= 1)
  }

  /** What a request meets: the history, and the tables its locks are checked on. */
  datatype Snapshot = Snapshot(log: Log, tables: LockTables, from: Position)

  ghost function SnapshotOf(db: Database): Snapshot
    reads db
  {
    Snapshot(LogOf(db), LockTablesOf(db), db.indexedFrom)
  }

  ghost predicate SnapshotOk(s: Snapshot) {
    && Ascending(s.log.ps) && HoldsHistory(s.tables.events, s.log.ps, s.log.hist)
    && CacheOk(s.log.ps, s.log.hist, s.tables.models)
    && IndexOk(s.log, s.tables.events, s.tables.collectionfields, s.tables.links, s.from)
  }

  /**
   * Why a request is refused, if it is: an index may only be given to an empty datastore, then the locks
   * are checked, then the events one after the other.
   */
  ghost function Refusal(s: Snapshot, holds: ModelSemantics, request: WriteRequest): Option<Error> {
    if request.migrationIndex.Some? && s.log.ps != [] then Some(DatastoreNotEmpty)
    else match LockVerdict(s.tables, holds, request)
      case Err(error) => Some(error)
      case Ok(_) => RefusedWith(s.tables.models, request.events, 0)
  }

  /** The request has become one position more. */
  ghost predicate Taken(s: Snapshot, s': Snapshot, holds: ModelSemantics, request: WriteRequest) {
    Continues(s.log, s'.log, 1) && s'.from == s.from && WrittenAt(s'.log, |s.log.ps|, s.from, request, holds)
  }

  /** All requests were taken, none of them refused by what it met. */
  ghost predicate Ran(s0: Snapshot, requests: seq<WriteRequest>, holds: ModelSemantics, s: Snapshot)
    decreases |requests|
  {
    && SnapshotOk(s)
    && if requests == [] then s == s0 else Last(s0, requests, holds, s)
  }

  ghost predicate Last(s0: Snapshot, requests: seq<WriteRequest>, holds: ModelSemantics, s: Snapshot)
    requires requests != []
    decreases |requests|, 0
  {
    var n := |requests| - 1;
    exists mid ::
      && Ran(s0, requests[..n], holds, mid)
      && Refusal(mid, holds, requests[n]).None? && Taken(mid, s, holds, requests[n])
  }

  /** The positions the database hands out in a transaction: above all earlier ones. */
  datatype Numbers = Numbers(after: Position, upTo: Position)

  /** The log has got its positions from `n` on in the transaction. */
  ghost predicate Numbered(ps: seq<Position>, n: nat, numbers: Numbers) {
    forall i | n <= i < |ps| :: numbers.after < ps[i] <= numbers.upTo
  }

  ghost predicate StoppedAt(
    s0: Snapshot, requests: seq<WriteRequest>, holds: ModelSemantics, i: nat, mid: Snapshot, numbers: Numbers,
    error: Error)
  {
    && i < |requests| && Ran(s0, requests[..i], holds, mid) && Numbered(mid.log.ps, |s0.log.ps|, numbers)
    && Refusal(mid, holds, requests[i]) == Some(error)
  }

  /** The first request to be refused gives the error. */
  ghost predicate Stopped(
    s0: Snapshot, requests: seq<WriteRequest>, holds: ModelSemantics, numbers: Numbers, error: Error)
  {
    exists i: nat, mid :: StoppedAt(s0, requests, holds, i, mid, numbers, error)
  }

  lemma OneRequestMore(
    s0: Snapshot, requests: seq<WriteRequest>, holds: ModelSemantics, i: nat, mid: Snapshot, s: Snapshot)
    requires i < |requests| && Ran(s0, requests[..i], holds, mid) && SnapshotOk(s)
    requires Refusal(mid, holds, requests[i]).None? && Taken(mid, s, holds, requests[i])
    ensures Ran(s0, requests[..i + 1], holds, s)
  {
    hide SnapshotOk, Refusal, Taken;
    assert requests[..i + 1][..i] == requests[..i] && requests[..i + 1][i] == requests[i];
    assert Last(s0, requests[..i + 1], holds, s);
  }

  /** Whatever the batch, its first request meets the datastore as it is. */
  lemma {:induction false} FirstWasTaken(
    s0: Snapshot, requests: seq<WriteRequest>, holds: ModelSemantics, s: Snapshot)
    requires requests != [] && Ran(s0, requests, holds, s)
    ensures Refusal(s0, holds, requests[0]).None?
    decreases |requests|
  {
    hide SnapshotOk, Refusal, Taken;
    var n := |requests| - 1;
    assert Last(s0, requests, holds, s);
    var mid :| Ran(s0, requests[..n], holds, mid)
      && Refusal(mid, holds, requests[n]).None? && Taken(mid, s, holds, requests[n]);
    if n > 0 { FirstWasTaken(s0, requests[..n], holds, mid); }
  }

  /** So its refusal decides the batch. */
  lemma FirstDecides(
    s0: Snapshot, requests: seq<WriteRequest>, holds: ModelSemantics, numbers: Numbers, r: Result<()>, s: Snapshot)
    requires requests != []
    requires match r
      case Ok(_) => Ran(s0, requests, holds, s)
      case Err(error) => Stopped(s0, requests, holds, numbers, error)
    ensures Refusal(s0, holds, requests[0]).Some? ==> r == Err(Refusal(s0, holds, requests[0]).value)
    ensures |requests| == 1 && Refusal(s0, holds, requests[0]).None? ==> r.Ok?
  {
    hide SnapshotOk, Refusal, Taken, Last;
    match r
    case Ok(_) => FirstWasTaken(s0, requests, holds, s);
    case Err(error) =>
      var i: nat, mid :| StoppedAt(s0, requests, holds, i, mid, numbers, error);
      if i > 0 {
        FirstWasTaken(s0, requests[..i], holds, mid);
      } else {
        assert requests[..0] == [];
      }
  }

  class WriterService {
    const db: Database
    const backend: DatabaseBackend
    const readDatabase: ReadDatabase
    const occLocker: OccLocker

    constructor (db: Database, holds: ModelSemantics)
      ensures this.db == db && Wired() && occLocker.holds == holds
    {
      this.db := db;
      backend := new DatabaseBackend(db);
      readDatabase := new ReadDatabase(db);
      occLocker := new OccLocker(db, holds);
    }

    ghost predicate Wired() { backend.db == db && readDatabase.db == db && occLocker.db == db }

    /** `write_with_database_context`: taken or refused; on an error the caller rolls back. */
    method WriteInContext(request: WriteRequest) returns (r: Result<Position>)
      requires Wired() && DatastoreOk(db) && WellMade(request)
      modifies db`positions, db`positionSeq, db`history, db`events, db`eventSeq, db`models, db`idSequences
      modifies db`collectionfields, db`links
      ensures db.positionSeq >= old(db.positionSeq) && db.eventSeq >= old(db.eventSeq)
      ensures r.Ok? ==> r.value == db.positionSeq > old(db.positionSeq)
      ensures r.Ok? ==> PositionsOf(db.positions) == PositionsOf(old(db.positions)) + [r.value]
      ensures match old(Refusal(SnapshotOf(db), occLocker.holds, request))
        case Some(error) => r == Err(error)
        case None => r.Ok? && DatastoreOk(db) && Taken(old(SnapshotOf(db)), SnapshotOf(db), occLocker.holds, request)
      ensures request.migrationIndex.Some? && old(db.positions) != [] ==> r == Err(DatastoreNotEmpty)
      ensures r.Ok? && request.migrationIndex.Some? ==> BaseIndex(db.positions) == request.migrationIndex.value
      ensures r.Ok? && request.migrationIndex.None? ==> BaseIndex(db.positions) == BaseIndex(old(db.positions))
      ensures r.Ok? && request.migrationIndex.Some? ==> old(db.positions) == []
      ensures r.Ok? ==> SequencesGrow(old(db.idSequences), db.idSequences)
    {
      hide StoreOk, EngineOk, SourceOk, LegalAll, AllEvents, RefusedWith, FiltersOk, FiltersComparable, ValidRequest;
      hide LocksHold, Joinable, Ascending, WrittenAt, BrokenKeys;
      var current := readDatabase.GetCurrentMigrationIndex();
      var migrationIndex := current.value;
      if request.migrationIndex.Some? {
        if !readDatabase.IsEmpty() {
          return Err(DatastoreNotEmpty);
        }
        migrationIndex := request.migrationIndex.value;
      }
      StoreJoins(db);
      var checked := occLocker.AssertLockedFields(request);
      if checked.Err? {
        return Err(checked.error);
      }
      AcceptedLocksHold(occLocker, request);
      r := Insert(request, migrationIndex);
    }

    /** The rest of a request whose locks hold. */
    method Insert(request: WriteRequest, migrationIndex: int) returns (r: Result<Position>)
      requires Wired() && DatastoreOk(db) && WellMade(request) && FiltersOk(request.lockedCollectionFields)
      requires LocksHold(LogOf(db), db.models, db.indexedFrom, request, occLocker.holds)
      requires migrationIndex == BaseIndex(db.positions) || (db.positions == [] && IndexAllowed(migrationIndex))
      modifies db`positions, db`positionSeq, db`history, db`events, db`eventSeq, db`models, db`idSequences
      modifies db`collectionfields, db`links
      ensures db.positionSeq >= old(db.positionSeq) && db.eventSeq >= old(db.eventSeq)
      ensures r.Ok? ==> r.value == db.positionSeq > old(db.positionSeq)
      ensures r.Ok? ==> PositionsOf(db.positions) == PositionsOf(old(db.positions)) + [r.value]
      ensures r.Ok? <==> RefusedWith(old(db.models), request.events, 0).None?
      ensures r.Ok? ==> BaseIndex(db.positions) == migrationIndex
      ensures r.Err? ==> RefusedWith(old(db.models), request.events, 0) == Some(r.error)
      ensures r.Ok? ==> DatastoreOk(db) && Continues(old(LogOf(db)), LogOf(db), 1)
      ensures r.Ok? ==> SequencesGrow(old(db.idSequences), db.idSequences)
      ensures r.Ok? ==> WrittenAt(LogOf(db), |old(db.positions)|, db.indexedFrom, request, occLocker.holds)
    {
      hide StoreOk, EngineOk, SourceOk, LegalAll, AllEvents, RefusedWith, FiltersOk, ValidRequest, LocksHold;
      hide WrittenAt, CacheOk, RowOk;
      ghost var log, models := LogOf(db), db.models;
      StoreReplays(db);
      r := backend.InsertEvents(request.events, migrationIndex);
      AnyPosition(models, request.events, db.positionSeq, 0);
      if r.Ok? {
        assert LogOf(db).ps == log.ps + [r.value];
        StoreReplays(db);
        InsertedAt(log, LogOf(db), models, db.indexedFrom, request, occLocker.holds);
        AppendKeepsMigration(old(SourceOf(db)), SourceOf(db), db.migrationPositions, db.migrationEvents, db.keyframes);
      }
    }

    /** The loop over the requests. */
    method WriteAll(requests: seq<WriteRequest>) returns (r: Result<()>)
      requires Wired() && DatastoreOk(db) && forall q | q in requests :: WellMade(q)
      modifies db`positions, db`positionSeq, db`history, db`events, db`eventSeq, db`models, db`idSequences
      modifies db`collectionfields, db`links
      ensures db.positionSeq >= old(db.positionSeq) && db.eventSeq >= old(db.eventSeq)
      ensures r.Ok? ==> DatastoreOk(db) && Continues(old(LogOf(db)), LogOf(db), |requests|)
      ensures r.Ok? ==> SequencesGrow(old(db.idSequences), db.idSequences)
      ensures r.Ok? ==> forall i: nat | i < |requests| ::
        WrittenAt(LogOf(db), |old(db.positions)| + i, db.indexedFrom, requests[i], occLocker.holds)
      ensures r.Ok? ==> Ran(old(SnapshotOf(db)), requests, occLocker.holds, SnapshotOf(db))
      ensures r.Ok? ==>
        Numbered(LogOf(db).ps, |old(db.positions)|, Numbers(old(db.positionSeq), db.positionSeq))
      ensures r.Err? ==> Stopped(
        old(SnapshotOf(db)), requests, occLocker.holds, Numbers(old(db.positionSeq), db.positionSeq), r.error)
      ensures r.Ok? ==> BaseIndex(db.positions) == if requests != [] && requests[0].migrationIndex.Some?
        then requests[0].migrationIndex.value else BaseIndex(old(db.positions))
    {
      hide DatastoreOk, WrittenAt, WellMade, Continues, Ran, Refusal, SnapshotOk;
      ghost var n, s0, rows := |db.positions|, SnapshotOf(db), db.positions;
      StartsHere(db, LogOf(db));
      NothingRan(db, occLocker.holds, requests);
      for i := 0 to |requests|
        invariant DatastoreOk(db) && Continues(old(LogOf(db)), LogOf(db), i) && |db.positions| == n + i
        invariant db.positionSeq >= old(db.positionSeq) && db.eventSeq >= old(db.eventSeq)
        invariant SequencesGrow(old(db.idSequences), db.idSequences) && db.indexedFrom == s0.from
        invariant forall j: nat | j < i :: WrittenAt(LogOf(db), n + j, db.indexedFrom, requests[j], occLocker.holds)
        invariant Ran(s0, requests[..i], occLocker.holds, SnapshotOf(db))
        invariant Numbered(PositionsOf(db.positions), n, Numbers(old(db.positionSeq), db.positionSeq))
        invariant BaseIndex(db.positions) == if i > 0 && requests[0].migrationIndex.Some?
          then requests[0].migrationIndex.value else BaseIndex(rows)
      {
        assert requests[i] in requests;
        ghost var log, mid := LogOf(db), SnapshotOf(db);
        var written := WriteInContext(requests[i]);
        if written.Err? {
          assert StoppedAt(
            s0, requests, occLocker.holds, i, mid, Numbers(old(db.positionSeq), db.positionSeq), written.error);
          return Err(written.error);
        }
        SnapshotIsOk(db);
        OneRequestMore(s0, requests, occLocker.holds, i, mid, SnapshotOf(db));
        ContinuesFurther(old(LogOf(db)), log, LogOf(db), i);
        forall j: nat | j < i
          ensures WrittenAt(LogOf(db), n + j, db.indexedFrom, requests[j], occLocker.holds)
        {
          WrittenStays(log, LogOf(db), n + j, db.indexedFrom, requests[j], occLocker.holds);
        }
      }
      assert requests[..|requests|] == requests;
      r := Ok(());
    }

    /**
     * `write`: all requests or none, by the first that is refused; position and event numbers are used
     * up in either case.
     */
    method Write(requests: seq<WriteRequest>) returns (r: Result<()>)
      requires Wired() && DatastoreOk(db) && forall q | q in requests :: WellMade(q)
      modifies db`positions, db`positionSeq, db`history, db`events, db`eventSeq, db`models, db`idSequences
      modifies db`collectionfields, db`links
      ensures DatastoreOk(db) && SequencesGrow(old(db.idSequences), db.idSequences)
      ensures db.positionSeq >= old(db.positionSeq) && db.eventSeq >= old(db.eventSeq)
      ensures r.Err? ==> Restored(db)
      ensures r.Ok? ==> Continues(old(LogOf(db)), LogOf(db), |requests|)
      ensures r.Ok? ==> forall i: nat | i < |requests| ::
        WrittenAt(LogOf(db), |old(db.positions)| + i, db.indexedFrom, requests[i], occLocker.holds)
      ensures r.Ok? ==> Ran(old(SnapshotOf(db)), requests, occLocker.holds, SnapshotOf(db))
      ensures r.Ok? ==>
        Numbered(LogOf(db).ps, |old(db.positions)|, Numbers(old(db.positionSeq), db.positionSeq))
      ensures r.Err? ==> Stopped(
        old(SnapshotOf(db)), requests, occLocker.holds, Numbers(old(db.positionSeq), db.positionSeq), r.error)
      ensures r.Ok? ==> BaseIndex(db.positions) == if requests != [] && requests[0].migrationIndex.Some?
        then requests[0].migrationIndex.value else BaseIndex(old(db.positions))
    {
      hide DatastoreOk, WrittenAt, WellMade, Continues, Ran, Stopped;
      var positions, events, models, idSequences := db.positions, db.events, db.models, db.idSequences;
      var collectionfields, links := db.collectionfields, db.links;
      ghost var history := db.history;
      r := WriteAll(requests);
      if r.Err? {
        backend.RollBack(positions, events, models, idSequences, collectionfields, links, history);
        RolledBack(db);
      }
    }
  }

  lemma StoreReplays(db: Database)
    requires StoreOk(db)
    ensures |db.positions| == |db.history| && CacheOk(PositionsOf(db.positions), db.history, db.models)
    ensures SourceOk(SourceOf(db)) && RowsOk(db.models)
  {
    StoreParts(db);
  }

  lemma StartsHere(db: Database, log: Log)
    requires DatastoreOk(db) && log == Log(PositionsOf(db.positions), db.history)
    ensures Continues(log, log, 0)
  {}

  lemma SnapshotIsOk(db: Database)
    requires DatastoreOk(db)
    ensures SnapshotOk(SnapshotOf(db))
  {
    hide IndexOk, HoldsHistory, EngineOk, Ascending, SequencesOk;
  }

  lemma NothingRan(db: Database, holds: ModelSemantics, requests: seq<WriteRequest>)
    requires DatastoreOk(db)
    ensures Ran(SnapshotOf(db), requests[..0], holds, SnapshotOf(db))
  {
    hide SnapshotOk;
    SnapshotIsOk(db);
  }

  lemma InsertedAt(
    log: Log, log': Log, models: Models, from: Position, request: WriteRequest, holds: ModelSemantics)
    requires CacheOk(log.ps, log.hist, models) && FiltersOk(request.lockedCollectionFields)
    requires LocksHold(log, models, from, request, holds)
    requires Continues(log, log', 1)
    requires LegalAll(models, request.events, log'.ps[|log.ps|])
    requires log'.hist[|log.ps|] == AllEvents(models, request.events, log'.ps[|log.ps|])
    ensures WrittenAt(log', |log.ps|, from, request, holds)
  {
    hide LocksHold, LegalAll, AllEvents, FiltersOk;
    HistoryFrame(log.ps, log.hist, log'.ps, log'.hist, |log.ps|);
  }

  twostate lemma RolledBack(db: Database)
    requires old(DatastoreOk(db)) && Restored(db) && LeftAlone(db)
    ensures DatastoreOk(db)
  {
    hide EngineOk, StoreOk;
    StoreRolledBack(db);
  }
}
